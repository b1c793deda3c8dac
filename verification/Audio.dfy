/**
 * The cached audio restriction of CameraService.cpp. A step is one critical section; between two
 * steps of an operation other threads may run, and the state records what they still owe. The
 * recompute holds the service lock throughout but reads each client's mode under that client's own
 * lock, so modes may change while it is under way.
 */
module AudioModel {
  import opened Wrappers

  datatype Client = Client(mode: bv32, disconnected: bool)

  /** A recompute under way: how many clients it has read, and their or. */
  datatype Scan = Scan(read: nat, mode: bv32)

  datatype State = State(
    clients: map<int, Client>,
    active: seq<int>,          // the active client list
    cache: bv32,               // mAudioRestriction
    sent: bv32,                // what AppOps was told last
    recomputes: nat,           // callers of setAudioRestriction that have not recomputed yet
    removals: multiset<int>,   // disconnects that have marked their client and not removed it yet
    evictions: multiset<int>,  // clients taken off the list whose disconnect is still to come
    scan: Option<Scan>)        // while it is there its thread has the service lock

  datatype Step =
    | Connect(c: int)
    | SetMode(c: int, mode: bv32)
    | Recompute     // the caller of setAudioRestriction gets the service lock
    | Ask           // getServiceAudioRestriction recomputes too
    | ReadMode      // the recompute reads the next client
    | Store         // the recompute stores its result
    | Disconnect(c: int)
    | RemoveByClient(c: int)
    | TakeOff(c: int)
    | DisconnectEvicted(c: int)

  const START := State(map[], [], 0, 0, 0, multiset{}, multiset{}, None)

  function Mode(clients: map<int, Client>, c: int): bv32 {
    if c in clients then clients[c].mode else 0
  }

  function Or(a: bv32, b: bv32): bv32 {
    a | b
  }

  /** The bitwise or over a list of clients. */
  function OrAll(clients: map<int, Client>, active: seq<int>): bv32 {
    if active == [] then 0 else Or(OrAll(clients, active[..|active| - 1]), Mode(clients, active[|active| - 1]))
  }

  function Without(active: seq<int>, c: int): seq<int> {
    if active == [] then []
    else if active[|active| - 1] == c then Without(active[..|active| - 1], c)
    else Without(active[..|active| - 1], c) + [active[|active| - 1]]
  }

  /** The end of updateAudioRestrictionLocked. */
  function Stored(s: State, mode: bv32): State {
    s.(cache := mode, sent := if s.cache != mode then mode else s.sent, scan := None)
  }

  /** The service lock is taken and updateAudioRestrictionLocked begins. */
  function Begun(s: State): State {
    s.(scan := Some(Scan(0, 0)))
  }

  /** The first half of disconnect; a client marked before is left alone. */
  function Marked(s: State, c: int): State {
    if c !in s.clients || s.clients[c].disconnected then s
    else s.(clients := s.clients[c := s.clients[c].(disconnected := true)], removals := s.removals + multiset{c})
  }

  function Apply(s: State, step: Step): State {
    match step
    case Connect(c) =>
      // a new client object, whose mode is AUDIO_RESTRICTION_NONE, joins the list
      if c in s.clients || s.scan.Some? then s
      else s.(clients := s.clients[c := Client(0, false)], active := s.active + [c])
    case SetMode(c, mode) =>
      if c in s.clients then s.(clients := s.clients[c := s.clients[c].(mode := mode)], recomputes := s.recomputes + 1) else s
    case Recompute => if s.recomputes > 0 && s.scan.None? then Begun(s.(recomputes := s.recomputes - 1)) else s
    case Ask => if s.scan.None? then Begun(s) else s
    case ReadMode =>
      if s.scan.Some? && s.scan.value.read < |s.active| then
        var Scan(k, mode) := s.scan.value;
        s.(scan := Some(Scan(k + 1, Or(mode, Mode(s.clients, s.active[k])))))
      else s
    case Store => if s.scan.Some? && s.scan.value.read >= |s.active| then Stored(s, s.scan.value.mode) else s
    case Disconnect(c) => Marked(s, c)
    case RemoveByClient(c) =>
      if c in s.removals && s.scan.None? then
        Begun(s.(active := Without(s.active, c), removals := s.removals - multiset{c}))
      else s
    case TakeOff(c) =>
      if c in s.active && s.scan.None? then s.(active := Without(s.active, c), evictions := s.evictions + multiset{c}) else s
    case DisconnectEvicted(c) =>
      if c in s.evictions then Marked(s.(evictions := s.evictions - multiset{c}), c) else s
  }

  function Run(s: State, steps: seq<Step>): State
    decreases |steps|
  {
    if steps == [] then s else Run(Apply(s, steps[0]), steps[1..])
  }

  // ----- facts about the or ----------------------------------------------------------

  /** A client whose mode is NONE does not matter: connecting needs no recompute. */
  lemma OrIgnoresNone(clients: map<int, Client>, active: seq<int>, c: int)
    requires Mode(clients, c) == 0
    ensures OrAll(clients, active + [c]) == OrAll(clients, active)
  {
    assert (active + [c])[..|active|] == active;
  }

  lemma {:induction false} OrSame(clients: map<int, Client>, clients': map<int, Client>, active: seq<int>)
    requires forall c :: c in active ==> Mode(clients', c) == Mode(clients, c)
    ensures OrAll(clients', active) == OrAll(clients, active)
  {
    hide Mode, Or;
    if active != [] {
      assert active[|active| - 1] in active;
      OrSame(clients, clients', active[..|active| - 1]);
    }
  }

  predicate Asks(mode: bv32, bits: bv32) {
    mode & bits != 0
  }

  lemma OrDistributes(x: bv32, y: bv32, bits: bv32)
    ensures (x | y) & bits == (x & bits) | (y & bits)
    ensures (x | y) & bits != 0 <==> x & bits != 0 || y & bits != 0
  {
  }

  lemma OrBit(x: bv32, y: bv32, bits: bv32)
    ensures Asks(Or(x, y), bits) <==> Asks(x, bits) || Asks(y, bits)
    ensures !Asks(0, bits)
  {
    OrDistributes(x, y, bits);
  }

  /** The or asks for one of some bits exactly when some active client does. */
  lemma {:induction false} OrAsks(clients: map<int, Client>, active: seq<int>, bits: bv32)
    ensures Asks(OrAll(clients, active), bits) <==> exists k :: 0 <= k < |active| && Asks(Mode(clients, active[k]), bits)
  {
    hide Mode, Or, Asks;
    OrBit(0, 0, bits);
    if active != [] {
      var rest, last := active[..|active| - 1], active[|active| - 1];
      OrAsks(clients, rest, bits);
      OrBit(OrAll(clients, rest), Mode(clients, last), bits);
      if Asks(OrAll(clients, rest), bits) {
        var k :| 0 <= k < |rest| && Asks(Mode(clients, rest[k]), bits);
        assert active[k] == rest[k];
      }
      if k :| 0 <= k < |active| && Asks(Mode(clients, active[k]), bits) {
        if k < |rest| {
          assert rest[k] == active[k];
        }
      }
    }
  }

  lemma {:induction false} WithoutExactly(active: seq<int>, c: int, x: int)
    ensures x in Without(active, c) <==> x in active && x != c
  {
    if active != [] {
      var rest := active[..|active| - 1];
      WithoutExactly(rest, c, x);
      assert active == rest + [active[|active| - 1]];
    }
  }

  // ----- the invariant ---------------------------------------------------------------

  /** Some thread is still going to store a recompute. */
  ghost predicate Owing(s: State) {
    || s.scan.Some?
    || s.recomputes > 0
    || s.removals != multiset{}
    || exists c :: c in s.evictions && c in s.clients && !s.clients[c].disconnected
  }

  ghost predicate Sound(s: State) {
    && s.cache == s.sent
    && (forall c :: c in s.active ==> c in s.clients)
    && (forall c :: c in s.evictions ==> c in s.clients)
    && (forall c :: c in s.active && s.clients[c].disconnected ==> c in s.removals)
  }

  /** What a recompute has read so far is still right, or somebody will recompute after it. */
  ghost predicate ScanRight(s: State) {
    s.scan.Some? ==>
      var Scan(k, mode) := s.scan.value;
      && k <= |s.active|
      && (mode == OrAll(s.clients, s.active[..k]) || s.recomputes > 0)
  }

  ghost predicate Inv(s: State) {
    && Sound(s) && ScanRight(s)
    && (s.cache == OrAll(s.clients, s.active) || Owing(s))
  }

  /** No operation is under way. */
  predicate Complete(s: State) {
    s.recomputes == 0 && s.removals == multiset{} && s.evictions == multiset{} && s.scan.None?
  }

  lemma InitInv()
    ensures Inv(START)
  {
  }

  lemma ConnectKeeps(s: State, c: int)
    requires Inv(s) && c !in s.clients && s.scan.None?
    ensures Inv(Apply(s, Connect(c)))
  {
    hide OrAll, Or, Without, Marked, Stored;
    var s' := Apply(s, Connect(c));
    OrSame(s.clients, s'.clients, s.active);
    OrIgnoresNone(s'.clients, s.active, c);
  }

  lemma BegunKeeps(s: State)
    requires Sound(s) && s.scan.None?
    ensures Inv(Begun(s))
  {
    hide Or, Without, Marked, Stored;
    assert s.active[..0] == [];
  }

  /** Reading one more client, or storing the or once all have been read. */
  lemma ScanKeeps(s: State, step: Step)
    requires Inv(s) && (step == ReadMode || step == Store)
    ensures Inv(Apply(s, step))
  {
    hide OrAll, Or, Mode, Without, Marked;
    if s.scan.Some? {
      var k := s.scan.value.read;
      if k < |s.active| {
        OrNext(s.clients, s.active, k);
      } else {
        assert s.active[..k] == s.active;
      }
    }
  }

  lemma OrNext(clients: map<int, Client>, active: seq<int>, k: nat)
    requires k < |active|
    ensures OrAll(clients, active[..k + 1]) == Or(OrAll(clients, active[..k]), Mode(clients, active[k]))
  {
    assert active[..k + 1][..k] == active[..k];
  }

  lemma SetModeKeeps(s: State, c: int, mode: bv32)
    requires Inv(s)
    ensures Inv(Apply(s, SetMode(c, mode)))
  {
    hide OrAll, Or, Without, Marked, Stored;
  }

  /** Whoever marks a client owes its removal. */
  lemma MarkOwes(s: State, c: int)
    requires Sound(s) && c in s.clients && !s.clients[c].disconnected
    ensures Sound(Marked(s, c)) && Marked(s, c).removals != multiset{}
  {
    assert c in s.removals + multiset{c};
  }

  /** Marking changes no mode. */
  lemma MarkReads(s: State, c: int)
    requires ScanRight(s)
    ensures ScanRight(Marked(s, c))
  {
    hide OrAll;
    if s.scan.Some? {
      OrSame(s.clients, Marked(s, c).clients, s.active[..s.scan.value.read]);
    }
  }

  lemma MarkKeeps(s: State, c: int)
    requires Sound(s) && ScanRight(s)
    requires s.cache == OrAll(s.clients, s.active) || Owing(s) || (c in s.clients && !s.clients[c].disconnected)
    ensures Inv(Marked(s, c))
  {
    hide OrAll, Sound, ScanRight;
    MarkReads(s, c);
    if c in s.clients && !s.clients[c].disconnected {
      MarkOwes(s, c);
    }
  }

  lemma RemoveKeeps(s: State, c: int)
    requires Inv(s) && c in s.removals && s.scan.None?
    ensures Inv(Apply(s, RemoveByClient(c)))
  {
    hide OrAll, Or, Marked, Begun;
    forall x
      ensures x in Without(s.active, c) <==> x in s.active && x != c
    {
      WithoutExactly(s.active, c, x);
    }
    BegunKeeps(s.(active := Without(s.active, c), removals := s.removals - multiset{c}));
  }

  lemma TakeOffKeeps(s: State, c: int)
    requires Inv(s) && c in s.active && s.scan.None?
    ensures Inv(Apply(s, TakeOff(c)))
  {
    hide OrAll, Or, Marked, Stored;
    forall x
      ensures x in Without(s.active, c) <==> x in s.active && x != c
    {
      WithoutExactly(s.active, c, x);
    }
  }

  lemma DisconnectEvictedKeeps(s: State, c: int)
    requires Inv(s) && c in s.evictions
    ensures Inv(Apply(s, DisconnectEvicted(c)))
  {
    hide OrAll, Or, Without, Stored, Marked;
    MarkKeeps(s.(evictions := s.evictions - multiset{c}), c);
  }

  lemma ApplyKeeps(s: State, step: Step)
    requires Inv(s)
    ensures Inv(Apply(s, step))
  {
    hide OrAll, Or, Without, Stored, Marked, Begun;
    match step
    case Connect(c) => if c !in s.clients && s.scan.None? { ConnectKeeps(s, c); }
    case SetMode(c, mode) => SetModeKeeps(s, c, mode);
    case Recompute => if s.recomputes > 0 && s.scan.None? { BegunKeeps(s.(recomputes := s.recomputes - 1)); }
    case Ask => if s.scan.None? { BegunKeeps(s); }
    case ReadMode => ScanKeeps(s, step);
    case Store => ScanKeeps(s, step);
    case Disconnect(c) => MarkKeeps(s, c);
    case RemoveByClient(c) => if c in s.removals && s.scan.None? { RemoveKeeps(s, c); }
    case TakeOff(c) => if c in s.active && s.scan.None? { TakeOffKeeps(s, c); }
    case DisconnectEvicted(c) => if c in s.evictions { DisconnectEvictedKeeps(s, c); }
  }

  lemma {:induction false} RunKeeps(s: State, steps: seq<Step>)
    requires Inv(s)
    ensures Inv(Run(s, steps))
    decreases |steps|
  {
    hide Inv, Apply;
    if steps != [] {
      ApplyKeeps(s, steps[0]);
      RunKeeps(Apply(s, steps[0]), steps[1..]);
    }
  }

  /** Undisturbed from here on, a recompute stores the or over all active clients. */
  lemma {:induction false} ScanAlone(s: State)
    requires s.scan.Some? && s.scan.value.read <= |s.active|
    requires s.scan.value.mode == OrAll(s.clients, s.active[..s.scan.value.read])
    ensures var n := |s.active| - s.scan.value.read;
      Run(s, seq(n, _ => ReadMode) + [Store]) == Stored(s, OrAll(s.clients, s.active))
    decreases |s.active| - s.scan.value.read
  {
    hide OrAll, Or, Mode;
    var k := s.scan.value.read;
    var n := |s.active| - k;
    var steps := seq(n, _ => ReadMode) + [Store];
    if n == 0 {
      assert steps == [Store] && s.active[..k] == s.active;
      assert Run(Apply(s, Store), []) == Apply(s, Store);
    } else {
      OrNext(s.clients, s.active, k);
      ScanAlone(Apply(s, ReadMode));
      assert steps[1..] == seq(n - 1, _ => ReadMode) + [Store];
    }
  }

  lemma StoreForgets(s: State, s': State)
    requires s == Begun(s')
    ensures forall mode :: Stored(s, mode) == Stored(s', mode)
  {
  }

  /** A caller's recompute that nobody disturbs: the caller's debt is paid and the cache is the or. */
  lemma RecomputeAlone(s: State)
    requires s.recomputes > 0 && s.scan.None?
    ensures Run(s, [Recompute] + (seq(|s.active|, _ => ReadMode) + [Store]))
         == Stored(s.(recomputes := s.recomputes - 1), OrAll(s.clients, s.active))
  {
    hide Or, Mode, Stored;
    var rest := seq(|s.active|, _ => ReadMode) + [Store];
    assert ([Recompute] + rest)[1..] == rest;
    assert s.active[..0] == [];
    var s' := Apply(s, Recompute);
    ScanAlone(s');
    StoreForgets(s', s.(recomputes := s.recomputes - 1));
  }

  /**
   * In every run the cache is what AppOps was told last, and whenever no operation is under way it
   * is the or over all active clients.
   */
  lemma CacheIsRight(steps: seq<Step>)
    ensures var s := Run(START, steps);
      s.cache == s.sent && (Complete(s) ==> s.cache == OrAll(s.clients, s.active))
  {
    hide OrAll, Run;
    InitInv();
    RunKeeps(START, steps);
  }

  // ----- what the clients have asked for, read off the run -----------------------------------

  /** Whether a client is on the list, and the mode it has set last. */
  datatype Seen = Seen(member: bool, mode: bv32)

  function SeesNext(s: State, step: Step, c: int, seen: Seen): Seen {
    match step
    case Connect(d) => if d == c && c !in s.clients && s.scan.None? then Seen(true, 0) else seen
    case SetMode(d, mode) => if d == c && c in s.clients then seen.(mode := mode) else seen
    case RemoveByClient(d) => if d == c && c in s.removals && s.scan.None? then seen.(member := false) else seen
    case TakeOff(d) => if d == c && s.scan.None? then seen.(member := false) else seen
    case _ => seen
  }

  function Sees(s: State, steps: seq<Step>, c: int, seen: Seen): Seen
    decreases |steps|
  {
    if steps == [] then seen else Sees(Apply(s, steps[0]), steps[1..], c, SeesNext(s, steps[0], c, seen))
  }

  predicate Matches(s: State, c: int, seen: Seen) {
    (c in s.active <==> seen.member) && (c in s.clients ==> s.clients[c].mode == seen.mode)
  }

  lemma StepLists(s: State, step: Step, c: int, seen: Seen)
    requires c in s.active <==> seen.member
    ensures c in Apply(s, step).active <==> SeesNext(s, step, c, seen).member
  {
    hide OrAll, Or, Without, Mode;
    match step
    case Connect(d) =>
    case SetMode(d, mode) =>
    case Recompute =>
    case Ask =>
    case ReadMode =>
    case Store =>
    case Disconnect(d) =>
    case RemoveByClient(d) => WithoutExactly(s.active, d, c);
    case TakeOff(d) => WithoutExactly(s.active, d, c);
    case DisconnectEvicted(d) =>
  }

  lemma StepSets(s: State, step: Step, c: int, seen: Seen)
    requires c in s.clients ==> s.clients[c].mode == seen.mode
    ensures c in Apply(s, step).clients ==> Apply(s, step).clients[c].mode == SeesNext(s, step, c, seen).mode
  {
    hide OrAll, Or, Without, Mode;
    match step
    case Connect(d) =>
    case SetMode(d, mode) =>
    case Recompute =>
    case Ask =>
    case ReadMode =>
    case Store =>
    case Disconnect(d) =>
    case RemoveByClient(d) =>
    case TakeOff(d) =>
    case DisconnectEvicted(d) =>
  }

  lemma StepMatches(s: State, step: Step, c: int, seen: Seen)
    requires Matches(s, c, seen)
    ensures Matches(Apply(s, step), c, SeesNext(s, step, c, seen))
  {
    hide Apply, SeesNext;
    StepLists(s, step, c, seen);
    StepSets(s, step, c, seen);
  }

  lemma {:induction false} RunMatches(s: State, steps: seq<Step>, c: int, seen: Seen)
    requires Matches(s, c, seen)
    ensures Matches(Run(s, steps), c, Sees(s, steps, c, seen))
    decreases |steps|
  {
    hide Apply, Matches, SeesNext;
    if steps != [] {
      StepMatches(s, steps[0], c, seen);
      RunMatches(Apply(s, steps[0]), steps[1..], c, SeesNext(s, steps[0], c, seen));
    }
  }

  /** A client on the list that has asked for one of the bits last. */
  predicate Wants(steps: seq<Step>, c: int, bits: bv32) {
    var seen := Sees(START, steps, c, Seen(false, 0));
    seen.member && Asks(seen.mode, bits)
  }

  /**
   * With no operation under way AppOps was told last to restrict exactly what the clients on the
   * list have asked for last.
   */
  lemma AsksExactly(steps: seq<Step>, bits: bv32)
    requires Complete(Run(START, steps))
    ensures Asks(Run(START, steps).sent, bits) <==> exists c :: Wants(steps, c, bits)
  {
    hide Run, Sees, Asks, Or, OrAll, Mode, ScanRight, Owing;
    InitInv();
    RunKeeps(START, steps);
    var s := Run(START, steps);
    AtRestOr(s);
    OrAsks(s.clients, s.active, bits);
    forall c
      ensures Wants(steps, c, bits) <==> c in s.active && Asks(Mode(s.clients, c), bits)
    {
      RunMatches(START, steps, c, Seen(false, 0));
      ModeOf(s.clients, c);
    }
    if Asks(s.sent, bits) {
      var k :| 0 <= k < |s.active| && Asks(Mode(s.clients, s.active[k]), bits);
      assert Wants(steps, s.active[k], bits);
    }
    if c :| Wants(steps, c, bits) {
      var k :| 0 <= k < |s.active| && s.active[k] == c;
    }
  }

  lemma AtRestOr(s: State)
    requires Inv(s) && Complete(s)
    ensures s.sent == OrAll(s.clients, s.active)
  {
    hide OrAll;
  }

  lemma ModeOf(clients: map<int, Client>, c: int)
    ensures c in clients ==> Mode(clients, c) == clients[c].mode
  {
  }

  // ----- operations that nothing gets in the way of -------------------------------------------

  function Recomputing(s: State): seq<Step> {
    seq(|s.active|, _ => ReadMode) + [Store]
  }

  lemma BegunAlone(s: State)
    requires s.scan.None?
    ensures Run(Begun(s), Recomputing(s)) == Stored(s, OrAll(s.clients, s.active))
  {
    hide Or, Mode, Stored;
    assert s.active[..0] == [];
    ScanAlone(Begun(s));
    StoreForgets(Begun(s), s);
  }

  lemma RunFirst(s: State, step: Step, rest: seq<Step>)
    ensures Run(s, [step] + rest) == Run(Apply(s, step), rest)
  {
    hide Apply;
    assert ([step] + rest)[1..] == rest;
  }

  lemma SetAlone(s: State, c: int, mode: bv32)
    requires Complete(s) && c in s.clients
    ensures var s' := s.(clients := s.clients[c := s.clients[c].(mode := mode)]);
      Run(s, [SetMode(c, mode)] + ([Recompute] + Recomputing(s))) == Stored(s', OrAll(s'.clients, s'.active))
  {
    hide Run, OrAll, Stored;
    var s' := s.(clients := s.clients[c := s.clients[c].(mode := mode)]);
    RunFirst(s, SetMode(c, mode), [Recompute] + Recomputing(s));
    RunFirst(s'.(recomputes := 1), Recompute, Recomputing(s));
    BegunAlone(s');
  }

  lemma RemoveAlone(s: State, c: int)
    requires c in s.clients && s.scan.None? && s.removals == multiset{c}
    ensures var s' := s.(active := Without(s.active, c), removals := multiset{});
      Run(s, [RemoveByClient(c)] + Recomputing(s')) == Stored(s', OrAll(s'.clients, s'.active))
  {
    hide Run, OrAll, Stored, Without;
    var s' := s.(active := Without(s.active, c), removals := multiset{});
    assert multiset{c} - multiset{c} == multiset{};
    RunFirst(s, RemoveByClient(c), Recomputing(s'));
    BegunAlone(s');
  }

  lemma DisconnectAlone(s: State, c: int)
    requires Complete(s) && c in s.clients && !s.clients[c].disconnected
    ensures var s' := s.(clients := s.clients[c := s.clients[c].(disconnected := true)], active := Without(s.active, c));
      Run(s, [Disconnect(c)] + ([RemoveByClient(c)] + Recomputing(s'))) == Stored(s', OrAll(s'.clients, s'.active))
  {
    hide Run, OrAll, Stored, Without;
    var s' := s.(clients := s.clients[c := s.clients[c].(disconnected := true)], active := Without(s.active, c));
    assert multiset{} + multiset{c} == multiset{c};
    RunFirst(s, Disconnect(c), [RemoveByClient(c)] + Recomputing(s'));
    RemoveAlone(s'.(active := s.active, removals := multiset{c}), c);
  }

  lemma UnplugAlone(s: State, c: int)
    requires Complete(s) && c in s.active && c in s.clients && !s.clients[c].disconnected
    requires Without(Without(s.active, c), c) == Without(s.active, c)
    ensures var s' := s.(clients := s.clients[c := s.clients[c].(disconnected := true)], active := Without(s.active, c));
      Run(s, [TakeOff(c)] + ([DisconnectEvicted(c)] + ([RemoveByClient(c)] + Recomputing(s'))))
      == Stored(s', OrAll(s'.clients, s'.active))
  {
    hide Run, OrAll, Stored, Without;
    var s' := s.(clients := s.clients[c := s.clients[c].(disconnected := true)], active := Without(s.active, c));
    var last := [RemoveByClient(c)] + Recomputing(s');
    assert multiset{} + multiset{c} == multiset{c} && multiset{c} - multiset{c} == multiset{};
    RunFirst(s, TakeOff(c), [DisconnectEvicted(c)] + last);
    RunFirst(s.(active := s'.active, evictions := multiset{c}), DisconnectEvicted(c), last);
    RemoveAlone(s'.(removals := multiset{c}), c);
  }
}

/** The operations of CameraService.cpp that touch the restriction, each run to its end. */
module Audio {
  import opened AudioModel
  import opened Wrappers

  class AudioRestriction {
    var clients: map<int, Client>
    var active: seq<int>
    var cache: bv32
    var sent: bv32

    ghost predicate Valid()
      reads this
    {
      && cache == sent && cache == OrAll(clients, active)
      && forall c :: c in active ==> c in clients && !clients[c].disconnected
    }

    /** The state of the machine with no operation under way. */
    ghost function AtRest(): State
      reads this
    {
      State(clients, active, cache, sent, 0, multiset{}, multiset{}, None)
    }

    constructor ()
      ensures Valid() && active == [] && cache == 0 && AtRest() == START
    {
      clients, active, cache, sent := map[], [], 0, 0;
    }

    /** Recomputes the or and tells AppOps if it has changed. */
    method UpdateAudioRestrictionLocked() returns (mode: bv32)
      requires cache == sent
      modifies `cache, `sent
      ensures mode == cache == sent == OrAll(clients, active)
    {
      hide Or, Mode;
      mode := 0;
      var k := 0;
      while k < |active|
        invariant 0 <= k <= |active|
        invariant mode == OrAll(clients, active[..k]) && cache == sent
      {
        assert active[..k + 1][..k] == active[..k];
        mode := OrModes(mode, active[k]);
        k := k + 1;
      }
      assert active[..k] == active;
      var modeChanged := cache != mode;
      cache := mode;
      if modeChanged {
        sent := mode;
      }
    }

    method OrModes(mode: bv32, c: int) returns (r: bv32)
      ensures r == Or(mode, Mode(clients, c))
    {
      var m := Mode(clients, c);
      r := mode | m;
    }

    /** Takes a client off the list, however often it is there, and recomputes. */
    method RemoveByClient(c: int)
      requires cache == sent
      modifies `active, `cache, `sent
      ensures active == Without(old(active), c)
      ensures cache == sent == OrAll(clients, active)
    {
      hide OrAll, Without;
      active := TakenOff(c);
      var mode := UpdateAudioRestrictionLocked();
    }

    /** A new client starts with no restriction, so nothing is recomputed. */
    method FinishConnectLocked(c: int)
      requires Valid() && c !in clients
      modifies `clients, `active
      ensures Valid() && active == old(active) + [c] && clients == old(clients)[c := Client(0, false)]
      ensures AtRest() == Apply(old(AtRest()), Connect(c))
    {
      hide OrAll;
      clients := clients[c := Client(0, false)];
      OrSame(old(clients), clients, active);
      OrIgnoresNone(clients, active, c);
      active := active + [c];
    }

    method SetAudioRestriction(c: int, mode: bv32)
      requires Valid() && c in clients
      modifies `clients, `cache, `sent
      ensures Valid() && clients == old(clients)[c := old(clients)[c].(mode := mode)]
      ensures AtRest() == Run(old(AtRest()), [SetMode(c, mode)] + ([Recompute] + Recomputing(AtRest())))
    {
      hide OrAll, Run;
      SetAlone(AtRest(), c, mode);
      clients := clients[c := clients[c].(mode := mode)];
      var m := UpdateAudioRestrictionLocked();
    }

    method Disconnect(c: int)
      requires Valid() && c in clients
      modifies this
      ensures Valid() && c in clients && clients[c].disconnected
      ensures old(clients[c].disconnected) ==> active == old(active) && clients == old(clients)
      ensures !old(clients[c].disconnected) ==> active == Without(old(active), c)
      ensures !old(clients[c].disconnected) ==>
        AtRest() == Run(old(AtRest()), [Step.Disconnect(c)] + ([Step.RemoveByClient(c)] + Recomputing(AtRest())))
    {
      hide OrAll, Without, Run;
      if clients[c].disconnected {
        return;
      }
      DisconnectAlone(AtRest(), c);
      clients := clients[c := clients[c].(disconnected := true)];
      RemoveByClient(c);
      LeftActive(old(active), c);
    }

    /** What unplugging does: off the list first, then the disconnect that recomputes. */
    method RemoveAndDisconnect(c: int)
      requires Valid() && c in active
      modifies this
      ensures Valid() && active == Without(old(active), c)
      ensures AtRest() == Run(old(AtRest()),
                              [TakeOff(c)] + ([DisconnectEvicted(c)] + ([Step.RemoveByClient(c)] + Recomputing(AtRest()))))
    {
      hide OrAll, Without, Run;
      WithoutTwice(active, c);
      UnplugAlone(AtRest(), c);
      active := TakenOff(c);
      clients := clients[c := clients[c].(disconnected := true)];
      RemoveByClient(c);
      LeftActive(old(active), c);
      LeftActive(Without(old(active), c), c);
      WithoutTwice(old(active), c);
    }

    method TakenOff(c: int) returns (rest: seq<int>)
      ensures rest == Without(active, c)
    {
      rest := [];
      var k := 0;
      while k < |active|
        invariant 0 <= k <= |active|
        invariant rest == Without(active[..k], c)
      {
        assert active[..k + 1][..k] == active[..k];
        if active[k] != c {
          rest := rest + [active[k]];
        }
        k := k + 1;
      }
      assert active[..k] == active;
    }
  }

  lemma LeftActive(active: seq<int>, c: int)
    ensures forall x :: x in Without(active, c) <==> x in active && x != c
  {
    forall x
      ensures x in Without(active, c) <==> x in active && x != c
    {
      WithoutExactly(active, c, x);
    }
  }

  lemma {:induction false} WithoutTwice(active: seq<int>, c: int)
    ensures Without(Without(active, c), c) == Without(active, c)
  {
    if active != [] {
      var rest := Without(active[..|active| - 1], c);
      WithoutTwice(active[..|active| - 1], c);
      assert (rest + [active[|active| - 1]])[..|rest|] == rest;
    }
  }
}
