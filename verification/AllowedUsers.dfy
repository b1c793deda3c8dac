/**
 * Who may hold a camera across user switches: connecting and doUserSwitch of CameraService.cpp
 * under mServiceLock, which both give up in the middle, and the connect condition, which they keep.
 * A run is any interleaving of the steps of any number of threads and of clients going away.
 */
module AllowedUsers {
  import opened Wrappers

  /** An ordinary client came in by binder from another process. */
  datatype Client = Client(user: int, ordinary: bool, disconnected: bool)

  /** Where a thread is; `left` are the clients a user switch has still to disconnect. */
  datatype Pc =
    | Idle
    | WaitConnect(user: int, ordinary: bool)
    | Validate(user: int, ordinary: bool)
    | Evict(user: int, ordinary: bool)
    | Relock(user: int, ordinary: bool)
    | Make(user: int, ordinary: bool)
    | Insert(c: nat)
    | BowOut
    | RelockBowed
    | WaitSwitch(users: seq<int>)
    | Check(users: seq<int>)
    | Collect
    | Evicting(left: set<nat>)
    | Removing(left: set<nat>, c: nat)
    | RelockSwitched
    | Leave

  datatype State = State(
    allowed: set<int>,        // mAllowedUsers
    clients: seq<Client>,     // every client ever made
    active: set<nat>,         // the active client list
    leaving: set<nat>,        // clients whose own disconnect has marked them and still owes the removal
    mutex: Option<nat>,       // the thread in mServiceLock
    condition: Option<nat>,   // the thread that keeps others from connecting
    threads: seq<Pc>)

  /** What a thread meets where the model leaves it open. */
  datatype Outcome = Goes | Fails | Bows

  datatype Action =
    | Connect(t: nat, user: int, ordinary: bool)
    | Switch(t: nat, users: seq<int>)
    | Step(t: nat, outcome: Outcome, pick: nat)
    | Mark(c: nat)
    | Remove(c: nat)
    | TakeOff(c: nat)

  function Init(n: nat, allowed: set<int>): State {
    State(allowed, [], {}, {}, None, None, seq(n, _ => Idle))
  }

  function Go(s: State, t: nat, pc: Pc): State
    requires t < |s.threads|
  {
    s.(threads := s.threads[t := pc])
  }

  function UserSet(users: seq<int>): set<int> {
    set u | u in users
  }

  /** The active clients whose user is not allowed. */
  function Unwelcome(s: State): set<nat> {
    set c | c in s.active && c < |s.clients| && s.clients[c].user !in s.allowed
  }

  /** waitAndAcquire: both the lock and the condition, or keep waiting; with a timeout, give up. */
  function Acquire(s: State, t: nat, next: Pc, outcome: Outcome): State
    requires t < |s.threads|
  {
    if outcome == Fails && s.threads[t].WaitConnect? then Go(s, t, Idle)
    else if s.mutex.None? && s.condition.None? then Go(s, t, next).(mutex := Some(t), condition := Some(t))
    else s
  }

  function Retake(s: State, t: nat, next: Pc): State
    requires t < |s.threads|
  {
    if s.mutex.None? then Go(s, t, next).(mutex := Some(t)) else s
  }

  /** The body of doUserSwitch's loop: a client that is marked already is left to whoever marked it. */
  function DisconnectNext(s: State, t: nat, left: set<nat>, pick: nat): State
    requires t < |s.threads|
  {
    if left == {} then Go(s, t, RelockSwitched)
    else if pick !in left || pick >= |s.clients| then s
    else if s.clients[pick].disconnected then Go(s, t, Evicting(left - {pick}))
    else Go(s, t, Removing(left - {pick}, pick)).(clients := s.clients[pick := s.clients[pick].(disconnected := true)])
  }

  predicate AnyNegative(users: seq<int>) {
    exists i :: 0 <= i < |users| && users[i] < 0
  }

  /** Checks the list of users and, when it names a new set, adopts it. */
  function CheckUsers(s: State, t: nat, users: seq<int>): State
    requires t < |s.threads|
  {
    if AnyNegative(users) then Go(s, t, Leave)
    else if UserSet(users) == s.allowed then Go(s, t, Leave)
    else Go(s, t, Collect).(allowed := UserSet(users))
  }

  function ThreadStep(s: State, t: nat, outcome: Outcome, pick: nat): State
    requires t < |s.threads|
  {
    match s.threads[t]
    case Idle => s
    case WaitConnect(user, ordinary) => Acquire(s, t, Validate(user, ordinary), outcome)
    case Validate(user, ordinary) =>
      if outcome == Fails || (ordinary && user !in s.allowed) then Go(s, t, Leave) else Go(s, t, Evict(user, ordinary))
    case Evict(user, ordinary) =>
      if outcome == Fails then Go(s, t, Leave) else Go(s, t, Relock(user, ordinary)).(mutex := None)
    case Relock(user, ordinary) => Retake(s, t, Make(user, ordinary))
    case Make(user, ordinary) =>
      if outcome == Fails then Go(s, t, Leave)
      else if outcome == Bows then Go(s, t, BowOut)
      else Go(s, t, Insert(|s.clients|)).(clients := s.clients + [Client(user, ordinary, false)])
    case Insert(c) => Go(s, t, Leave).(active := s.active + {c})
    case BowOut => Go(s, t, RelockBowed).(mutex := None)
    case RelockBowed => Retake(s, t, Leave)
    case WaitSwitch(users) => Acquire(s, t, Check(users), Goes)
    case Check(users) => CheckUsers(s, t, users)
    case Collect => Go(s, t, Evicting(Unwelcome(s))).(mutex := None)
    case Evicting(left) => DisconnectNext(s, t, left, pick)
    case Removing(left, c) =>
      if s.mutex.None? then Go(s, t, Evicting(left)).(active := s.active - {c}) else s
    case RelockSwitched => Retake(s, t, Leave)
    case Leave => Go(s, t, Idle).(mutex := None, condition := None)
  }

  function Apply(s: State, a: Action): State {
    match a
    case Connect(t, user, ordinary) =>
      if t < |s.threads| && s.threads[t].Idle? then Go(s, t, WaitConnect(user, ordinary)) else s
    case Switch(t, users) =>
      if t < |s.threads| && s.threads[t].Idle? then Go(s, t, WaitSwitch(users)) else s
    case Step(t, outcome, pick) => if t < |s.threads| then ThreadStep(s, t, outcome, pick) else s
    case Mark(c) =>
      // the first half of a client's disconnect, whoever calls it
      if c in s.active && c < |s.clients| && !s.clients[c].disconnected then
        s.(clients := s.clients[c := s.clients[c].(disconnected := true)], leaving := s.leaving + {c})
      else s
    case Remove(c) =>
      // its second half, removeByClient
      if s.mutex.None? && c in s.leaving then s.(active := s.active - {c}, leaving := s.leaving - {c}) else s
    case TakeOff(c) =>
      // unplugging and binder death take a client off the list before they disconnect it
      if s.mutex.None? then s.(active := s.active - {c}) else s
  }

  function Run(s: State, actions: seq<Action>): State
    decreases |actions|
  {
    if actions == [] then s else Run(Apply(s, actions[0]), actions[1..])
  }

  // ----- the invariant ----------------------------------------------------------------

  predicate HoldsMutex(pc: Pc) {
    pc.Validate? || pc.Evict? || pc.Make? || pc.Insert? || pc.BowOut? || pc.Check? || pc.Collect? || pc.Leave?
  }

  predicate HoldsCondition(pc: Pc) {
    !(pc.Idle? || pc.WaitConnect? || pc.WaitSwitch?)
  }

  /** Between adopting the new users and having disconnected everyone else. */
  predicate Switching(pc: Pc) {
    pc.Collect? || pc.Evicting? || pc.Removing?
  }

  ghost predicate Owned(s: State) {
    && (forall t: nat :: t < |s.threads| ==> (HoldsMutex(s.threads[t]) <==> s.mutex == Some(t)))
    && (forall t: nat :: t < |s.threads| ==> (HoldsCondition(s.threads[t]) <==> s.condition == Some(t)))
    && (s.mutex.Some? ==> s.mutex.value < |s.threads|)
    && (s.condition.Some? ==> s.condition.value < |s.threads|)
  }

  /** A client that may stay, or that is on its way out by itself. */
  predicate Welcome(clients: seq<Client>, allowed: set<int>, c: nat) {
    c < |clients| && (clients[c].ordinary ==> clients[c].user in allowed || clients[c].disconnected)
  }

  /** The thread that holds the condition is switching users and will get to c. */
  predicate Caught(threads: seq<Pc>, condition: Option<nat>, c: nat) {
    condition.Some? && condition.value < |threads| && Catches(threads[condition.value], c)
  }

  /** Every active client is welcome or about to be disconnected. */
  ghost predicate Covered(s: State) {
    forall c :: c in s.active ==> Welcome(s.clients, s.allowed, c) || Caught(s.threads, s.condition, c)
  }

  predicate Catches(pc: Pc, c: nat) {
    pc.Collect? || (pc.Evicting? && c in pc.left) || (pc.Removing? && c in pc.left)
  }

  /** What a connecting thread may rely on although it gives up the lock. */
  ghost predicate Admitted(s: State) {
    forall t: nat :: t < |s.threads| ==>
      match s.threads[t]
      case Evict(user, ordinary) => ordinary ==> user in s.allowed
      case Relock(user, ordinary) => ordinary ==> user in s.allowed
      case Make(user, ordinary) => ordinary ==> user in s.allowed
      case Insert(c) =>
        && c < |s.clients| && (s.clients[c].ordinary ==> s.clients[c].user in s.allowed)
        && !s.clients[c].disconnected && c !in s.active && c !in s.leaving
      case _ => true
  }

  /** A user switch goes only for clients whose user is not allowed. */
  ghost predicate Targeted(s: State) {
    forall t: nat :: t < |s.threads| ==>
      match s.threads[t]
      case Evicting(left) => forall c :: c in left ==> c < |s.clients| && s.clients[c].user !in s.allowed
      case Removing(left, x) =>
        && x < |s.clients| && s.clients[x].user !in s.allowed
        && forall c :: c in left ==> c < |s.clients| && s.clients[c].user !in s.allowed
      case _ => true
  }

  /** The thread that holds the condition is about to take c off the list. */
  predicate Removes(threads: seq<Pc>, condition: Option<nat>, c: nat) {
    condition.Some? && condition.value < |threads| && threads[condition.value].Removing? && threads[condition.value].c == c
  }

  /** Somebody owes the removal of every active client that is marked, and only of those. */
  ghost predicate Owed(s: State) {
    forall c :: c in s.active && c < |s.clients| ==>
      && (s.clients[c].disconnected ==> c in s.leaving || Removes(s.threads, s.condition, c))
      && (c in s.leaving ==> s.clients[c].disconnected)
  }

  ghost predicate Inv(s: State) {
    && Owned(s) && Covered(s) && Admitted(s) && Targeted(s) && Owed(s)
    && (forall c :: c in s.leaving ==> c < |s.clients|)
    && (forall c :: c in s.active ==> c < |s.clients|)
  }

  lemma InitInv(n: nat, allowed: set<int>)
    ensures Inv(Init(n, allowed))
  {
  }

  // ----- each step keeps it ---------------------------------------------------------------

  lemma EnterKeeps(s: State, t: nat, outcome: Outcome, pick: nat)
    requires Inv(s) && t < |s.threads| && (s.threads[t].WaitConnect? || s.threads[t].WaitSwitch?)
    ensures Inv(ThreadStep(s, t, outcome, pick))
  {
  }

  lemma CheckKeeps(s: State, t: nat, outcome: Outcome, pick: nat)
    requires Inv(s) && t < |s.threads| && s.threads[t].Check?
    ensures Inv(ThreadStep(s, t, outcome, pick))
  {
  }

  lemma PassKeeps(s: State, t: nat, outcome: Outcome, pick: nat)
    requires Inv(s) && t < |s.threads| && (s.threads[t].Validate? || s.threads[t].Evict? || s.threads[t].Relock?)
    ensures Inv(ThreadStep(s, t, outcome, pick))
  {
  }

  lemma MakeKeeps(s: State, t: nat, outcome: Outcome, pick: nat)
    requires Inv(s) && t < |s.threads| && s.threads[t].Make?
    ensures Inv(ThreadStep(s, t, outcome, pick))
  {
  }

  lemma InsertKeeps(s: State, t: nat, outcome: Outcome, pick: nat)
    requires Inv(s) && t < |s.threads| && s.threads[t].Insert?
    ensures Inv(ThreadStep(s, t, outcome, pick))
  {
  }

  lemma CollectKeeps(s: State, t: nat, outcome: Outcome, pick: nat)
    requires Inv(s) && t < |s.threads| && (s.threads[t].Collect? || s.threads[t].RelockSwitched?)
    ensures Inv(ThreadStep(s, t, outcome, pick))
  {
  }

  lemma DoneEvicting(s: State, t: nat)
    requires Inv(s) && t < |s.threads| && s.threads[t] == Evicting({})
    ensures Inv(Go(s, t, RelockSwitched))
  {
  }

  /** A client that is marked already is welcome to whoever marked it. */
  lemma PassesBy(s: State, t: nat, left: set<nat>, pick: nat)
    requires Inv(s) && t < |s.threads| && s.threads[t] == Evicting(left)
    requires pick in left && pick < |s.clients| && s.clients[pick].disconnected
    ensures Inv(Go(s, t, Evicting(left - {pick})))
  {
  }

  /** A switch that marks a client owes its removal. */
  lemma MarksNext(s: State, t: nat, left: set<nat>, pick: nat)
    requires Inv(s) && t < |s.threads| && s.threads[t] == Evicting(left)
    requires pick in left && pick < |s.clients| && !s.clients[pick].disconnected
    ensures Inv(DisconnectNext(s, t, left, pick))
  {
    MarkCovers(s, t, left, pick);
    MarkOwes(s, t, left, pick);
    hide Covered, Owed;
  }

  lemma MarkCovers(s: State, t: nat, left: set<nat>, pick: nat)
    requires Owned(s) && Covered(s) && t < |s.threads| && s.threads[t] == Evicting(left)
    requires pick in left && pick < |s.clients| && !s.clients[pick].disconnected
    ensures Covered(DisconnectNext(s, t, left, pick))
  {
  }

  lemma MarkOwes(s: State, t: nat, left: set<nat>, pick: nat)
    requires Owned(s) && Owed(s) && t < |s.threads| && s.threads[t] == Evicting(left)
    requires pick in left && pick < |s.clients| && !s.clients[pick].disconnected
    ensures Owed(DisconnectNext(s, t, left, pick))
  {
  }

  lemma EvictingKeeps(s: State, t: nat, outcome: Outcome, pick: nat)
    requires Inv(s) && t < |s.threads| && s.threads[t].Evicting?
    ensures Inv(ThreadStep(s, t, outcome, pick))
  {
    hide Inv, Go;
    var left := s.threads[t].left;
    if left == {} {
      DoneEvicting(s, t);
    } else if pick in left && pick < |s.clients| {
      if s.clients[pick].disconnected {
        PassesBy(s, t, left, pick);
      } else {
        MarksNext(s, t, left, pick);
      }
    }
  }

  lemma RemovingKeeps(s: State, t: nat, outcome: Outcome, pick: nat)
    requires Inv(s) && t < |s.threads| && s.threads[t].Removing?
    ensures Inv(ThreadStep(s, t, outcome, pick))
  {
  }

  lemma ExitKeeps(s: State, t: nat, outcome: Outcome, pick: nat)
    requires Inv(s) && t < |s.threads|
    requires s.threads[t].BowOut? || s.threads[t].RelockBowed? || s.threads[t].Leave?
    ensures Inv(ThreadStep(s, t, outcome, pick))
  {
  }

  lemma ThreadKeeps(s: State, t: nat, outcome: Outcome, pick: nat)
    requires Inv(s) && t < |s.threads|
    ensures Inv(ThreadStep(s, t, outcome, pick))
  {
    hide Inv, Go, Acquire, Retake, DisconnectNext, CheckUsers;
    match s.threads[t]
    case Idle =>
    case WaitConnect(_, _) => EnterKeeps(s, t, outcome, pick);
    case WaitSwitch(_) => EnterKeeps(s, t, outcome, pick);
    case Check(_) => CheckKeeps(s, t, outcome, pick);
    case BowOut => ExitKeeps(s, t, outcome, pick);
    case RelockBowed => ExitKeeps(s, t, outcome, pick);
    case Leave => ExitKeeps(s, t, outcome, pick);
    case Validate(_, _) => PassKeeps(s, t, outcome, pick);
    case Evict(_, _) => PassKeeps(s, t, outcome, pick);
    case Relock(_, _) => PassKeeps(s, t, outcome, pick);
    case Make(_, _) => MakeKeeps(s, t, outcome, pick);
    case Insert(_) => InsertKeeps(s, t, outcome, pick);
    case Collect => CollectKeeps(s, t, outcome, pick);
    case RelockSwitched => CollectKeeps(s, t, outcome, pick);
    case Evicting(_) => EvictingKeeps(s, t, outcome, pick);
    case Removing(_, _) => RemovingKeeps(s, t, outcome, pick);
  }

  lemma MarkKeeps(s: State, c: nat)
    requires Inv(s)
    ensures Inv(Apply(s, Mark(c)))
  {
    hide ThreadStep;
  }

  lemma RemoveKeeps(s: State, c: nat)
    requires Inv(s)
    ensures Inv(Apply(s, Remove(c)))
    ensures Inv(Apply(s, TakeOff(c)))
  {
    hide ThreadStep;
  }

  lemma CallKeeps(s: State, a: Action)
    requires Inv(s) && (a.Connect? || a.Switch?)
    ensures Inv(Apply(s, a))
  {
    hide ThreadStep;
  }

  lemma OthersKeep(s: State, a: Action)
    requires Inv(s) && !a.Step?
    ensures Inv(Apply(s, a))
  {
    hide Inv, Apply;
    match a
    case Mark(c) => MarkKeeps(s, c);
    case Remove(c) => RemoveKeeps(s, c);
    case TakeOff(c) => RemoveKeeps(s, c);
    case _ => CallKeeps(s, a);
  }

  lemma {:induction false} RunKeeps(s: State, actions: seq<Action>)
    requires Inv(s)
    ensures Inv(Run(s, actions))
    decreases |actions|
  {
    hide Inv, ThreadStep;
    if actions != [] {
      match actions[0] {
        case Step(t, outcome, pick) => if t < |s.threads| { ThreadKeeps(s, t, outcome, pick); }
        case _ => OthersKeep(s, actions[0]);
      }
      RunKeeps(Apply(s, actions[0]), actions[1..]);
    }
  }

  // ----- what holds in every run --------------------------------------------------------------

  predicate AnySwitching(s: State) {
    exists t: nat :: t < |s.threads| && Switching(s.threads[t])
  }

  /** Every active client that came in by ordinary binder from another process belongs to an allowed user. */
  ghost predicate AllAllowed(s: State) {
    forall c :: c in s.active ==> c < |s.clients| && (s.clients[c].ordinary ==> s.clients[c].user in s.allowed)
  }

  /**
   * In every reachable state outside a user switch, an active client that came in by ordinary
   * binder from another process belongs to an allowed user, unless a disconnect of its own has
   * begun and still owes its removal.
   */
  lemma UsersAllowed(n: nat, allowed: set<int>, actions: seq<Action>)
    ensures var s := Run(Init(n, allowed), actions);
      !AnySwitching(s) ==>
        forall c :: c in s.active ==>
          c < |s.clients| && (s.clients[c].ordinary ==> s.clients[c].user in s.allowed || c in s.leaving)
  {
    InitInv(n, allowed);
    RunKeeps(Init(n, allowed), actions);
    hide Run, Init, Inv;
    if !AnySwitching(Run(Init(n, allowed), actions)) {
      OnlyLeavers(Run(Init(n, allowed), actions));
    }
  }

  lemma OnlyLeavers(s: State)
    requires Inv(s) && !AnySwitching(s)
    ensures forall c :: c in s.active ==>
      c < |s.clients| && (s.clients[c].ordinary ==> s.clients[c].user in s.allowed || c in s.leaving)
  {
    hide Owned, Admitted, Targeted;
    if s.condition.Some? && s.condition.value < |s.threads| {
      assert !Switching(s.threads[s.condition.value]);
    }
  }

  /** So with no switch and no disconnect under way all of them belong to allowed users. */
  lemma UsersAllowedAtRest(n: nat, allowed: set<int>, actions: seq<Action>)
    ensures var s := Run(Init(n, allowed), actions);
      !AnySwitching(s) && s.leaving == {} ==> AllAllowed(s)
  {
    UsersAllowed(n, allowed, actions);
    hide Run, Init;
  }

  /** A client that lingers does so only until its disconnect goes on: the owed removals bring that about. */
  lemma {:induction false} LeaversGo(s: State) returns (removals: seq<Action>)
    requires Inv(s) && s.mutex.None? && !AnySwitching(s)
    ensures forall i :: 0 <= i < |removals| ==> removals[i].Remove?
    ensures var s' := Run(s, removals);
      s'.leaving == {} && s'.allowed == s.allowed && s'.threads == s.threads && AllAllowed(s')
    decreases s.leaving
  {
    if s.leaving == {} {
      removals := [];
      OnlyLeavers(s);
    } else {
      var c :| c in s.leaving;
      var s' := Apply(s, Remove(c));
      OthersKeep(s, Remove(c));
      var rest := LeaversGo(s');
      removals := [Remove(c)] + rest;
      assert removals[1..] == rest;
    }
    hide Inv;
  }

  /** A user switch leaves a client it has found to somebody else exactly when that client's own disconnect has begun. */
  lemma PassedByExactly(n: nat, allowed: set<int>, actions: seq<Action>, t: nat, outcome: Outcome, c: nat)
    requires var s := Run(Init(n, allowed), actions);
      t < |s.threads| && s.threads[t].Evicting? && c in s.threads[t].left && c in s.active
    ensures var s := Run(Init(n, allowed), actions);
      var s' := ThreadStep(s, t, outcome, c);
      && t < |s'.threads| && c in s'.active
      && (s'.threads[t].Evicting? <==> c in s.leaving)
      && (s'.threads[t].Removing? <==> c !in s.leaving)
      && (s'.threads[t].Evicting? || s'.threads[t].Removing? ==> c !in s'.threads[t].left)
  {
    InitInv(n, allowed);
    RunKeeps(Init(n, allowed), actions);
    hide Run, Init, Admitted, Covered;
  }

  /** Only one thread at a time is between its check and its insertion, or switching users. */
  lemma OneAtATime(n: nat, allowed: set<int>, actions: seq<Action>, t: nat, u: nat)
    requires var s := Run(Init(n, allowed), actions);
      t < |s.threads| && u < |s.threads| && HoldsCondition(s.threads[t]) && HoldsCondition(s.threads[u])
    ensures t == u
  {
    InitInv(n, allowed);
    RunKeeps(Init(n, allowed), actions);
    hide Run, Init, Admitted, Covered;
  }

  /** While a thread is in the lock nobody else changes the allowed users or the list, or takes the lock. */
  lemma LockKeepsOut(n: nat, allowed: set<int>, actions: seq<Action>, t: nat, a: Action)
    requires Run(Init(n, allowed), actions).mutex == Some(t) && !(a.Step? && a.t == t)
    ensures var s := Run(Init(n, allowed), actions);
      var s' := Apply(s, a);
      s'.mutex == Some(t) && s'.allowed == s.allowed && s'.active == s.active && |s'.clients| == |s.clients|
  {
    hide Run, Init, Inv, ThreadStep;
    InitInv(n, allowed);
    RunKeeps(Init(n, allowed), actions);
    if a.Step? && a.t < |Run(Init(n, allowed), actions).threads| {
      OthersWait(Run(Init(n, allowed), actions), t, a.t, a.outcome, a.pick);
    }
  }

  lemma OthersWait(s: State, t: nat, u: nat, outcome: Outcome, pick: nat)
    requires Inv(s) && s.mutex == Some(t) && u != t && u < |s.threads|
    ensures var s' := ThreadStep(s, u, outcome, pick);
      s'.mutex == Some(t) && s'.allowed == s.allowed && s'.active == s.active && |s'.clients| == |s.clients|
  {
    hide Covered, Admitted, Targeted, Owed;
    assert !HoldsMutex(s.threads[u]);
  }

  /** Unplugging and binder death take exactly their client off the list, once the lock is free. */
  lemma TakenOff(s: State, c: nat)
    requires s.mutex.None?
    ensures var s' := Apply(s, TakeOff(c));
      (forall x :: x in s'.active <==> x in s.active && x != c) && s'.clients == s.clients && s'.leaving == s.leaving
      && s'.allowed == s.allowed && s'.threads == s.threads
  {
  }

  /** A user switch neither disconnects nor removes a client whose user is allowed. */
  lemma SwitchSparesAllowed(n: nat, allowed: set<int>, actions: seq<Action>, t: nat, outcome: Outcome, pick: nat, c: nat)
    requires var s := Run(Init(n, allowed), actions);
      && t < |s.threads| && Switching(s.threads[t])
      && c in s.active && c < |s.clients| && s.clients[c].user in s.allowed
    ensures var s := Run(Init(n, allowed), actions);
      var s' := ThreadStep(s, t, outcome, pick);
      && c in s'.active && c < |s'.clients| && s'.clients[c] == s.clients[c] && s'.allowed == s.allowed
  {
    InitInv(n, allowed);
    RunKeeps(Init(n, allowed), actions);
    hide Run, Init, Admitted, Covered, Owned;
  }

  // ----- connecting gets through ----------------------------------------------------------------

  /** s with thread t at pc, holding the condition, and the lock if locked. */
  function At(s: State, t: nat, pc: Pc, locked: bool): State
    requires t < |s.threads|
  {
    Go(s, t, pc).(mutex := if locked then Some(t) else None, condition := Some(t))
  }

  function Steps(t: nat, k: nat): seq<Action> {
    seq(k, _ => Step(t, Goes, 0))
  }

  lemma RunStep(s: State, t: nat, k: nat)
    requires k > 0
    ensures Run(s, Steps(t, k)) == Run(Apply(s, Step(t, Goes, 0)), Steps(t, k - 1))
  {
    assert Steps(t, k)[1..] == Steps(t, k - 1);
    hide Apply;
  }

  lemma {:induction false} RunConcat(s: State, xs: seq<Action>, ys: seq<Action>)
    ensures Run(s, xs + ys) == Run(Run(s, xs), ys)
    decreases |xs|
  {
    hide Apply;
    if xs == [] {
      assert xs + ys == ys;
    } else {
      assert (xs + ys)[1..] == xs[1..] + ys;
      RunConcat(Apply(s, xs[0]), xs[1..], ys);
    }
  }

  lemma RunFirst(s: State, a: Action, rest: seq<Action>)
    ensures Run(s, [a] + rest) == Run(Apply(s, a), rest)
  {
    assert ([a] + rest)[1..] == rest;
    hide Apply;
  }

  lemma RunNone(s: State, t: nat)
    ensures Run(s, Steps(t, 0)) == s
  {
  }

  lemma Waits(s: State, t: nat, user: int, ordinary: bool)
    requires t < |s.threads| && s.threads[t] == Idle
    ensures Apply(s, Connect(t, user, ordinary)) == Go(s, t, WaitConnect(user, ordinary))
  {
  }

  lemma Enters(s: State, t: nat, user: int, ordinary: bool)
    requires t < |s.threads| && s.mutex.None? && s.condition.None? && (ordinary ==> user in s.allowed)
    ensures Apply(Go(s, t, WaitConnect(user, ordinary)), Step(t, Goes, 0)) == At(s, t, Validate(user, ordinary), true)
    ensures Apply(At(s, t, Validate(user, ordinary), true), Step(t, Goes, 0)) == At(s, t, Evict(user, ordinary), true)
    ensures Apply(At(s, t, Evict(user, ordinary), true), Step(t, Goes, 0)) == At(s, t, Relock(user, ordinary), false)
    ensures Apply(At(s, t, Relock(user, ordinary), false), Step(t, Goes, 0)) == At(s, t, Make(user, ordinary), true)
  {
  }

  lemma Inserts(s: State, t: nat, user: int, ordinary: bool)
    requires t < |s.threads| && s.threads[t] == Idle && s.mutex.None? && s.condition.None?
    ensures var c := |s.clients|;
      var s' := s.(clients := s.clients + [Client(user, ordinary, false)]);
      var s'' := s'.(active := s.active + {c});
      && Apply(At(s, t, Make(user, ordinary), true), Step(t, Goes, 0)) == At(s', t, Insert(c), true)
      && Apply(At(s', t, Insert(c), true), Step(t, Goes, 0)) == At(s'', t, Leave, true)
      && Apply(At(s'', t, Leave, true), Step(t, Goes, 0)) == s''
  {
    assert s.threads[t := Leave][t := Idle] == s.threads;
  }

  /** A connect that nothing gets in the way of adds the client, for every allowed user and for clients that are not ordinary. */
  lemma AllowedConnects(s: State, t: nat, user: int, ordinary: bool)
    requires t < |s.threads| && s.threads[t] == Idle && s.mutex.None? && s.condition.None?
    requires ordinary ==> user in s.allowed
    ensures Run(s, [Connect(t, user, ordinary)] + Steps(t, 7))
      == s.(clients := s.clients + [Client(user, ordinary, false)], active := s.active + {|s.clients|})
  {
    hide Apply, At, Go, Steps;
    var c := |s.clients|;
    var s' := s.(clients := s.clients + [Client(user, ordinary, false)]);
    var s'' := s'.(active := s.active + {c});
    RunFirst(s, Connect(t, user, ordinary), Steps(t, 7));
    Waits(s, t, user, ordinary);
    Enters(s, t, user, ordinary);
    Inserts(s, t, user, ordinary);
    RunStep(Go(s, t, WaitConnect(user, ordinary)), t, 7);
    RunStep(At(s, t, Validate(user, ordinary), true), t, 6);
    RunStep(At(s, t, Evict(user, ordinary), true), t, 5);
    RunStep(At(s, t, Relock(user, ordinary), false), t, 4);
    RunStep(At(s, t, Make(user, ordinary), true), t, 3);
    RunStep(At(s', t, Insert(c), true), t, 2);
    RunStep(At(s'', t, Leave, true), t, 1);
    RunNone(s'', t);
  }

  /** A connect for an ordinary user who is not allowed, with nobody in the way, is refused and changes nothing. */
  lemma OthersRefused(s: State, t: nat, user: int)
    requires t < |s.threads| && s.threads[t] == Idle && s.mutex.None? && s.condition.None? && user !in s.allowed
    ensures Run(s, [Connect(t, user, true)] + Steps(t, 3)) == s
  {
    hide Apply, At, Go, Steps;
    RunFirst(s, Connect(t, user, true), Steps(t, 3));
    Waits(s, t, user, true);
    Refused(s, t, user);
    RunStep(Go(s, t, WaitConnect(user, true)), t, 3);
    RunStep(At(s, t, Validate(user, true), true), t, 2);
    RunStep(At(s, t, Leave, true), t, 1);
    RunNone(s, t);
  }

  lemma Refused(s: State, t: nat, user: int)
    requires t < |s.threads| && s.threads[t] == Idle && s.mutex.None? && s.condition.None? && user !in s.allowed
    ensures Apply(Go(s, t, WaitConnect(user, true)), Step(t, Goes, 0)) == At(s, t, Validate(user, true), true)
    ensures Apply(At(s, t, Validate(user, true), true), Step(t, Goes, 0)) == At(s, t, Leave, true)
    ensures Apply(At(s, t, Leave, true), Step(t, Goes, 0)) == s
  {
    assert s.threads[t := Leave][t := Idle] == s.threads;
  }

  // ----- a switch from beginning to end ---------------------------------------------------

  /** The check adopts the listed users and no others, unless one of them is negative. */
  lemma CheckAdopts(s: State, t: nat, users: seq<int>)
    requires t < |s.threads|
    ensures var s' := CheckUsers(s, t, users);
      if exists u :: u in users && u < 0 then s' == Go(s, t, Leave)
      else
        && (forall u :: u in s'.allowed <==> u in users)
        && s' == (if s'.allowed == s.allowed then Go(s, t, Leave) else Go(s, t, Collect).(allowed := s'.allowed))
  {
    NegativeListed(users);
  }

  lemma NegativeListed(users: seq<int>)
    ensures AnyNegative(users) <==> exists u :: u in users && u < 0
  {
    if u :| u in users && u < 0 {
      var i :| 0 <= i < |users| && users[i] == u;
    }
    if i :| 0 <= i < |users| && users[i] < 0 {
      assert users[i] in users;
    }
  }

  /** A client a switch to these users has to disconnect: active, not marked yet, and its user not listed. */
  predicate Outgoing(s: State, users: seq<int>, c: nat) {
    c in s.active && c < |s.clients| && !s.clients[c].disconnected && s.clients[c].user !in users
  }

  function MarkAll(clients: seq<Client>, out: set<nat>): (marked: seq<Client>)
    ensures |marked| == |clients|
  {
    seq(|clients|, c requires 0 <= c < |clients| => clients[c].(disconnected := c in out || clients[c].disconnected))
  }

  function Unmarked(clients: seq<Client>, left: set<nat>): set<nat> {
    set c | c in left && c < |clients| && !clients[c].disconnected
  }

  predicate ByThread(steps: seq<Action>, t: nat) {
    forall i :: 0 <= i < |steps| ==> steps[i].Step? && steps[i].t == t
  }

  /** What the loop comes to when nobody gets in its way. */
  function Evicted(s: State, t: nat, left: set<nat>): State
    requires t < |s.threads|
  {
    var out := Unmarked(s.clients, left);
    Go(s, t, RelockSwitched).(clients := MarkAll(s.clients, out), active := s.active - out)
  }

  lemma NoneLeft(s: State, t: nat)
    requires t < |s.threads|
    ensures Evicted(s, t, {}) == Go(s, t, RelockSwitched)
  {
    assert MarkAll(s.clients, {}) == s.clients && s.active - {} == s.active;
  }

  /** One turn of the loop. */
  lemma EvictsOne(s: State, t: nat, left: set<nat>, c: nat) returns (s': State, turn: seq<Action>)
    requires t < |s.threads| && s.threads[t] == Evicting(left) && s.mutex.None? && c in left && c < |s.clients|
    ensures Run(s, turn) == s' && ByThread(turn, t)
    ensures |s'.threads| == |s.threads| && s'.threads[t] == Evicting(left - {c}) && s'.mutex.None? && |s'.clients| == |s.clients|
    ensures Evicted(s', t, left - {c}) == Evicted(s, t, left)
  {
    var out, out' := Unmarked(s.clients, left), Unmarked(s.clients, left - {c});
    if s.clients[c].disconnected {
      turn := [Step(t, Goes, c)];
      s' := Go(s, t, Evicting(left - {c}));
      assert out' == out;
      RunFirst(s, turn[0], []);
    } else {
      turn := [Step(t, Goes, c), Step(t, Goes, c)];
      s' := Go(s, t, Evicting(left - {c})).(clients := s.clients[c := s.clients[c].(disconnected := true)], active := s.active - {c});
      var between := Apply(s, turn[0]);
      assert between == Go(s, t, Removing(left - {c}, c)).(clients := s'.clients);
      assert Apply(between, turn[1]) == s';
      RunFirst(s, turn[0], [turn[1]]);
      RunFirst(between, turn[1], []);
      assert Unmarked(s'.clients, left - {c}) == out' && out == out' + {c};
      assert MarkAll(s'.clients, out') == MarkAll(s.clients, out);
      assert s.active - {c} - out' == s.active - out;
      assert turn == [turn[0]] + [turn[1]] && [turn[1]] + [] == [turn[1]];
    }
    assert [turn[0]] + [] == [turn[0]];
  }

  lemma {:induction false} EvictsAll(s: State, t: nat, left: set<nat>) returns (steps: seq<Action>)
    requires t < |s.threads| && s.threads[t] == Evicting(left) && s.mutex.None?
    requires forall c :: c in left ==> c < |s.clients|
    ensures Run(s, steps) == Evicted(s, t, left) && ByThread(steps, t)
    decreases left
  {
    hide Run, Apply, Evicted;
    if left == {} {
      steps := [Step(t, Goes, 0)];
      LoopEnds(s, t);
      NoneLeft(s, t);
    } else {
      var c :| c in left;
      var s', turn := EvictsOne(s, t, left, c);
      var rest := EvictsAll(s', t, left - {c});
      RunConcat(s, turn, rest);
      steps := turn + rest;
    }
  }

  lemma LoopEnds(s: State, t: nat)
    requires t < |s.threads| && s.threads[t] == Evicting({})
    ensures Run(s, [Step(t, Goes, 0)]) == Go(s, t, RelockSwitched)
  {
    assert Apply(s, Step(t, Goes, 0)) == Go(s, t, RelockSwitched);
    hide Apply, Go;
    assert [Step(t, Goes, 0)][1..] == [];
    assert Run(Apply(s, Step(t, Goes, 0)), []) == Apply(s, Step(t, Goes, 0));
  }

  /** The state a switch that nothing gets in the way of ends in. */
  ghost predicate Switched(s: State, users: seq<int>, s': State) {
    && (forall u :: u in s'.allowed <==> u in users)
    && s'.threads == s.threads && s'.mutex == s.mutex && s'.condition == s.condition && s'.leaving == s.leaving
    && (forall c :: c in s'.active <==> c in s.active && !Outgoing(s, users, c))
    && |s'.clients| == |s.clients|
    && forall c :: 0 <= c < |s.clients| ==>
         s'.clients[c] == s.clients[c].(disconnected := Outgoing(s, users, c) || s.clients[c].disconnected)
  }

  /**
   * A switch to other users that nothing gets in the way of allows exactly the listed users, marks
   * and removes every unmarked client of anybody else, and leaves all other clients and the lock
   * and condition as they were.
   */
  lemma SwitchGoesThrough(s: State, t: nat, users: seq<int>) returns (steps: seq<Action>)
    requires t < |s.threads| && s.threads[t] == Idle && s.mutex.None? && s.condition.None?
    requires forall c :: c in s.active ==> c < |s.clients|
    requires !AnyNegative(users) && exists u :: u in s.allowed <==> u !in users
    ensures ByThread(steps, t) && Switched(s, users, Run(s, [Switch(t, users)] + steps))
  {
    hide Run, Evicted, MarkAll, Unmarked;
    var waiting, checking := Go(s, t, WaitSwitch(users)), At(s, t, Check(users), true);
    var adopted := s.(allowed := UserSet(users));
    var left := Unwelcome(adopted);
    var collecting, evicting := At(adopted, t, Collect, true), At(adopted, t, Evicting(left), false);
    SwitchBeginning(s, t, users);
    var loop := EvictsAll(evicting, t, left);
    var evicted := Evicted(evicting, t, left);
    var first, last := Steps(t, 3), Steps(t, 2);
    RunFirst(s, Switch(t, users), first + (loop + last));
    RunConcat(waiting, first, loop + last);
    RunConcat(evicting, loop, last);
    SwitchEnding(adopted, t, left);
    SwitchedAtLast(s, t, users);
    steps := first + (loop + last);
  }

  lemma SwitchBeginning(s: State, t: nat, users: seq<int>)
    requires t < |s.threads| && s.threads[t] == Idle && s.mutex.None? && s.condition.None?
    requires !AnyNegative(users) && exists u :: u in s.allowed <==> u !in users
    ensures var adopted := s.(allowed := UserSet(users));
      Apply(s, Switch(t, users)) == Go(s, t, WaitSwitch(users))
      && Run(Go(s, t, WaitSwitch(users)), Steps(t, 3)) == At(adopted, t, Evicting(Unwelcome(adopted)), false)
  {
    hide Run;
    var adopted := s.(allowed := UserSet(users));
    var waiting := Go(s, t, WaitSwitch(users));
    var checking, collecting := At(s, t, Check(users), true), At(adopted, t, Collect, true);
    RunStep(waiting, t, 3);
    assert Apply(waiting, Step(t, Goes, 0)) == checking;
    RunStep(checking, t, 2);
    assert Apply(checking, Step(t, Goes, 0)) == collecting;
    RunStep(collecting, t, 1);
    assert Apply(collecting, Step(t, Goes, 0)) == At(adopted, t, Evicting(Unwelcome(adopted)), false);
    RunNone(At(adopted, t, Evicting(Unwelcome(adopted)), false), t);
  }

  lemma SwitchEnding(s: State, t: nat, left: set<nat>)
    requires t < |s.threads| && s.threads[t] == Idle && s.mutex.None? && s.condition.None?
    ensures Run(Evicted(At(s, t, Evicting(left), false), t, left), Steps(t, 2))
         == s.(clients := MarkAll(s.clients, Unmarked(s.clients, left)), active := s.active - Unmarked(s.clients, left))
  {
    hide Run, MarkAll, Unmarked;
    var done := s.(clients := MarkAll(s.clients, Unmarked(s.clients, left)), active := s.active - Unmarked(s.clients, left));
    var evicted := Evicted(At(s, t, Evicting(left), false), t, left);
    RunStep(evicted, t, 2);
    assert Apply(evicted, Step(t, Goes, 0)) == At(done, t, Leave, true);
    RunStep(At(done, t, Leave, true), t, 1);
    assert s.threads[t := Leave][t := Idle] == s.threads;
    RunNone(done, t);
  }

  lemma SwitchedAtLast(s: State, t: nat, users: seq<int>)
    requires forall c :: c in s.active ==> c < |s.clients|
    ensures var adopted := s.(allowed := UserSet(users));
      var out := Unmarked(s.clients, Unwelcome(adopted));
      Switched(s, users, adopted.(clients := MarkAll(s.clients, out), active := s.active - out))
  {
    var adopted := s.(allowed := UserSet(users));
    var out := Unmarked(s.clients, Unwelcome(adopted));
    assert forall c :: c in out <==> Outgoing(s, users, c);
  }

  lemma SameUsers(allowed: set<int>, users: seq<int>)
    requires forall u :: u in allowed <==> u in users
    ensures UserSet(users) == allowed
  {
    assert forall u :: u in UserSet(users) <==> u in allowed;
  }

  /** A list with a negative id, or with the users who are allowed already, changes nothing. */
  lemma SwitchIgnored(s: State, t: nat, users: seq<int>)
    requires t < |s.threads| && s.threads[t] == Idle && s.mutex.None? && s.condition.None?
    requires AnyNegative(users) || forall u :: u in s.allowed <==> u in users
    ensures Run(s, [Switch(t, users)] + Steps(t, 3)) == s
  {
    hide Apply, At, Go, Steps, AnyNegative;
    if !AnyNegative(users) {
      SameUsers(s.allowed, users);
    }
    Ignored(s, t, users);
    RunFirst(s, Switch(t, users), Steps(t, 3));
    RunStep(Go(s, t, WaitSwitch(users)), t, 3);
    RunStep(At(s, t, Check(users), true), t, 2);
    RunStep(At(s, t, Leave, true), t, 1);
    RunNone(s, t);
  }

  lemma Ignored(s: State, t: nat, users: seq<int>)
    requires t < |s.threads| && s.threads[t] == Idle && s.mutex.None? && s.condition.None?
    requires AnyNegative(users) || UserSet(users) == s.allowed
    ensures Apply(s, Switch(t, users)) == Go(s, t, WaitSwitch(users))
    ensures Apply(Go(s, t, WaitSwitch(users)), Step(t, Goes, 0)) == At(s, t, Check(users), true)
    ensures Apply(At(s, t, Check(users), true), Step(t, Goes, 0)) == At(s, t, Leave, true)
    ensures Apply(At(s, t, Leave, true), Step(t, Goes, 0)) == s
  {
    hide AnyNegative, UserSet;
    assert s.threads[t := Leave][t := Idle] == s.threads;
  }

  // ----- the client that lingers -------------------------------------------------------------

  /** One thread, and one client of user 0. */
  function Alone(allowed: set<int>, marked: bool, locked: bool, condition: bool, pc: Pc): State {
    State(allowed, [Client(0, true, marked)], {0}, if marked then {0} else {},
          if locked then Some(0) else None, if condition then Some(0) else None, [pc])
  }

  /** User 0 connects; its client begins to disconnect; then the device switches to user 10. */
  const LINGERING: seq<Action> := [Connect(0, 0, true)] + Steps(0, 7) + ([Mark(0), Switch(0, [10])] + Steps(0, 7))

  lemma SwitchBegins()
    ensures Apply(Alone({0}, false, false, false, Idle), Mark(0)) == Alone({0}, true, false, false, Idle)
    ensures Apply(Alone({0}, true, false, false, Idle), Switch(0, [10])) == Alone({0}, true, false, false, WaitSwitch([10]))
    ensures Apply(Alone({0}, true, false, false, WaitSwitch([10])), Step(0, Goes, 0)) == Alone({0}, true, true, true, Check([10]))
    ensures Apply(Alone({0}, true, true, true, Check([10])), Step(0, Goes, 0)) == Alone({10}, true, true, true, Collect)
  {
    assert UserSet([10]) == {10};
    assert 0 in {0} && 0 !in {10};
    assert {} + {0} == {0};
  }

  lemma SwitchEvicts()
    ensures Apply(Alone({10}, true, true, true, Collect), Step(0, Goes, 0)) == Alone({10}, true, false, true, Evicting({0}))
    ensures Apply(Alone({10}, true, false, true, Evicting({0})), Step(0, Goes, 0)) == Alone({10}, true, false, true, Evicting({}))
    ensures Apply(Alone({10}, true, false, true, Evicting({})), Step(0, Goes, 0)) == Alone({10}, true, false, true, RelockSwitched)
    ensures Apply(Alone({10}, true, false, true, RelockSwitched), Step(0, Goes, 0)) == Alone({10}, true, true, true, Leave)
    ensures Apply(Alone({10}, true, true, true, Leave), Step(0, Goes, 0)) == Alone({10}, true, false, false, Idle)
  {
    assert Unwelcome(Alone({10}, true, true, true, Collect)) == {0};
    assert {0} - {0} == {};
  }

  /** A user switch that finds the client marked and passes it by. */
  lemma SwitchesAlone()
    ensures Run(Alone({0}, false, false, false, Idle), [Mark(0), Switch(0, [10])] + Steps(0, 7))
      == Alone({10}, true, false, false, Idle)
  {
    hide Apply, Alone;
    SwitchBegins();
    SwitchEvicts();
    RunConcat(Alone({0}, false, false, false, Idle), [Mark(0), Switch(0, [10])], Steps(0, 7));
    assert [Mark(0), Switch(0, [10])][1..] == [Switch(0, [10])] && [Switch(0, [10])][1..] == [];
    RunStep(Alone({0}, true, false, false, WaitSwitch([10])), 0, 7);
    RunStep(Alone({0}, true, true, true, Check([10])), 0, 6);
    RunStep(Alone({10}, true, true, true, Collect), 0, 5);
    RunStep(Alone({10}, true, false, true, Evicting({0})), 0, 4);
    RunStep(Alone({10}, true, false, true, Evicting({})), 0, 3);
    RunStep(Alone({10}, true, false, true, RelockSwitched), 0, 2);
    RunStep(Alone({10}, true, true, true, Leave), 0, 1);
    assert Run(Alone({10}, true, false, false, Idle), Steps(0, 0)) == Alone({10}, true, false, false, Idle);
  }

  /** The switch to user 10 is over, and user 0's client is still active. */
  lemma ClientLingers()
    ensures var s := Run(Init(1, {0}), LINGERING);
      !AnySwitching(s) && s.allowed == {10} && s.active == {0} && s.clients == [Client(0, true, true)] && s.leaving == {0}
  {
    var empty := Init(1, {0});
    AllowedConnects(empty, 0, 0, true);
    SwitchesAlone();
    assert Run(empty, [Connect(0, 0, true)] + Steps(0, 7)) == Alone({0}, false, false, false, Idle) by {
      assert [] + [Client(0, true, false)] == [Client(0, true, false)] && {} + {0} == {0};
      hide Run;
    }
    RunConcat(empty, [Connect(0, 0, true)] + Steps(0, 7), [Mark(0), Switch(0, [10])] + Steps(0, 7));
    hide Run, Steps;
  }
}
