/**
 * Reports by the HAL as CameraService.cpp works them off, several critical sections each, while
 * clients, torch reports, setTorchMode and reports on other cameras come in between any two steps.
 * Reports on one camera do not overlap.
 */
module CameraReports {
  import opened CameraModel
  import opened CameraStates
  import opened Wrappers

  /** What a report on one camera does next, in onDeviceStatusChanged. */
  datatype Pc =
    | Resting
    | Adding
    | AddingTorch
    | Raising
    | Changing(status: Status)
    | Dropping
    | Setting(state: nat, status: Status, removal: bool)
    | Unlighting
    | Erasing

  datatype Service = Service(book: Book, reports: map<Id, Pc>)

  datatype Event =
    | Report(id: Id, status: Status)
    | Proceed(id: Id)
    | Decline(id: Id)
    | Client(state: nat, status: Status, rejected: set<Status>)
    | Light(id: Id, torch: Torch)
    | Ask(id: Id, uid: int)

  const START := Service(EMPTY, map[])

  function PcOf(s: Service, id: Id): Pc {
    if id in s.reports then s.reports[id] else Resting
  }

  /** How a report begins: what it reads decides what it will do. */
  function Begin(b: Book, id: Id, status: Status): Pc {
    if id !in b.states then (if status == Present then Adding else Resting)
    else if StatusOf(b, id) == status then Resting
    else if status == NotPresent then Dropping
    else Changing(status)
  }

  /** updateStatus looks the current object up, and makes the change to it in a later step. */
  function Look(b: Book, id: Id, status: Status, removal: bool): Pc {
    if id in b.states then Setting(b.states[id], status, removal) else Behind(removal)
  }

  function Behind(removal: bool): Pc {
    if removal then Unlighting else Resting
  }

  /** What the next step of the report on camera id does; flash are the cameras with a flash unit. */
  function Work(b: Book, pc: Pc, id: Id, flash: set<Id>): Option<Step> {
    match pc
    case Resting => None
    case Adding => Some(Add(id))
    case AddingTorch => if id in flash then Some(AddTorch(id)) else None
    case Raising => None
    case Changing(_) => None
    case Dropping => None
    case Setting(k, status, _) => Some(Commit(k, status, {}))
    case Unlighting => if id in flash then Some(RemoveTorch(id)) else None
    case Erasing => Some(Erase(id))
  }

  function After(b: Book, pc: Pc, id: Id): Pc {
    match pc
    case Adding => AddingTorch
    case AddingTorch => Raising
    case Raising => Look(b, id, Present, false)
    case Changing(status) => Look(b, id, status, false)
    case Dropping => Look(b, id, NotPresent, true)
    case Setting(_, _, removal) => Behind(removal)
    case Unlighting => Erasing
    case _ => Resting
  }

  function Do(b: Book, step: Option<Step>): Book {
    if step.Some? then Apply(b, step.value) else b
  }

  function Next(s: Service, flash: set<Id>, e: Event): Service {
    match e
    case Report(id, status) =>
      if PcOf(s, id) == Resting then s.(reports := s.reports[id := Begin(s.book, id, status)]) else s
    case Proceed(id) =>
      Service(Do(s.book, Work(s.book, PcOf(s, id), id, flash)), s.reports[id := After(s.book, PcOf(s, id), id)])
    case Decline(id) =>
      // addStates gives up before it has added anything, and the report goes on
      if PcOf(s, id) == Adding then s.(reports := s.reports[id := Raising]) else s
    case Client(k, status, rejected) =>
      if ByClient(Commit(k, status, rejected)) then s.(book := Apply(s.book, Commit(k, status, rejected))) else s
    case Light(id, torch) => s.(book := Apply(s.book, TorchCallback(id, torch)))
    case Ask(id, uid) => s.(book := Apply(s.book, SetUid(id, uid)))
  }

  function RunAll(s: Service, flash: set<Id>, events: seq<Event>): Service
    decreases |events|
  {
    if events == [] then s else RunAll(Next(s, flash, events[0]), flash, events[1..])
  }

  // ----- what the listener is told ------------------------------------------------------

  /** What a report relies on between its steps. */
  ghost predicate Agrees(b: Book, pc: Pc, id: Id) {
    match pc
    case Resting => true
    case Adding => id !in b.states
    case AddingTorch => id in b.states
    case Raising => true
    case Changing(status) => id in b.states && status != NotPresent
    case Dropping => id in b.states && StatusOf(b, id) != NotPresent
    case Setting(k, status, removal) =>
      && id in b.states && b.states[id] == k
      && (status == NotPresent <==> removal) && (removal ==> StatusOf(b, id) != NotPresent)
    case Unlighting => id in b.states && StatusOf(b, id) == NotPresent
    case Erasing => id in b.states && StatusOf(b, id) == NotPresent
  }

  ghost predicate Steady(s: Service) {
    Mirror(s.book) && forall id :: Agrees(s.book, PcOf(s, id), id)
  }

  /** A step about one camera leaves the others filed as they were. */
  lemma FiledElsewhere(b: Book, step: Step, id: Id)
    requires Filed(b) && Subject(b, step) != id
    ensures var b' := Apply(b, step);
      && (id in b'.states <==> id in b.states) && (id in b.states ==> b'.states[id] == b.states[id])
      && StatusOf(b', id) == StatusOf(b, id)
  {
    hide ChangeTorch;
    match step
    case TorchCallback(x, torch) => ChangeTorchApart(b, x, torch);
    case Commit(k, status, _) =>
      if k < |b.objects| {
        TorchApart(b, b.objects[k].id, status);
      }
    case _ =>
  }

  /** What a client commits neither brings a camera up nor takes it down. */
  lemma ClientLeaves(b: Book, step: Step, id: Id)
    requires Mirror(b) && ByClient(step)
    ensures var b' := Apply(b, step);
      b'.states == b.states && (StatusOf(b', id) == NotPresent <==> StatusOf(b, id) == NotPresent)
  {
    hide ChangeTorch, Mirrors;
    if step.state < |b.objects| {
      TorchApart(b, b.objects[step.state].id, step.status);
    }
  }

  lemma WorkOrderly(b: Book, pc: Pc, id: Id, flash: set<Id>)
    requires Mirror(b) && Agrees(b, pc, id) && Work(b, pc, id, flash).Some?
    ensures var step := Work(b, pc, id, flash).value; Orderly(b, step) && Subject(b, step) == id
  {
    hide Mirrors;
  }

  lemma WorkAgrees(b: Book, pc: Pc, id: Id, flash: set<Id>)
    requires Mirror(b) && Agrees(b, pc, id)
    ensures Agrees(Do(b, Work(b, pc, id, flash)), After(b, pc, id), id)
  {
    hide ChangeTorch, Mirrors;
    if pc.Setting? {
      TorchApart(b, id, pc.status);
    }
  }

  lemma ProceedSteady(s: Service, flash: set<Id>, id: Id)
    requires Steady(s)
    ensures Steady(Next(s, flash, Proceed(id)))
  {
    hide Apply, Mirror, Subject, Orderly, Work;
    var pc := PcOf(s, id);
    var step := Work(s.book, pc, id, flash);
    var s' := Next(s, flash, Proceed(id));
    WorkAgrees(s.book, pc, id, flash);
    if step.Some? {
      WorkOrderly(s.book, pc, id, flash);
      OrderlyMirrors(s.book, step.value);
    }
    forall x
      ensures Agrees(s'.book, PcOf(s', x), x)
    {
      assert Agrees(s.book, PcOf(s, x), x);
      if x != id && step.Some? {
        MirrorFiled(s.book);
        FiledElsewhere(s.book, step.value, x);
      }
    }
  }

  lemma MirrorFiled(b: Book)
    requires Mirror(b)
    ensures Filed(b)
  {
  }

  lemma ReportSteady(s: Service, flash: set<Id>, id: Id, status: Status)
    requires Steady(s)
    ensures Steady(Next(s, flash, Report(id, status)))
  {
    hide Mirror;
    var s' := Next(s, flash, Report(id, status));
    forall x
      ensures Agrees(s'.book, PcOf(s', x), x)
    {
      assert Agrees(s.book, PcOf(s, x), x);
    }
  }

  lemma DeclineSteady(s: Service, flash: set<Id>, id: Id)
    requires Steady(s)
    ensures Steady(Next(s, flash, Decline(id)))
  {
    hide Mirror;
    var s' := Next(s, flash, Decline(id));
    forall x
      ensures Agrees(s'.book, PcOf(s', x), x)
    {
      assert Agrees(s.book, PcOf(s, x), x);
    }
  }

  /** A step that leaves every camera filed and as absent or present as it was. */
  lemma OtherSteady(s: Service, step: Step)
    requires Steady(s) && (ByClient(step) || step.TorchCallback? || step.SetUid?)
    ensures Steady(s.(book := Apply(s.book, step)))
  {
    hide Apply, Mirror, Orderly, ByClient;
    OthersOrderly(s.book, step);
    OrderlyMirrors(s.book, step);
    var s' := s.(book := Apply(s.book, step));
    forall x
      ensures Agrees(s'.book, PcOf(s', x), x)
    {
      assert Agrees(s.book, PcOf(s, x), x);
      if ByClient(step) {
        ClientLeaves(s.book, step, x);
      } else {
        TorchLeaves(s.book, step, x);
      }
    }
  }

  lemma OthersOrderly(b: Book, step: Step)
    requires Mirror(b) && (ByClient(step) || step.TorchCallback? || step.SetUid?)
    ensures Orderly(b, step)
  {
    hide Mirrors;
  }

  lemma TorchLeaves(b: Book, step: Step, id: Id)
    requires step.TorchCallback? || step.SetUid?
    ensures var b' := Apply(b, step); b'.states == b.states && StatusOf(b', id) == StatusOf(b, id)
  {
    hide ChangeTorch;
    if step.TorchCallback? {
      ChangeTorchApart(b, step.id, step.torch);
    }
  }

  lemma NextSteady(s: Service, flash: set<Id>, e: Event)
    requires Steady(s)
    ensures Steady(Next(s, flash, e))
  {
    hide Steady, Apply, Work;
    match e
    case Report(id, status) => ReportSteady(s, flash, id, status);
    case Proceed(id) => ProceedSteady(s, flash, id);
    case Decline(id) => DeclineSteady(s, flash, id);
    case Client(k, status, rejected) =>
      if ByClient(Commit(k, status, rejected)) {
        OtherSteady(s, Commit(k, status, rejected));
      }
    case Light(id, torch) => OtherSteady(s, TorchCallback(id, torch));
    case Ask(id, uid) => OtherSteady(s, SetUid(id, uid));
  }

  lemma {:induction false} RunSteady(s: Service, flash: set<Id>, events: seq<Event>)
    requires Steady(s)
    ensures Steady(RunAll(s, flash, events))
    decreases |events|
  {
    hide Steady, Next;
    if events == [] {
      assert RunAll(s, flash, events) == s;
    } else {
      NextSteady(s, flash, events[0]);
      RunSteady(Next(s, flash, events[0]), flash, events[1..]);
    }
  }

  lemma StartSteady()
    ensures Steady(START)
  {
    EmptyMirrors();
  }

  /**
   * In every run in which reports on one camera do not overlap, and at each of its moments, the last
   * status the listener was told of a camera is the camera's status, no status was told twice in a
   * row, and NOT_PRESENT was followed only by PRESENT or ENUMERATING.
   */
  lemma MirrorAlways(flash: set<Id>, events: seq<Event>, id: Id)
    ensures var b := RunAll(START, flash, events).book;
      Last(Told(b, id)) == StatusOf(b, id) && ProperHistory(Told(b, id))
  {
    StartSteady();
    RunSteady(START, flash, events);
    assert Mirrors(RunAll(START, flash, events).book, id);
    hide RunAll, START, ProperHistory, Last;
  }

  // ----- who is charged for the torch -------------------------------------------------------

  /** A torch is tracked only while its camera is, and is not on once its camera goes. */
  ghost predicate Dark(b: Book, pc: Pc, id: Id, flash: set<Id>) {
    && (id in b.torch ==> id in flash)
    && (pc == Adding || pc == AddingTorch || pc == Erasing || id !in b.states ==> id !in b.torch)
    && (pc == Unlighting ==> !Lit(b, id))
  }

  ghost predicate Lamps(s: Service, flash: set<Id>) {
    AllCharged(s.book) && forall id :: Dark(s.book, PcOf(s, id), id, flash)
  }

  /** Not a report that a torch is on between a removal's first change and the removal of its torch. */
  predicate Timely(s: Service, e: Event) {
    e.Light? && e.torch == AvailableOn ==> PcOf(s, e.id) != Unlighting
  }

  predicate TimelyRun(s: Service, flash: set<Id>, events: seq<Event>)
    decreases |events|
  {
    events != [] ==> Timely(s, events[0]) && TimelyRun(Next(s, flash, events[0]), flash, events[1..])
  }

  lemma WorkSettled(b: Book, pc: Pc, id: Id, flash: set<Id>)
    requires Dark(b, pc, id, flash) && Work(b, pc, id, flash).Some?
    ensures Settled(b, Work(b, pc, id, flash).value)
  {
  }

  lemma WorkDark(b: Book, pc: Pc, id: Id, flash: set<Id>)
    requires Mirror(b) && Agrees(b, pc, id) && Dark(b, pc, id, flash)
    ensures Dark(Do(b, Work(b, pc, id, flash)), After(b, pc, id), id, flash)
  {
    hide ChangeTorch, Mirrors;
    TorchKeys(b, id, AvailableOff);
    TorchKeys(b, id, TorchNotAvailable);
  }

  /** A torch change adds and drops no entries, and does what it says. */
  lemma TorchKeys(b: Book, id: Id, torch: Torch)
    ensures var b' := ChangeTorch(b, id, torch);
      && b'.states == b.states && b'.torch.Keys == b.torch.Keys
      && (Lit(b', id) <==> id in b.torch && torch == AvailableOn)
  {
  }

  lemma ProceedLamps(s: Service, flash: set<Id>, id: Id)
    requires Steady(s) && Lamps(s, flash)
    ensures Lamps(Next(s, flash, Proceed(id)), flash)
  {
    hide Apply, Mirror, AllCharged, Subject, Orderly, Settled, Work, Lit;
    var pc := PcOf(s, id);
    var step := Work(s.book, pc, id, flash);
    var s' := Next(s, flash, Proceed(id));
    WorkDark(s.book, pc, id, flash);
    if step.Some? {
      WorkOrderly(s.book, pc, id, flash);
      WorkSettled(s.book, pc, id, flash);
      SettledCharges(s.book, step.value);
    }
    forall x
      ensures Dark(s'.book, PcOf(s', x), x, flash)
    {
      assert Dark(s.book, PcOf(s, x), x, flash);
      if x != id && step.Some? {
        DarkElsewhere(s.book, step.value, PcOf(s, x), x, flash);
      }
    }
  }

  lemma DarkElsewhere(b: Book, step: Step, pc: Pc, id: Id, flash: set<Id>)
    requires Mirror(b) && Dark(b, pc, id, flash) && Subject(b, step) != id
    ensures Dark(Apply(b, step), pc, id, flash)
  {
    hide Apply, Mirrors, Subject;
    FiledElsewhere(b, step, id);
    StepElsewhere(b, step, id);
  }

  lemma ReportLamps(s: Service, flash: set<Id>, id: Id, status: Status)
    requires Lamps(s, flash)
    ensures Lamps(Next(s, flash, Report(id, status)), flash)
  {
    hide AllCharged;
    var s' := Next(s, flash, Report(id, status));
    forall x
      ensures Dark(s'.book, PcOf(s', x), x, flash)
    {
      assert Dark(s.book, PcOf(s, x), x, flash);
    }
  }

  lemma DeclineLamps(s: Service, flash: set<Id>, id: Id)
    requires Steady(s) && Lamps(s, flash)
    ensures Lamps(Next(s, flash, Decline(id)), flash)
  {
    hide AllCharged, Mirror;
    var s' := Next(s, flash, Decline(id));
    assert Agrees(s.book, PcOf(s, id), id);
    forall x
      ensures Dark(s'.book, PcOf(s', x), x, flash)
    {
      assert Dark(s.book, PcOf(s, x), x, flash);
    }
  }

  lemma OtherLamps(s: Service, flash: set<Id>, step: Step)
    requires Steady(s) && Lamps(s, flash) && (ByClient(step) || step.TorchCallback? || step.SetUid?)
    requires step.TorchCallback? && step.torch == AvailableOn ==> PcOf(s, step.id) != Unlighting
    ensures Lamps(s.(book := Apply(s.book, step)), flash)
  {
    hide Apply, Mirror, AllCharged;
    SettledCharges(s.book, step);
    var s' := s.(book := Apply(s.book, step));
    forall x
      ensures Dark(s'.book, PcOf(s', x), x, flash)
    {
      assert Dark(s.book, PcOf(s, x), x, flash) && Agrees(s.book, PcOf(s, x), x);
      OtherDark(s.book, step, PcOf(s, x), x, flash);
    }
  }

  lemma OtherDark(b: Book, step: Step, pc: Pc, id: Id, flash: set<Id>)
    requires Mirror(b) && Agrees(b, pc, id) && Dark(b, pc, id, flash)
    requires ByClient(step) || step.TorchCallback? || step.SetUid?
    requires step.TorchCallback? && step.torch == AvailableOn && step.id == id ==> pc != Unlighting
    ensures Dark(Apply(b, step), pc, id, flash)
  {
    hide Mirrors, ChangeTorch;
    if Subject(b, step) != id {
      DarkElsewhere(b, step, pc, id, flash);
    } else if step.TorchCallback? {
      TorchKeys(b, id, step.torch);
    } else if step.Commit? {
      TorchKeys(b, id, if step.status == Present then AvailableOff else TorchNotAvailable);
    }
  }

  lemma NextLamps(s: Service, flash: set<Id>, e: Event)
    requires Steady(s) && Lamps(s, flash) && Timely(s, e)
    ensures Lamps(Next(s, flash, e), flash)
  {
    hide Steady, Lamps, Apply, Work;
    match e
    case Report(id, status) => ReportLamps(s, flash, id, status);
    case Proceed(id) => ProceedLamps(s, flash, id);
    case Decline(id) => DeclineLamps(s, flash, id);
    case Client(k, status, rejected) =>
      if ByClient(Commit(k, status, rejected)) {
        OtherLamps(s, flash, Commit(k, status, rejected));
      }
    case Light(id, torch) => OtherLamps(s, flash, TorchCallback(id, torch));
    case Ask(id, uid) => OtherLamps(s, flash, SetUid(id, uid));
  }

  lemma {:induction false} RunLamps(s: Service, flash: set<Id>, events: seq<Event>)
    requires Steady(s) && Lamps(s, flash) && TimelyRun(s, flash, events)
    ensures Lamps(RunAll(s, flash, events), flash)
    decreases |events|
  {
    hide Steady, Lamps, Next, Timely;
    if events == [] {
      assert RunAll(s, flash, events) == s;
    } else {
      NextSteady(s, flash, events[0]);
      NextLamps(s, flash, events[0]);
      RunLamps(Next(s, flash, events[0]), flash, events[1..]);
    }
  }

  /**
   * In every such run without a late torch report, whoever asks for the torch and whatever clients
   * and other cameras do, the only open note of a camera is its current uid's, and none is open
   * unless its torch is on.
   */
  lemma ChargedAlways(flash: set<Id>, events: seq<Event>, id: Id)
    requires TimelyRun(START, flash, events)
    ensures var b := RunAll(START, flash, events).book;
      Notes(b, id) != {} ==> id in b.uids && Notes(b, id) == {b.uids[id].current} && Lit(b, id)
  {
    StartSteady();
    RunLamps(START, flash, events);
    assert Charged(RunAll(START, flash, events).book, id);
    hide RunAll, START;
  }

  // ----- what a late report does, exactly -----------------------------------------------------

  /** A torch report between the two halves of a removal leaves somebody charged exactly when it is a first report that the torch is on and somebody has asked for the torch. */
  lemma LateLightExactly(s: Service, flash: set<Id>, id: Id, torch: Torch)
    requires Steady(s) && Lamps(s, flash) && PcOf(s, id) == Unlighting && id in s.book.torch
    ensures var s' := Next(Next(s, flash, Light(id, torch)), flash, Proceed(id));
      && id !in s'.book.torch
      && (Notes(s'.book, id) == {} <==> torch != AvailableOn || id !in s.book.uids)
      && (Charged(s'.book, id) <==> torch != AvailableOn || id !in s.book.uids)
  {
    hide Mirror, ChangeTorch;
    assert Dark(s.book, PcOf(s, id), id, flash);
    assert Charged(s.book, id);
    TorchKeys(s.book, id, torch);
    ChangeCharges(s.book, id, torch);
    if id !in s.book.uids {
      UnaskedUncharged(s.book, id, torch);
    } else if torch == AvailableOn {
      LightingCharges(s.book, id);
      assert s.book.uids[id].pending in Notes(ChangeTorch(s.book, id, AvailableOn), id);
    }
  }

  lemma UnaskedUncharged(b: Book, id: Id, torch: Torch)
    requires id !in b.uids
    ensures Notes(ChangeTorch(b, id, torch), id) == Notes(b, id)
  {
  }

  /** A second report on a camera that is being removed breaks the listener's view exactly when it brings the camera up. */
  lemma OverlapExactly(b: Book, id: Id, status: Status)
    requires Mirror(b) && id in b.states && StatusOf(b, id) == NotPresent
    ensures Mirrors(Apply(Apply(b, Commit(b.states[id], status, {})), Erase(id)), id)
      <==> status != Present && status != Enumerating
  {
    hide ChangeTorch;
    assert Mirrors(b, id);
    TorchApart(b, id, status);
    HistoryGrows(Told(b, id), status);
    hide ProperHistory;
  }

  /**
   * A report that has looked an object up, and makes its change after the object was replaced or
   * erased, breaks the listener's view exactly when it brings the camera up.
   */
  lemma StaleCommitExactly(b: Book, k: nat, status: Status)
    requires Mirror(b) && k < |b.objects| && !Current(b, k)
    ensures Mirrors(Apply(b, Commit(k, status, {})), b.objects[k].id) <==> status != Present && status != Enumerating
  {
    assert Mirrors(b, b.objects[k].id);
    assert b.objects[k].status == NotPresent;
    hide Mirrors, Apply, Current;
    if status == Present || status == Enumerating {
      DisorderlyBreaks(b, Commit(k, status, {}));
    } else {
      RefusedCommit(b, k, status);
    }
  }

  lemma RefusedCommit(b: Book, k: nat, status: Status)
    requires k < |b.objects| && b.objects[k].status == NotPresent && status != Present && status != Enumerating
    ensures Apply(b, Commit(k, status, {})) == b
  {
  }

  // ----- asking for a torch, and an addition that gives up ---------------------------------------

  /** Whoever asks for a torch that is not on is charged, alone, once the HAL reports it on. */
  lemma AskThenLight(s: Service, flash: set<Id>, id: Id, uid: int)
    requires Lamps(s, flash) && id in s.book.torch && !Lit(s.book, id)
    ensures var s' := Next(Next(s, flash, Ask(id, uid)), flash, Light(id, AvailableOn));
      Notes(s'.book, id) == {uid} && Lit(s'.book, id)
  {
    assert Charged(s.book, id);
    AskedIsCharged(s.book, id, uid);
    hide Lamps, Notes, Lit;
  }

  /** A client that opens a camera and closes it again. */
  lemma ClientOpens(s: Service, flash: set<Id>, id: Id)
    requires Steady(s) && Lamps(s, flash) && id in s.book.states && StatusOf(s.book, id) == Present
    ensures var k := s.book.states[id];
      var open := Next(s, flash, Client(k, NotAvailable, {}));
      var closed := Next(open, flash, Client(k, Present, REJECTED));
      && StatusOf(open.book, id) == NotAvailable && Told(open.book, id) == Told(s.book, id) + [NotAvailable]
      && StatusOf(closed.book, id) == Present && Told(closed.book, id) == Told(s.book, id) + [NotAvailable, Present]
      && open.reports == closed.reports == s.reports
  {
    assert Charged(s.book, id);
    OpenAndClose(s.book, id, id + "+");
    hide Apply, StatusOf, Told;
  }

  /** If addStates gives up, a report of a new camera changes nothing. */
  lemma DeclineEnds(s: Service, flash: set<Id>, id: Id)
    requires PcOf(s, id) == Resting && id !in s.book.states
    ensures var reported := Next(s, flash, Report(id, Present));
      var s' := Next(Next(reported, flash, Decline(id)), flash, Proceed(id));
      PcOf(reported, id) == Adding && s'.book == s.book && PcOf(s', id) == Resting
  {
  }

  // ----- one report with nothing in between ----------------------------------------------------

  lemma RunFour(s: Service, flash: set<Id>, id: Id)
    ensures RunAll(s, flash, [Proceed(id), Proceed(id), Proceed(id), Proceed(id)])
      == Next(Next(Next(Next(s, flash, Proceed(id)), flash, Proceed(id)), flash, Proceed(id)), flash, Proceed(id))
  {
    var e := Proceed(id);
    assert [e, e, e, e][1..] == [e, e, e];
    RunThree(Next(s, flash, e), flash, e);
    hide Next;
  }

  lemma RunThree(s: Service, flash: set<Id>, e: Event)
    ensures RunAll(s, flash, [e, e, e]) == Next(Next(Next(s, flash, e), flash, e), flash, e)
  {
    assert [e, e, e][1..] == [e, e] && [e, e][1..] == [e] && [e][1..] == [];
    assert RunAll(s, flash, [e, e, e]) == RunAll(Next(s, flash, e), flash, [e, e]);
    assert RunAll(Next(s, flash, e), flash, [e, e]) == RunAll(Next(Next(s, flash, e), flash, e), flash, [e]);
    hide Next;
  }

  lemma ProceedIs(s: Service, flash: set<Id>, id: Id)
    ensures var s', pc := Next(s, flash, Proceed(id)), PcOf(s, id);
      s'.book == Do(s.book, Work(s.book, pc, id, flash)) && PcOf(s', id) == After(s.book, pc, id)
  {
  }

  /** What four steps make of the book, and the state before them. */
  lemma FourSteps(s: Service, flash: set<Id>, id: Id) returns (b1: Book, b2: Book, b3: Book, pc1: Pc, pc2: Pc, pc3: Pc)
    ensures b1 == Do(s.book, Work(s.book, PcOf(s, id), id, flash)) && pc1 == After(s.book, PcOf(s, id), id)
    ensures b2 == Do(b1, Work(b1, pc1, id, flash)) && pc2 == After(b1, pc1, id)
    ensures b3 == Do(b2, Work(b2, pc2, id, flash)) && pc3 == After(b2, pc2, id)
    ensures RunAll(s, flash, [Proceed(id), Proceed(id), Proceed(id), Proceed(id)]).book == Do(b3, Work(b3, pc3, id, flash))
  {
    hide Next, PcOf, Do, Work, After, RunAll;
    RunFour(s, flash, id);
    var s1 := Next(s, flash, Proceed(id));
    var s2 := Next(s1, flash, Proceed(id));
    var s3 := Next(s2, flash, Proceed(id));
    ProceedIs(s, flash, id);
    ProceedIs(s1, flash, id);
    ProceedIs(s2, flash, id);
    ProceedIs(s3, flash, id);
    b1, b2, b3 := s1.book, s2.book, s3.book;
    pc1, pc2, pc3 := PcOf(s1, id), PcOf(s2, id), PcOf(s3, id);
  }

  /** Four steps of a report on its own do what the method onDeviceStatusChanged does. */
  lemma ReportWorksOff(s: Service, flash: set<Id>, id: Id, status: Status)
    requires Filed(s.book) && PcOf(s, id) == Resting
    ensures RunAll(Next(s, flash, Report(id, status)), flash, [Proceed(id), Proceed(id), Proceed(id), Proceed(id)]).book
      == Run(s.book, ReportSteps(s.book, id, status, id in flash, false))
  {
    hide Run, RunAll, CommitStatus, Filed;
    var b := s.book;
    var b1, b2, b3, pc1, pc2, pc3 := FourSteps(Next(s, flash, Report(id, status)), flash, id);
    if id !in b.states {
      ReportAdded(b, id, id in flash);
      RunAdded(b, id, id in flash, Commit(|b.objects|, Present, {}));
      RunNone(b, Erase(id));
    } else {
      var k := b.states[id];
      RunNone(b, Erase(id));
      RunNone(b, Commit(k, status, {}));
      RunRemoval(b, k, id, id in flash);
    }
  }

  lemma RunRemoval(b: Book, k: nat, id: Id, flash: bool)
    ensures var b1 := Apply(b, Commit(k, NotPresent, {}));
      Run(b, [Commit(k, NotPresent, {})] + ([] + ((if flash then [RemoveTorch(id)] else []) + [Erase(id)])))
      == Apply(if flash then Apply(b1, RemoveTorch(id)) else b1, Erase(id))
  {
    hide Run, Apply;
    var b1 := Apply(b, Commit(k, NotPresent, {}));
    var tail := (if flash then [RemoveTorch(id)] else []) + [Erase(id)];
    RunMore(b, Commit(k, NotPresent, {}), [] + tail);
    assert [] + tail == tail;
    if flash {
      RunMore(b1, RemoveTorch(id), [Erase(id)]);
    } else {
      assert tail == [Erase(id)];
    }
    RunNone(if flash then Apply(b1, RemoveTorch(id)) else b1, Erase(id));
  }
}
