/**
 * The start handshake of jthread.cpp: any number of threads calling Start on one JThread, the
 * threads it creates, three mutexes and the polled flag `running`. Every lock, unlock and access
 * to a shared field is a step of its own; a run is any interleaving of steps.
 */
module ThreadStart {
  import opened Wrappers

  datatype Agent = Starter(i: nat) | Worker(k: nat)

  const CANT_START_THREAD := -2
  const ALREADY_RUNNING := -5

  /** What a caller of Start does next; w is the thread it has created. */
  datatype StartPc =
    | Idle
    | LockContinue
    | LockRunning
    | Test
    | UnlockRunningBusy
    | UnlockContinueBusy
    | UnlockRunning
    | Create
    | UnlockContinueFailed
    | StoreId(w: nat)
    | LockPoll(w: nat)
    | Poll(w: nat)
    | UnlockPoll(w: nat)
    | UnlockSeen(w: nat)
    | UnlockContinue(w: nat)
    | LockStarted(w: nat)
    | UnlockStarted(w: nat)
    | Returned(result: int, thread: Option<nat>)

  /** What a created thread does next, in order. */
  datatype ThreadPc =
    | TakeStarted
    | TakeRunning
    | SetRunning
    | GiveRunning
    | TakeContinue
    | GiveContinue
    | BodyStarting
    | BodyStarted
    | TakeEnd
    | ClearRunning
    | StoreResult
    | ClearId
    | GiveEnd
    | Finished

  datatype Thread = Thread(pc: ThreadPc, creator: nat, result: int)

  datatype State = State(
    starters: seq<StartPc>, threads: seq<Thread>,
    continueMutex: Option<Agent>, runningMutex: Option<Agent>, startedMutex: Option<Agent>,
    running: bool, retval: int, threadId: Option<nat>,
    results: seq<int>)   // what the bodies returned, in order

  datatype Action =
    | Call(i: nat)
    | Start(i: nat, created: bool)
    | Run(k: nat, result: int)

  function Init(n: nat): State {
    State(seq(n, _ => Idle), [], None, None, None, false, 0, None, [])
  }

  function Go(s: State, i: nat, pc: StartPc): State
    requires i < |s.starters|
  {
    s.(starters := s.starters[i := pc])
  }

  /** One step of Start; a step that has to wait changes nothing. */
  function StartStep(s: State, i: nat, created: bool): State
    requires i < |s.starters|
  {
    var me := Some(Starter(i));
    match s.starters[i]
    case Idle => s
    case LockContinue =>
      if s.continueMutex.None? then Go(s, i, LockRunning).(continueMutex := me) else s
    case LockRunning =>
      if s.runningMutex.None? then Go(s, i, Test).(runningMutex := me) else s
    case Test => Go(s, i, if s.running then UnlockRunningBusy else UnlockRunning)
    case UnlockRunningBusy => Go(s, i, UnlockContinueBusy).(runningMutex := None)
    case UnlockContinueBusy => Go(s, i, Returned(ALREADY_RUNNING, None)).(continueMutex := None)
    case UnlockRunning => Go(s, i, Create).(runningMutex := None)
    case Create =>
      if created then
        Go(s, i, StoreId(|s.threads|)).(threads := s.threads + [Thread(TakeStarted, i, 0)])
      else Go(s, i, UnlockContinueFailed)
    case UnlockContinueFailed => Go(s, i, Returned(CANT_START_THREAD, None)).(continueMutex := None)
    case StoreId(w) => Go(s, i, LockPoll(w)).(threadId := Some(w))
    case LockPoll(w) =>
      if s.runningMutex.None? then Go(s, i, Poll(w)).(runningMutex := me) else s
    case Poll(w) => Go(s, i, if s.running then UnlockSeen(w) else UnlockPoll(w))
    case UnlockPoll(w) => Go(s, i, LockPoll(w)).(runningMutex := None)
    case UnlockSeen(w) => Go(s, i, UnlockContinue(w)).(runningMutex := None)
    case UnlockContinue(w) => Go(s, i, LockStarted(w)).(continueMutex := None)
    case LockStarted(w) =>
      if s.startedMutex.None? then Go(s, i, UnlockStarted(w)).(startedMutex := me) else s
    case UnlockStarted(w) => Go(s, i, Returned(0, Some(w))).(startedMutex := None)
    case Returned(_, _) => s
  }

  function Move(s: State, k: nat, pc: ThreadPc): State
    requires k < |s.threads|
  {
    s.(threads := s.threads[k := s.threads[k].(pc := pc)])
  }

  /** One step of TheThread and of the body it runs, which calls ThreadStarted once. */
  function ThreadStep(s: State, k: nat, result: int): State
    requires k < |s.threads|
  {
    var me := Some(Worker(k));
    match s.threads[k].pc
    case TakeStarted =>
      if s.startedMutex.None? then Move(s, k, TakeRunning).(startedMutex := me) else s
    case TakeRunning =>
      if s.runningMutex.None? then Move(s, k, SetRunning).(runningMutex := me) else s
    case SetRunning => Move(s, k, GiveRunning).(running := true)
    case GiveRunning => Move(s, k, TakeContinue).(runningMutex := None)
    case TakeContinue =>
      if s.continueMutex.None? then Move(s, k, GiveContinue).(continueMutex := me) else s
    case GiveContinue => Move(s, k, BodyStarting).(continueMutex := None)
    case BodyStarting => Move(s, k, BodyStarted).(startedMutex := None)
    case BodyStarted => s.(threads := s.threads[k := s.threads[k].(pc := TakeEnd, result := result)])
    case TakeEnd =>
      if s.runningMutex.None? then Move(s, k, ClearRunning).(runningMutex := me) else s
    case ClearRunning => Move(s, k, StoreResult).(running := false, results := s.results + [s.threads[k].result])
    case StoreResult => Move(s, k, ClearId).(retval := s.threads[k].result)
    case ClearId => Move(s, k, GiveEnd).(threadId := None)
    case GiveEnd => Move(s, k, Finished).(runningMutex := None)
    case Finished => s
  }

  function Apply(s: State, a: Action): State {
    match a
    case Call(i) =>
      if i < |s.starters| && (s.starters[i].Idle? || s.starters[i].Returned?) then Go(s, i, LockContinue) else s
    case Start(i, created) => if i < |s.starters| then StartStep(s, i, created) else s
    case Run(k, result) => if k < |s.threads| then ThreadStep(s, k, result) else s
  }

  function RunAll(s: State, actions: seq<Action>): State
    decreases |actions|
  {
    if actions == [] then s else RunAll(Apply(s, actions[0]), actions[1..])
  }

  // ----- the invariant ------------------------------------------------------------

  predicate StarterHoldsContinue(pc: StartPc) {
    !(pc.Idle? || pc.LockContinue? || pc.LockStarted? || pc.UnlockStarted? || pc.Returned?)
  }

  predicate StarterHoldsRunning(pc: StartPc) {
    pc.Test? || pc.UnlockRunningBusy? || pc.UnlockRunning? || pc.Poll? || pc.UnlockPoll? || pc.UnlockSeen?
  }

  predicate StarterHoldsStarted(pc: StartPc) {
    pc.UnlockStarted?
  }

  predicate ThreadHoldsContinue(pc: ThreadPc) {
    pc.GiveContinue?
  }

  predicate ThreadHoldsRunning(pc: ThreadPc) {
    pc.SetRunning? || pc.GiveRunning? || pc.ClearRunning? || pc.StoreResult? || pc.ClearId? || pc.GiveEnd?
  }

  predicate ThreadHoldsStarted(pc: ThreadPc) {
    pc.TakeRunning? || pc.SetRunning? || pc.GiveRunning? || pc.TakeContinue? || pc.GiveContinue? || pc.BodyStarting?
  }

  predicate Known(starters: seq<StartPc>, threads: seq<Thread>, owner: Option<Agent>) {
    owner.Some? ==> match owner.value case Starter(i) => i < |starters| case Worker(k) => k < |threads|
  }

  /** Each mutex is held by the one agent whose position says so, or by none. */
  ghost predicate ContinueOwned(starters: seq<StartPc>, threads: seq<Thread>, owner: Option<Agent>) {
    && Known(starters, threads, owner)
    && (forall i: nat :: i < |starters| ==> (StarterHoldsContinue(starters[i]) <==> owner == Some(Starter(i))))
    && (forall k: nat :: k < |threads| ==> (ThreadHoldsContinue(threads[k].pc) <==> owner == Some(Worker(k))))
  }

  ghost predicate RunningOwned(starters: seq<StartPc>, threads: seq<Thread>, owner: Option<Agent>) {
    && Known(starters, threads, owner)
    && (forall i: nat :: i < |starters| ==> (StarterHoldsRunning(starters[i]) <==> owner == Some(Starter(i))))
    && (forall k: nat :: k < |threads| ==> (ThreadHoldsRunning(threads[k].pc) <==> owner == Some(Worker(k))))
  }

  ghost predicate StartedOwned(starters: seq<StartPc>, threads: seq<Thread>, owner: Option<Agent>) {
    && Known(starters, threads, owner)
    && (forall i: nat :: i < |starters| ==> (StarterHoldsStarted(starters[i]) <==> owner == Some(Starter(i))))
    && (forall k: nat :: k < |threads| ==> (ThreadHoldsStarted(threads[k].pc) <==> owner == Some(Worker(k))))
  }

  function LastPc(threads: seq<Thread>): ThreadPc {
    if threads == [] then Finished else threads[|threads| - 1].pc
  }

  /** Only the newest thread can be anywhere but at its end. */
  ghost predicate OneAlive(threads: seq<Thread>) {
    forall k :: 0 <= k < |threads| - 1 ==> threads[k].pc == Finished
  }

  /** The thread has not set running yet. */
  predicate Unborn(pc: ThreadPc) {
    pc.TakeStarted? || pc.TakeRunning? || pc.SetRunning?
  }

  /** The thread has not passed the continue mutex. */
  predicate Early(pc: ThreadPc) {
    Unborn(pc) || pc.GiveRunning? || pc.TakeContinue?
  }

  /** The thread has set running and not cleared it. */
  predicate Live(pc: ThreadPc) {
    !Unborn(pc) && !Ended(pc)
  }

  predicate Ended(pc: ThreadPc) {
    pc.StoreResult? || pc.ClearId? || pc.GiveEnd? || pc.Finished?
  }

  /** The body has called ThreadStarted. */
  predicate Started(pc: ThreadPc) {
    pc.BodyStarted? || pc.TakeEnd? || pc.ClearRunning? || Ended(pc)
  }

  predicate Polling(pc: StartPc) {
    pc.StoreId? || pc.LockPoll? || pc.Poll? || pc.UnlockPoll?
  }

  /** What a caller of Start may rely on. */
  ghost predicate Linked(pc: StartPc, i: nat, threads: seq<Thread>) {
    match pc
    case UnlockRunning => LastPc(threads) == Finished
    case Create => LastPc(threads) == Finished
    case StoreId(w) => w + 1 == |threads| && Early(threads[w].pc) && threads[w].creator == i
    case LockPoll(w) => w + 1 == |threads| && Early(threads[w].pc) && threads[w].creator == i
    case Poll(w) => w + 1 == |threads| && Early(threads[w].pc) && threads[w].creator == i
    case UnlockPoll(w) => w + 1 == |threads| && Early(threads[w].pc) && threads[w].creator == i
    case UnlockSeen(w) => w + 1 == |threads| && threads[w].pc == TakeContinue
    case UnlockContinue(w) => w + 1 == |threads| && threads[w].pc == TakeContinue
    case LockStarted(w) => w < |threads| && !Unborn(threads[w].pc)
    case UnlockStarted(w) => w < |threads| && Started(threads[w].pc)
    case Returned(result, w) => result == 0 ==> w.Some? && w.value < |threads| && Started(threads[w.value].pc)
    case _ => true
  }

  ghost predicate AllLinked(starters: seq<StartPc>, threads: seq<Thread>) {
    forall i: nat :: i < |starters| ==> Linked(starters[i], i, threads)
  }

  /** While the newest thread has not set running, its creator is polling for it. */
  ghost predicate Awaited(starters: seq<StartPc>, threads: seq<Thread>) {
    Unborn(LastPc(threads)) ==>
      var c := threads[|threads| - 1].creator;
      c < |starters| && Polling(starters[c])
  }

  /** threadid names the thread once its creator has stored it, until the thread clears it. */
  ghost predicate IdOk(starters: seq<StartPc>, threads: seq<Thread>, threadId: Option<nat>) {
    var pc := LastPc(threads);
    if pc.GiveEnd? || pc.Finished? then threadId == None
    else if Early(pc) && threads[|threads| - 1].creator < |starters| && starters[threads[|threads| - 1].creator].StoreId? then true
    else threadId == Some(|threads| - 1)
  }

  /** retval is what the last body returned, except while that is being stored. */
  ghost predicate ResultOk(threads: seq<Thread>, retval: int, results: seq<int>) {
    var pc := LastPc(threads);
    && |results| == (if Ended(pc) then |threads| else |threads| - 1)
    && (forall k :: 0 <= k < |results| ==> results[k] == threads[k].result)
    && (!pc.StoreResult? && results != [] ==> retval == results[|results| - 1])
    && (results == [] ==> retval == 0)
  }

  ghost predicate Inv(s: State) {
    && ContinueOwned(s.starters, s.threads, s.continueMutex)
    && RunningOwned(s.starters, s.threads, s.runningMutex)
    && StartedOwned(s.starters, s.threads, s.startedMutex)
    && OneAlive(s.threads)
    && (s.running <==> Live(LastPc(s.threads)))
    && AllLinked(s.starters, s.threads)
    && Awaited(s.starters, s.threads)
    && IdOk(s.starters, s.threads, s.threadId)
    && ResultOk(s.threads, s.retval, s.results)
  }

  lemma InitInv(n: nat)
    ensures Inv(Init(n))
  {
  }

  // ----- each step keeps it --------------------------------------------------------

  lemma LockContinueKeeps(s: State, i: nat, created: bool)
    requires Inv(s) && i < |s.starters| && s.starters[i].LockContinue?
    ensures Inv(StartStep(s, i, created))
  {
    hide OneAlive, ResultOk, Live, ThreadHoldsContinue, ThreadHoldsRunning, ThreadHoldsStarted, Early;
  }

  lemma FailStepKeeps(s: State, i: nat, created: bool)
    requires Inv(s) && i < |s.starters|
    requires s.starters[i].UnlockContinueBusy? || s.starters[i].UnlockContinueFailed?
    ensures Inv(StartStep(s, i, created))
  {
    hide OneAlive, ResultOk, Live, ThreadHoldsContinue, ThreadHoldsRunning, ThreadHoldsStarted, Early;
  }

  lemma UnlockContinueKeeps(s: State, i: nat, created: bool)
    requires Inv(s) && i < |s.starters| && s.starters[i].UnlockContinue?
    ensures Inv(StartStep(s, i, created))
  {
    hide OneAlive, ResultOk, Live, ThreadHoldsContinue, ThreadHoldsRunning, ThreadHoldsStarted, Early;
  }

  lemma LockStepKeeps(s: State, i: nat, created: bool)
    requires Inv(s) && i < |s.starters| && (s.starters[i].LockRunning? || s.starters[i].LockPoll?)
    ensures Inv(StartStep(s, i, created))
  {
    hide OneAlive, ResultOk, Live, ThreadHoldsContinue, ThreadHoldsRunning, ThreadHoldsStarted;
  }

  lemma UnlockTestKeeps(s: State, i: nat, created: bool)
    requires Inv(s) && i < |s.starters|
    requires s.starters[i].UnlockRunningBusy? || s.starters[i].UnlockRunning?
    ensures Inv(StartStep(s, i, created))
  {
    hide OneAlive, ResultOk, Live, ThreadHoldsContinue, ThreadHoldsRunning, ThreadHoldsStarted;
  }

  lemma UnlockPollKeeps(s: State, i: nat, created: bool)
    requires Inv(s) && i < |s.starters| && (s.starters[i].UnlockPoll? || s.starters[i].UnlockSeen?)
    ensures Inv(StartStep(s, i, created))
  {
    hide OneAlive, ResultOk, Live, ThreadHoldsContinue, ThreadHoldsRunning, ThreadHoldsStarted;
  }

  lemma LookStepKeeps(s: State, i: nat, created: bool)
    requires Inv(s) && i < |s.starters|
    requires s.starters[i].Test? || s.starters[i].Poll?
    ensures Inv(StartStep(s, i, created))
  {
    hide OneAlive, ResultOk, ThreadHoldsContinue, ThreadHoldsStarted;
  }

  lemma LockStartedKeeps(s: State, i: nat, created: bool)
    requires Inv(s) && i < |s.starters| && s.starters[i].LockStarted?
    ensures Inv(StartStep(s, i, created))
  {
    hide OneAlive, ResultOk, ThreadHoldsContinue, ThreadHoldsRunning;
  }

  lemma UnlockStartedKeeps(s: State, i: nat, created: bool)
    requires Inv(s) && i < |s.starters| && s.starters[i].UnlockStarted?
    ensures Inv(StartStep(s, i, created))
  {
    hide OneAlive, ResultOk, ThreadHoldsContinue, ThreadHoldsRunning;
  }

  lemma IdStepKeeps(s: State, i: nat, created: bool)
    requires Inv(s) && i < |s.starters|
    requires s.starters[i].StoreId?
    ensures Inv(StartStep(s, i, created))
  {
    hide OneAlive, ResultOk, Live, ThreadHoldsContinue, ThreadHoldsRunning, ThreadHoldsStarted;
  }

  lemma CreateFailsKeeps(s: State, i: nat)
    requires Inv(s) && i < |s.starters| && s.starters[i].Create?
    ensures Inv(StartStep(s, i, false))
  {
    hide OneAlive, ResultOk, Live, ThreadHoldsContinue, ThreadHoldsRunning, ThreadHoldsStarted, Early;
  }

  lemma CreateKeeps(s: State, i: nat)
    requires Inv(s) && i < |s.starters| && s.starters[i].Create?
    ensures Inv(StartStep(s, i, true))
  {
    hide Started;
  }

  lemma CreateStepKeeps(s: State, i: nat, created: bool)
    requires Inv(s) && i < |s.starters|
    requires s.starters[i].Create?
    ensures Inv(StartStep(s, i, created))
  {
    hide Inv, StartStep;
    if created {
      CreateKeeps(s, i);
    } else {
      CreateFailsKeeps(s, i);
    }
  }

  lemma TakeStartedKeeps(s: State, k: nat, result: int)
    requires Inv(s) && k < |s.threads| && s.threads[k].pc.TakeStarted?
    ensures Inv(ThreadStep(s, k, result))
  {
    hide StarterHoldsContinue, StarterHoldsRunning, StarterHoldsStarted;
  }

  lemma BodyStartingKeeps(s: State, k: nat, result: int)
    requires Inv(s) && k < |s.threads| && s.threads[k].pc.BodyStarting?
    ensures Inv(ThreadStep(s, k, result))
  {
    hide StarterHoldsContinue, StarterHoldsRunning, StarterHoldsStarted;
  }

  lemma SetRunningKeeps(s: State, k: nat, result: int)
    requires Inv(s) && k < |s.threads| && s.threads[k].pc.SetRunning?
    ensures Inv(ThreadStep(s, k, result))
  {
    hide StarterHoldsContinue, StarterHoldsRunning, StarterHoldsStarted;
  }

  lemma TakeRunningKeeps(s: State, k: nat, result: int)
    requires Inv(s) && k < |s.threads| && s.threads[k].pc.TakeRunning?
    ensures Inv(ThreadStep(s, k, result))
  {
    hide StarterHoldsContinue, StarterHoldsRunning, StarterHoldsStarted;
  }

  lemma GiveRunningKeeps(s: State, k: nat, result: int)
    requires Inv(s) && k < |s.threads| && s.threads[k].pc.GiveRunning?
    ensures Inv(ThreadStep(s, k, result))
  {
    hide StarterHoldsContinue, StarterHoldsRunning, StarterHoldsStarted;
  }

  lemma PassMoveKeeps(s: State, k: nat, result: int)
    requires Inv(s) && k < |s.threads|
    requires s.threads[k].pc.TakeContinue? || s.threads[k].pc.GiveContinue?
    ensures Inv(ThreadStep(s, k, result))
  {
    hide StarterHoldsRunning, StarterHoldsStarted;
  }

  lemma BodyStartedKeeps(s: State, k: nat, result: int)
    requires Inv(s) && k < |s.threads| && s.threads[k].pc.BodyStarted?
    ensures Inv(ThreadStep(s, k, result))
  {
    hide StarterHoldsContinue, StarterHoldsRunning, StarterHoldsStarted;
  }

  lemma TakeEndKeeps(s: State, k: nat, result: int)
    requires Inv(s) && k < |s.threads| && s.threads[k].pc.TakeEnd?
    ensures Inv(ThreadStep(s, k, result))
  {
    hide StarterHoldsContinue, StarterHoldsRunning, StarterHoldsStarted;
  }

  lemma ClearRunningKeeps(s: State, k: nat, result: int)
    requires Inv(s) && k < |s.threads| && s.threads[k].pc.ClearRunning?
    ensures Inv(ThreadStep(s, k, result))
  {
    hide StarterHoldsContinue, StarterHoldsRunning, StarterHoldsStarted;
  }

  lemma StoreResultKeeps(s: State, k: nat, result: int)
    requires Inv(s) && k < |s.threads| && s.threads[k].pc.StoreResult?
    ensures Inv(ThreadStep(s, k, result))
  {
    hide StarterHoldsContinue, StarterHoldsRunning, StarterHoldsStarted;
  }

  lemma ClearIdKeeps(s: State, k: nat, result: int)
    requires Inv(s) && k < |s.threads| && s.threads[k].pc.ClearId?
    ensures Inv(ThreadStep(s, k, result))
  {
    hide StarterHoldsContinue, StarterHoldsRunning, StarterHoldsStarted;
  }

  lemma GiveEndKeeps(s: State, k: nat, result: int)
    requires Inv(s) && k < |s.threads| && s.threads[k].pc.GiveEnd?
    ensures Inv(ThreadStep(s, k, result))
  {
    hide StarterHoldsContinue, StarterHoldsRunning, StarterHoldsStarted;
  }

  lemma CallKeeps(s: State, i: nat)
    requires Inv(s) && i < |s.starters| && (s.starters[i].Idle? || s.starters[i].Returned?)
    ensures Inv(Go(s, i, LockContinue))
  {
    hide OneAlive, ResultOk, Live, ThreadHoldsContinue, ThreadHoldsRunning, ThreadHoldsStarted;
  }

  lemma StartStepKeeps(s: State, i: nat, created: bool)
    requires Inv(s) && i < |s.starters|
    ensures Inv(StartStep(s, i, created))
  {
    hide Inv, Go;
    match s.starters[i]
    case Idle =>
    case Returned(_, _) =>
    case Test => LookStepKeeps(s, i, created);
    case Poll(_) => LookStepKeeps(s, i, created);
    case LockStarted(_) => LockStartedKeeps(s, i, created);
    case UnlockStarted(_) => UnlockStartedKeeps(s, i, created);
    case StoreId(_) => IdStepKeeps(s, i, created);
    case Create => CreateStepKeeps(s, i, created);
    case LockContinue => LockContinueKeeps(s, i, created);
    case UnlockContinueBusy => FailStepKeeps(s, i, created);
    case UnlockContinueFailed => FailStepKeeps(s, i, created);
    case UnlockContinue(_) => UnlockContinueKeeps(s, i, created);
    case LockRunning => LockStepKeeps(s, i, created);
    case LockPoll(_) => LockStepKeeps(s, i, created);
    case UnlockRunningBusy => UnlockTestKeeps(s, i, created);
    case UnlockRunning => UnlockTestKeeps(s, i, created);
    case UnlockPoll(_) => UnlockPollKeeps(s, i, created);
    case UnlockSeen(_) => UnlockPollKeeps(s, i, created);
  }

  lemma ThreadStepKeeps(s: State, k: nat, result: int)
    requires Inv(s) && k < |s.threads|
    ensures Inv(ThreadStep(s, k, result))
  {
    hide Inv, Move;
    match s.threads[k].pc
    case Finished =>
    case TakeStarted => TakeStartedKeeps(s, k, result);
    case BodyStarting => BodyStartingKeeps(s, k, result);
    case SetRunning => SetRunningKeeps(s, k, result);
    case TakeContinue => PassMoveKeeps(s, k, result);
    case GiveContinue => PassMoveKeeps(s, k, result);
    case BodyStarted => BodyStartedKeeps(s, k, result);
    case TakeEnd => TakeEndKeeps(s, k, result);
    case ClearRunning => ClearRunningKeeps(s, k, result);
    case StoreResult => StoreResultKeeps(s, k, result);
    case ClearId => ClearIdKeeps(s, k, result);
    case GiveEnd => GiveEndKeeps(s, k, result);
    case TakeRunning => TakeRunningKeeps(s, k, result);
    case GiveRunning => GiveRunningKeeps(s, k, result);
  }

  lemma ApplyKeeps(s: State, a: Action)
    requires Inv(s)
    ensures Inv(Apply(s, a))
  {
    hide Inv, StartStep, ThreadStep;
    match a
    case Call(i) =>
      if i < |s.starters| && (s.starters[i].Idle? || s.starters[i].Returned?) {
        CallKeeps(s, i);
      }
    case Start(i, created) =>
      if i < |s.starters| {
        StartStepKeeps(s, i, created);
      }
    case Run(k, result) =>
      if k < |s.threads| {
        ThreadStepKeeps(s, k, result);
      }
  }

  lemma {:induction false} RunKeeps(s: State, actions: seq<Action>)
    requires Inv(s)
    ensures Inv(RunAll(s, actions))
    decreases |actions|
  {
    hide Inv, Apply;
    if actions != [] {
      ApplyKeeps(s, actions[0]);
      RunKeeps(Apply(s, actions[0]), actions[1..]);
    }
  }

  // ----- what holds in every run ------------------------------------------------------

  predicate InBody(pc: ThreadPc) {
    pc.BodyStarting? || pc.BodyStarted?
  }

  /** At most one body is live; while it is, `running` is set and threadid names it. */
  ghost predicate OneBody(s: State) {
    && (forall j, k :: 0 <= j < k < |s.threads| ==> !InBody(s.threads[j].pc) || !InBody(s.threads[k].pc))
    && (forall k :: 0 <= k < |s.threads| && InBody(s.threads[k].pc) ==> s.running && s.threadId == Some(k))
  }

  /** The thread a caller polls for has not set `running` yet, or cannot clear it. */
  ghost predicate NoMiss(s: State) {
    forall i :: 0 <= i < |s.starters| && Polling(s.starters[i]) ==>
      && s.starters[i].w < |s.threads| && s.threads[s.starters[i].w].creator == i
      && (Unborn(s.threads[s.starters[i].w].pc) || s.running)
      && !InBody(s.threads[s.starters[i].w].pc)
  }

  /** Start has returned 0 only after the thread it created called ThreadStarted. */
  ghost predicate StartedFirst(s: State) {
    forall i :: 0 <= i < |s.starters| && s.starters[i].Returned? && s.starters[i].result == 0 ==>
      && s.starters[i].thread.Some? && s.starters[i].thread.value < |s.threads|
      && Started(s.threads[s.starters[i].thread.value].pc)
  }

  lemma InvOneBody(s: State)
    requires Inv(s)
    ensures OneBody(s)
  {
    hide ContinueOwned, RunningOwned, StartedOwned, ResultOk, Awaited, AllLinked;
  }

  lemma InvNoMiss(s: State)
    requires Inv(s)
    ensures NoMiss(s) && StartedFirst(s)
  {
    hide ContinueOwned, RunningOwned, StartedOwned, ResultOk, Awaited, IdOk, OneAlive;
  }

  /** In every run, whatever the number of callers and the interleaving. */
  lemma StartSafety(n: nat, actions: seq<Action>)
    ensures OneBody(RunAll(Init(n), actions))
    ensures NoMiss(RunAll(Init(n), actions))
    ensures StartedFirst(RunAll(Init(n), actions))
  {
    hide Inv, Init, RunAll, OneBody, NoMiss, StartedFirst;
    InitInv(n);
    RunKeeps(Init(n), actions);
    InvOneBody(RunAll(Init(n), actions));
    InvNoMiss(RunAll(Init(n), actions));
  }

  /** Start refuses with ALREADY_RUNNING exactly when a thread that has set `running` has not ended yet. */
  lemma RefusedExactlyWhileRunning(n: nat, actions: seq<Action>, i: nat, created: bool)
    requires var s := RunAll(Init(n), actions); i < |s.starters| && s.starters[i].Test?
    ensures var s := RunAll(Init(n), actions);
      var s' := StartStep(s, i, created);
      && |s'.starters| == |s.starters|
      && (s'.starters[i].UnlockRunningBusy? <==> exists k :: 0 <= k < |s.threads| && Live(s.threads[k].pc))
      && (!s'.starters[i].UnlockRunningBusy? ==> forall k :: 0 <= k < |s.threads| ==> s.threads[k].pc == Finished)
  {
    InitInv(n);
    RunKeeps(Init(n), actions);
    LiveIsRunning(RunAll(Init(n), actions), i, created);
    hide RunAll, Init, Inv;
  }

  lemma LiveIsRunning(s: State, i: nat, created: bool)
    requires Inv(s) && i < |s.starters| && s.starters[i].Test?
    ensures var s' := StartStep(s, i, created);
      && |s'.starters| == |s.starters|
      && (s'.starters[i].UnlockRunningBusy? <==> exists k :: 0 <= k < |s.threads| && Live(s.threads[k].pc))
      && (!s'.starters[i].UnlockRunningBusy? ==> forall k :: 0 <= k < |s.threads| ==> s.threads[k].pc == Finished)
  {
    hide ContinueOwned, StartedOwned, ResultOk, IdOk, Awaited;
    LookStepKeeps(s, i, created);
    if s.running {
      assert Live(s.threads[|s.threads| - 1].pc);
    }
  }

  // ----- what Start returns ---------------------------------------------------------------

  /** What a call of Start has met so far, read off the run. */
  datatype Met = Nothing | LiveThread | NoThread | NewThread(w: nat)

  /** What caller i's current call has met once an action has been taken in state s. */
  function MeetsNext(s: State, a: Action, i: nat, met: Met): Met {
    match a
    case Call(j) =>
      if j == i < |s.starters| && Resting(s.starters[i]) then Nothing else met
    case Start(j, created) =>
      if j == i < |s.starters| && s.starters[i].Test? && (exists k :: 0 <= k < |s.threads| && Live(s.threads[k].pc)) then
        LiveThread
      else if j == i < |s.starters| && s.starters[i].Create? then
        if created then NewThread(|s.threads|) else NoThread
      else met
    case Run(_, _) => met
  }

  function Meets(s: State, actions: seq<Action>, i: nat, met: Met): Met
    decreases |actions|
  {
    if actions == [] then met else Meets(Apply(s, actions[0]), actions[1..], i, MeetsNext(s, actions[0], i, met))
  }

  /** Where a caller may be, given what its call has met. */
  predicate Fitting(pc: StartPc, met: Met) {
    match met
    case Nothing =>
      pc.Idle? || pc.LockContinue? || pc.LockRunning? || pc.Test? || pc.UnlockRunning? || pc.Create?
    case LiveThread => pc.UnlockRunningBusy? || pc.UnlockContinueBusy? || pc == Returned(-5, None)
    case NoThread => pc.UnlockContinueFailed? || pc == Returned(-2, None)
    case NewThread(w) =>
      || pc == StoreId(w) || pc == LockPoll(w) || pc == Poll(w) || pc == UnlockPoll(w) || pc == UnlockSeen(w)
      || pc == UnlockContinue(w) || pc == LockStarted(w) || pc == UnlockStarted(w) || pc == Returned(0, Some(w))
  }

  lemma OwnStepFits(s: State, i: nat, created: bool, met: Met)
    requires i < |s.starters| && Fitting(s.starters[i], met)
    requires s.starters[i].Test? ==> (s.running <==> exists k :: 0 <= k < |s.threads| && Live(s.threads[k].pc))
    ensures i < |StartStep(s, i, created).starters|
    ensures Fitting(StartStep(s, i, created).starters[i], MeetsNext(s, Start(i, created), i, met))
  {
    hide Live;
    match s.starters[i]
    case Idle =>
    case LockContinue =>
    case LockRunning =>
    case Test =>
    case UnlockRunningBusy =>
    case UnlockContinueBusy =>
    case UnlockRunning =>
    case Create =>
    case UnlockContinueFailed =>
    case StoreId(w) =>
    case LockPoll(w) =>
    case Poll(w) =>
    case UnlockPoll(w) =>
    case UnlockSeen(w) =>
    case UnlockContinue(w) =>
    case LockStarted(w) =>
    case UnlockStarted(w) =>
    case Returned(_, _) =>
  }

  lemma StartElsewhere(s: State, i: nat, created: bool)
    requires i < |s.starters|
    ensures var s' := StartStep(s, i, created);
      |s'.starters| == |s.starters| && forall j :: 0 <= j < |s.starters| && j != i ==> s'.starters[j] == s.starters[j]
  {
    match s.starters[i]
    case Idle =>
    case LockContinue =>
    case LockRunning =>
    case Test =>
    case UnlockRunningBusy =>
    case UnlockContinueBusy =>
    case UnlockRunning =>
    case Create =>
    case UnlockContinueFailed =>
    case StoreId(w) =>
    case LockPoll(w) =>
    case Poll(w) =>
    case UnlockPoll(w) =>
    case UnlockSeen(w) =>
    case UnlockContinue(w) =>
    case LockStarted(w) =>
    case UnlockStarted(w) =>
    case Returned(_, _) =>
  }

  lemma ThreadElsewhere(s: State, k: nat, result: int)
    requires k < |s.threads|
    ensures ThreadStep(s, k, result).starters == s.starters
  {
    match s.threads[k].pc
    case TakeStarted =>
    case TakeRunning =>
    case SetRunning =>
    case GiveRunning =>
    case TakeContinue =>
    case GiveContinue =>
    case BodyStarting =>
    case BodyStarted =>
    case TakeEnd =>
    case ClearRunning =>
    case StoreResult =>
    case ClearId =>
    case GiveEnd =>
    case Finished =>
  }

  lemma OtherStepFits(s: State, a: Action, i: nat)
    requires i < |s.starters| && (a.Start? ==> a.i != i)
    ensures i < |Apply(s, a).starters|
    ensures Apply(s, a).starters[i]
         == if a.Call? && a.i == i && Resting(s.starters[i]) then LockContinue else s.starters[i]
  {
    hide StartStep, ThreadStep;
    if a.Start? && a.i < |s.starters| {
      StartElsewhere(s, a.i, a.created);
    } else if a.Run? && a.k < |s.threads| {
      ThreadElsewhere(s, a.k, a.result);
    }
  }

  lemma StepFits(s: State, a: Action, i: nat, met: Met)
    requires Inv(s) && i < |s.starters| && Fitting(s.starters[i], met)
    ensures i < |Apply(s, a).starters| && Fitting(Apply(s, a).starters[i], MeetsNext(s, a, i, met))
  {
    hide Inv, StartStep, ThreadStep, Live;
    if a.Start? && a.i == i {
      if s.starters[i].Test? {
        LiveIsRunning(s, i, a.created);
        TestLooks(s, i, a.created);
      }
      OwnStepFits(s, i, a.created, met);
    } else {
      OtherStepFits(s, a, i);
    }
  }

  lemma TestLooks(s: State, i: nat, created: bool)
    requires i < |s.starters| && s.starters[i].Test?
    ensures |StartStep(s, i, created).starters| == |s.starters|
    ensures StartStep(s, i, created).starters[i].UnlockRunningBusy? <==> s.running
  {
  }

  lemma {:induction false} RunFits(s: State, actions: seq<Action>, i: nat, met: Met)
    requires Inv(s) && i < |s.starters| && Fitting(s.starters[i], met)
    ensures i < |RunAll(s, actions).starters| && Fitting(RunAll(s, actions).starters[i], Meets(s, actions, i, met))
    decreases |actions|
  {
    hide Inv, Apply, Fitting, MeetsNext;
    if actions != [] {
      StepFits(s, actions[0], i, met);
      ApplyKeeps(s, actions[0]);
      RunFits(Apply(s, actions[0]), actions[1..], i, MeetsNext(s, actions[0], i, met));
    }
  }

  /**
   * In every run, whatever happens in between: a call of Start that found a live thread returns -5,
   * one whose creation failed returns -2, and one that created a thread returns 0; and no call
   * returns anything else.
   */
  lemma StartReturns(n: nat, actions: seq<Action>, i: nat)
    requires i < n
    ensures var s, met := RunAll(Init(n), actions), Meets(Init(n), actions, i, Nothing);
      && i < |s.starters|
      && (s.starters[i].Returned? ==>
            && (met == LiveThread <==> s.starters[i].result == -5) && (met == NoThread <==> s.starters[i].result == -2)
            && (met.NewThread? <==> s.starters[i].result == 0) && met != Nothing
            && s.starters[i].thread == (if met.NewThread? then Some(met.w) else None))
  {
    hide RunAll, Meets, Inv;
    InitInv(n);
    RunFits(Init(n), actions, i, Nothing);
  }

  // ----- what GetReturnValue returns --------------------------------------------------------

  /** What the bodies returned, in the order of the actions. */
  function BodyResults(s: State, actions: seq<Action>): seq<int>
    decreases |actions|
  {
    if actions == [] then []
    else
      var a := actions[0];
      (if a.Run? && a.k < |s.threads| && s.threads[a.k].pc.BodyStarted? then [a.result] else [])
      + BodyResults(Apply(s, a), actions[1..])
  }

  /** The result of a body that has returned and is not stored yet. */
  function Unstored(threads: seq<Thread>): seq<int> {
    var pc := LastPc(threads);
    if pc.TakeEnd? || pc.ClearRunning? then [threads[|threads| - 1].result] else []
  }

  lemma OneBodyResult(s: State, a: Action)
    ensures BodyResults(s, [a])
         == if a.Run? && a.k < |s.threads| && s.threads[a.k].pc.BodyStarted? then [a.result] else []
  {
    hide Apply;
    assert [a][1..] == [] && BodyResults(Apply(s, a), []) == [];
  }

  lemma ThreadStores(s: State, k: nat, result: int)
    requires Inv(s) && k < |s.threads|
    ensures var s' := ThreadStep(s, k, result);
      s'.results + Unstored(s'.threads)
      == s.results + Unstored(s.threads) + (if s.threads[k].pc.BodyStarted? then [result] else [])
  {
    hide ContinueOwned, RunningOwned, StartedOwned, ResultOk, IdOk, Awaited, AllLinked;
    var r := s.threads[k].result;
    assert s.results + [] == s.results && s.results + [r] + [] == s.results + [r];
    assert s.results + [] + [result] == s.results + [result];
    assert s.threads[k].pc == Finished || k == |s.threads| - 1;
  }

  lemma StepStores(s: State, a: Action)
    requires Inv(s)
    ensures var s' := Apply(s, a);
      s'.results + Unstored(s'.threads) == s.results + Unstored(s.threads) + BodyResults(s, [a])
  {
    hide ThreadStep, BodyResults, Unstored, Inv;
    OneBodyResult(s, a);
    assert s.results + Unstored(s.threads) + [] == s.results + Unstored(s.threads);
    match a
    case Call(i) =>
    case Start(i, created) =>
      if i < |s.starters| {
        StartStores(s, i, created);
      }
    case Run(k, result) =>
      if k < |s.threads| {
        ThreadStores(s, k, result);
      }
  }

  lemma StartStores(s: State, i: nat, created: bool)
    requires Inv(s) && i < |s.starters|
    ensures StartStep(s, i, created).results == s.results && Unstored(StartStep(s, i, created).threads) == Unstored(s.threads)
  {
    hide ContinueOwned, RunningOwned, StartedOwned, ResultOk, IdOk, Awaited, OneAlive;
  }

  lemma {:induction false} RunStores(s: State, actions: seq<Action>)
    requires Inv(s)
    ensures var s' := RunAll(s, actions);
      s'.results + Unstored(s'.threads) == s.results + Unstored(s.threads) + BodyResults(s, actions)
    decreases |actions|
  {
    hide Inv, Apply, Unstored;
    if actions != [] {
      var s' := Apply(s, actions[0]);
      StepStores(s, actions[0]);
      ApplyKeeps(s, actions[0]);
      RunStores(s', actions[1..]);
      assert [actions[0]][1..] == [] && BodyResults(s', []) == [];
      assert BodyResults(s, actions) == BodyResults(s, [actions[0]]) + BodyResults(s', actions[1..]);
    }
  }

  /** With no body live and its result stored, what the last body returned is what a caller gets. */
  lemma LastResult(n: nat, actions: seq<Action>)
    ensures var s, bodies := RunAll(Init(n), actions), BodyResults(Init(n), actions);
      && (s.runningMutex == None && !s.running && bodies != [] ==> GetReturnValue(s) == bodies[|bodies| - 1])
      && (s.running || bodies == [] ==> GetReturnValue(s) == 0)
  {
    InitInv(n);
    RunKeeps(Init(n), actions);
    RunStores(Init(n), actions);
    var s := RunAll(Init(n), actions);
    hide RunAll, BodyResults, Inv, Unstored;
    InitUnstored(n);
    NoneStored(s);
    if s.runningMutex == None && !s.running {
      LastStored(s);
      assert s.results + [] == s.results && [] + BodyResults(Init(n), actions) == BodyResults(Init(n), actions);
    }
  }

  lemma InitUnstored(n: nat)
    ensures Init(n).results + Unstored(Init(n).threads) == []
  {
  }

  lemma NoneStored(s: State)
    requires Inv(s)
    ensures s.results == [] ==> s.retval == 0
  {
  }

  lemma LastStored(s: State)
    requires Inv(s) && s.runningMutex == None && !s.running
    ensures Unstored(s.threads) == [] && (s.results != [] ==> s.retval == s.results[|s.results| - 1])
  {
    hide ContinueOwned, StartedOwned, AllLinked, Awaited, IdOk, OneAlive;
  }

  /** GetReturnValue, entered while nobody else holds the running mutex; 0 stands for NULL. */
  function GetReturnValue(s: State): int {
    if s.running then 0 else s.retval
  }

  /** When no body is live the result is that of the last thread whose body has returned. */
  lemma ReturnValue(n: nat, actions: seq<Action>)
    ensures var s := RunAll(Init(n), actions);
      s.runningMutex == None && !s.running && s.results != [] ==>
        && |s.results| <= |s.threads| && GetReturnValue(s) == s.threads[|s.results| - 1].result
        && (LastPc(s.threads) == Finished ==> |s.results| == |s.threads|)
  {
    InitInv(n);
    RunKeeps(Init(n), actions);
    hide RunAll, Init, ContinueOwned, StartedOwned, AllLinked, Awaited, IdOk, OneAlive;
  }

  // ----- nobody gets stuck -----------------------------------------------------------------

  predicate Resting(pc: StartPc) {
    pc.Idle? || pc.Returned?
  }

  /** Every call of Start has returned and every thread has ended. */
  ghost predicate Quiet(s: State) {
    && (forall i :: 0 <= i < |s.starters| ==> Resting(s.starters[i]))
    && LastPc(s.threads) == Finished
  }

  /** Callers that may still create a thread. */
  function Makers(starters: seq<StartPc>): nat {
    if starters == [] then 0
    else (if MayCreate(starters[0]) then 1 else 0) + Makers(starters[1..])
  }

  predicate MayCreate(pc: StartPc) {
    pc.LockContinue? || pc.LockRunning? || pc.Test? || pc.UnlockRunning? || pc.Create?
  }

  function Left(pc: ThreadPc): nat {
    match pc
    case TakeStarted => 13
    case TakeRunning => 12
    case SetRunning => 11
    case GiveRunning => 10
    case TakeContinue => 9
    case GiveContinue => 8
    case BodyStarting => 7
    case BodyStarted => 6
    case TakeEnd => 5
    case ClearRunning => 4
    case StoreResult => 3
    case ClearId => 2
    case GiveEnd => 1
    case Finished => 0
  }

  function Weight(pc: StartPc, running: bool): nat {
    match pc
    case LockContinue => 9
    case LockRunning => 8
    case Test => 7
    case UnlockRunning => 6
    case Create => 5
    case UnlockRunningBusy => 2
    case UnlockContinueBusy => 1
    case UnlockContinueFailed => 1
    case StoreId(_) => 9
    case UnlockPoll(_) => 7
    case LockPoll(_) => 6
    case Poll(_) => if running then 5 else 8
    case UnlockSeen(_) => 4
    case UnlockContinue(_) => 3
    case LockStarted(_) => 2
    case UnlockStarted(_) => 1
    case _ => 0
  }

  function Weights(starters: seq<StartPc>, running: bool): nat {
    if starters == [] then 0 else Weight(starters[0], running) + Weights(starters[1..], running)
  }

  lemma {:induction false} MakersUpdate(starters: seq<StartPc>, i: nat, pc: StartPc)
    requires i < |starters|
    ensures Makers(starters[i := pc]) - Makers(starters)
      == (if MayCreate(pc) then 1 else 0) - (if MayCreate(starters[i]) then 1 else 0)
  {
    hide MayCreate;
    if i == 0 {
      assert starters[i := pc][1..] == starters[1..];
    } else {
      MakersUpdate(starters[1..], i - 1, pc);
      assert starters[i := pc][1..] == starters[1..][i - 1 := pc];
    }
  }

  lemma {:induction false} WeightsUpdate(starters: seq<StartPc>, i: nat, pc: StartPc, running: bool)
    requires i < |starters|
    ensures Weights(starters[i := pc], running) - Weights(starters, running) == Weight(pc, running) - Weight(starters[i], running)
  {
    hide Weight;
    if i == 0 {
      assert starters[i := pc][1..] == starters[1..];
    } else {
      WeightsUpdate(starters[1..], i - 1, pc, running);
      assert starters[i := pc][1..] == starters[1..][i - 1 := pc];
    }
  }

  /** s' is closer to quiet than s. */
  ghost predicate Closer(s': State, s: State) {
    var a', b', c' := Makers(s'.starters), Left(LastPc(s'.threads)), Weights(s'.starters, s'.running);
    var a, b, c := Makers(s.starters), Left(LastPc(s.threads)), Weights(s.starters, s.running);
    a' < a || (a' == a && (b' < b || (b' == b && c' < c)))
  }

  /** A caller that need not wait, and is not about to poll in vain, gets closer. */
  predicate CanStep(pc: StartPc, s: State) {
    match pc
    case Idle => false
    case Returned(_, _) => false
    case LockContinue => s.continueMutex.None?
    case LockRunning => s.runningMutex.None?
    case LockPoll(_) => s.runningMutex.None? && s.running
    case LockStarted(_) => s.startedMutex.None?
    case _ => true
  }

  /** One step of a caller creates its thread or takes it further. */
  lemma StarterWeighs(s: State, i: nat)
    requires i < |s.starters| && CanStep(s.starters[i], s)
    ensures var s' := StartStep(s, i, true);
      && i < |s'.starters| && s'.starters == s.starters[i := s'.starters[i]] && s'.running == s.running
      && (MayCreate(s'.starters[i]) ==> MayCreate(s.starters[i]))
      && ((MayCreate(s.starters[i]) && !MayCreate(s'.starters[i]))
          || (s'.threads == s.threads && Weight(s'.starters[i], s.running) < Weight(s.starters[i], s.running)))
  {
  }

  lemma StarterCloser(s: State, i: nat)
    requires i < |s.starters| && CanStep(s.starters[i], s)
    ensures Closer(StartStep(s, i, true), s)
  {
    hide StartStep, Makers, Weights, LastPc, Left, MayCreate, Weight;
    StarterWeighs(s, i);
    var pc := StartStep(s, i, true).starters[i];
    MakersUpdate(s.starters, i, pc);
    WeightsUpdate(s.starters, i, pc, s.running);
  }

  predicate ThreadCanStep(pc: ThreadPc, s: State) {
    match pc
    case Finished => false
    case TakeStarted => s.startedMutex.None?
    case TakeRunning => s.runningMutex.None?
    case TakeContinue => s.continueMutex.None?
    case TakeEnd => s.runningMutex.None?
    case _ => true
  }

  lemma ThreadAdvances(s: State, result: int)
    requires s.threads != [] && ThreadCanStep(LastPc(s.threads), s)
    ensures var s' := ThreadStep(s, |s.threads| - 1, result);
      s'.starters == s.starters && Left(LastPc(s'.threads)) < Left(LastPc(s.threads))
  {
  }

  lemma ThreadCloser(s: State, result: int)
    requires s.threads != [] && ThreadCanStep(LastPc(s.threads), s)
    ensures Closer(ThreadStep(s, |s.threads| - 1, result), s)
  {
    hide Makers, Weights, Left, LastPc, ThreadStep;
    ThreadAdvances(s, result);
  }

  /** The holder of the running mutex never waits. */
  lemma HolderSteps(s: State) returns (a: Action)
    requires RunningOwned(s.starters, s.threads, s.runningMutex) && OneAlive(s.threads) && s.runningMutex.Some?
    ensures Closer(Apply(s, a), s)
  {
    hide StartStep, ThreadStep, Closer, LastPc;
    match s.runningMutex.value
    case Starter(i) =>
      assert StarterHoldsRunning(s.starters[i]);
      StarterCloser(s, i);
      a := Start(i, true);
    case Worker(k) =>
      assert ThreadHoldsRunning(s.threads[k].pc);
      a := NewestMoves(s, k);
  }

  lemma NewestMoves(s: State, k: nat) returns (a: Action)
    requires OneAlive(s.threads) && k < |s.threads| && ThreadCanStep(s.threads[k].pc, s)
    ensures Closer(Apply(s, a), s)
  {
    hide ThreadStep, Closer;
    assert k == |s.threads| - 1;
    ThreadCloser(s, 0);
    a := Run(k, 0);
  }

  /** A starter that holds the continue mutex waits at most for the running mutex, and polls in vain only for an unborn thread. */
  lemma ContinueHolderSteps(s: State, i: nat) returns (a: Action)
    requires i < |s.starters| && StarterHoldsContinue(s.starters[i]) && s.runningMutex.None?
    requires s.starters[i].LockPoll? ==> s.running
    ensures Closer(Apply(s, a), s)
  {
    hide StartStep, Closer;
    StarterCloser(s, i);
    a := Start(i, true);
  }

  lemma StartedHolderSteps(s: State, i: nat) returns (a: Action)
    requires i < |s.starters| && s.starters[i].UnlockStarted?
    ensures Closer(Apply(s, a), s)
  {
    hide StartStep, Closer;
    StarterCloser(s, i);
    a := Start(i, true);
  }

  /** The newest thread moves, or the caller it waits for does. */
  lemma NewestSteps(s: State) returns (a: Action)
    requires Inv(s) && s.runningMutex.None? && LastPc(s.threads) != Finished
    ensures Closer(Apply(s, a), s)
  {
    hide Closer, Apply, RunningOwned, AllLinked, Awaited, IdOk, ResultOk;
    var k := |s.threads| - 1;
    if ThreadCanStep(s.threads[k].pc, s) {
      a := NewestMoves(s, k);
    } else if s.threads[k].pc.TakeStarted? {
      var i := StartedHolder(s);
      a := StartedHolderSteps(s, i);
    } else {
      var i := ContinueHolder(s);
      a := ContinueHolderSteps(s, i);
    }
  }

  /** A mutex that the newest thread does not hold is held by a caller. */
  lemma StartedHolder(s: State) returns (i: nat)
    requires StartedOwned(s.starters, s.threads, s.startedMutex) && OneAlive(s.threads)
    requires s.startedMutex.Some? && !ThreadHoldsStarted(LastPc(s.threads))
    ensures i < |s.starters| && s.starters[i].UnlockStarted?
  {
    match s.startedMutex.value
    case Starter(j) => i := j;
    case Worker(_) => assert false;
  }

  lemma ContinueHolder(s: State) returns (i: nat)
    requires ContinueOwned(s.starters, s.threads, s.continueMutex) && OneAlive(s.threads)
    requires s.continueMutex.Some? && !ThreadHoldsContinue(LastPc(s.threads))
    ensures i < |s.starters| && StarterHoldsContinue(s.starters[i])
  {
    match s.continueMutex.value
    case Starter(j) => i := j;
    case Worker(_) => assert false;
  }

  /** With no thread alive, some caller moves. */
  lemma CallerSteps(s: State) returns (a: Action)
    requires Inv(s) && s.runningMutex.None? && LastPc(s.threads) == Finished && !Quiet(s)
    ensures Closer(Apply(s, a), s)
  {
    hide Closer, Apply, RunningOwned, Awaited, IdOk, ResultOk;
    if s.continueMutex.Some? {
      var i := ContinueHolder(s);
      assert Linked(s.starters[i], i, s.threads);
      a := ContinueHolderSteps(s, i);
    } else {
      var i :| 0 <= i < |s.starters| && !Resting(s.starters[i]);
      if s.starters[i].LockStarted? && s.startedMutex.Some? {
        var j := StartedHolder(s);
        a := StartedHolderSteps(s, j);
      } else {
        a := FreeCallerSteps(s, i);
      }
    }
  }

  lemma FreeCallerSteps(s: State, i: nat) returns (a: Action)
    requires i < |s.starters| && CanStep(s.starters[i], s)
    ensures Closer(Apply(s, a), s)
  {
    hide StartStep, Closer, CanStep;
    StarterCloser(s, i);
    a := Start(i, true);
  }

  /** Somebody can always make progress: nothing is deadlocked. */
  lemma SomebodyCanStep(s: State) returns (a: Action)
    requires Inv(s) && !Quiet(s)
    ensures Closer(Apply(s, a), s)
  {
    hide Closer, Apply, Quiet, ContinueOwned, RunningOwned, StartedOwned, AllLinked, Awaited, IdOk, ResultOk;
    if s.runningMutex.Some? {
      a := HolderSteps(s);
    } else if LastPc(s.threads) != Finished {
      a := NewestSteps(s);
    } else {
      a := CallerSteps(s);
    }
  }

  /** From every reachable state everybody can finish. */
  lemma {:induction false} CanFinish(s: State) returns (actions: seq<Action>)
    requires Inv(s)
    ensures Quiet(RunAll(s, actions))
    decreases Makers(s.starters), Left(LastPc(s.threads)), Weights(s.starters, s.running)
  {
    hide Inv, Apply, Quiet, Makers, Left, LastPc, Weights;
    actions := [];
    if !Quiet(s) {
      var a := SomebodyCanStep(s);
      ApplyKeeps(s, a);
      var rest := CanFinish(Apply(s, a));
      actions := [a] + rest;
      assert actions[1..] == rest;
    }
  }

  /** No reachable state is a dead end: every call can still return and every thread end. */
  lemma NoDeadlock(n: nat, actions: seq<Action>)
    ensures exists more :: Quiet(RunAll(RunAll(Init(n), actions), more))
  {
    hide Inv, Init, RunAll, Quiet;
    InitInv(n);
    RunKeeps(Init(n), actions);
    var more := CanFinish(RunAll(Init(n), actions));
  }
}
