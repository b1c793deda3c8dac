/**
 * Camera status, its one fixed public listener, and the torch notes of CameraService.cpp as a state
 * machine. A step is one critical section, so other threads may run between any two steps.
 */
module CameraModel {

  type Id = string

  datatype Status = NotPresent | Present | Enumerating | NotAvailable | Unknown

  datatype Torch = TorchNotAvailable | AvailableOff | AvailableOn

  /** A CameraState object; threads may still hold it after its camera is gone. */
  datatype CameraState = CameraState(id: Id, status: Status)

  /** An entry of mTorchUidMap: the uid that asked last, and the uid that is charged. */
  datatype Uids = Uids(pending: int, current: int)

  datatype Book = Book(
    states: map<Id, nat>,             // mCameraStates, by position in objects
    objects: seq<CameraState>,        // every CameraState ever made
    delivered: map<Id, seq<Status>>,  // what the listener was told
    torch: map<Id, Torch>,            // mTorchStatusMap
    uids: map<Id, Uids>,              // mTorchUidMap
    notes: map<Id, set<int>>)         // uids noted on at the battery notifier and not yet off

  datatype Step =
    | Add(id: Id)
    | AddTorch(id: Id)
    | Commit(state: nat, status: Status, rejected: set<Status>)
    | RemoveTorch(id: Id)
    | Erase(id: Id)
    | TorchCallback(id: Id, torch: Torch)
    | SetUid(id: Id, uid: int)

  const EMPTY := Book(map[], [], map[], map[], map[], map[])

  function Told(b: Book, id: Id): seq<Status> {
    if id in b.delivered then b.delivered[id] else []
  }

  function Notes(b: Book, id: Id): set<int> {
    if id in b.notes then b.notes[id] else {}
  }

  /** Whether CameraState::updateStatus leaves a state as it is. */
  predicate Refused(was: Status, status: Status, rejected: set<Status>) {
    || was == status
    || (was == NotPresent && status != Present && status != Enumerating)
    || was in rejected
  }

  /** The states finishCameraOps does not leave. */
  const REJECTED: set<Status> := {Present, Enumerating, NotPresent}

  /** noteFlashlightOn and noteFlashlightOff. */
  function Note(notes: map<Id, set<int>>, id: Id, uid: int, on: bool): map<Id, set<int>> {
    var open := if id in notes then notes[id] else {};
    notes[id := if on then open + {uid} else open - {uid}]
  }

  /** The battery notes after a torch change of a camera that has a uid entry. */
  function Noted(notes: map<Id, set<int>>, id: Id, u: Uids, before: Torch, after: Torch): map<Id, set<int>> {
    if u.current != u.pending then
      var notes' := if before == AvailableOn then Note(notes, id, u.current, false) else notes;
      if after == AvailableOn then Note(notes', id, u.pending, true) else notes'
    else Note(notes, id, u.current, after == AvailableOn)
  }

  /** onTorchStatusChangedLocked. */
  function ChangeTorch(b: Book, id: Id, torch: Torch): Book {
    if id !in b.torch || b.torch[id] == torch then b
    else
      var b' := b.(torch := b.torch[id := torch]);
      if id in b.uids then
        b'.(uids := b.uids[id := Uids(b.uids[id].pending, b.uids[id].pending)],
            notes := Noted(b.notes, id, b.uids[id], b.torch[id], torch))
      else b'
  }

  /** What a status change means for the torch. */
  function TorchFor(b: Book, id: Id, status: Status): Book {
    if status == Enumerating then b
    else ChangeTorch(b, id, if status == Present then AvailableOff else TorchNotAvailable)
  }

  function CommitStatus(b: Book, k: nat, status: Status, rejected: set<Status>): Book {
    if k >= |b.objects| || Refused(b.objects[k].status, status, rejected) then b
    else
      var id := b.objects[k].id;
      TorchFor(b, id, status).(objects := b.objects[k := CameraState(id, status)],
                               delivered := b.delivered[id := Told(b, id) + [status]])
  }

  /** The first half of addStates: an entry that exists already is kept. */
  function AddState(b: Book, id: Id): Book {
    b.(objects := b.objects + [CameraState(id, NotPresent)],
       states := if id in b.states then b.states else b.states[id := |b.objects|])
  }

  /** The uid part of setTorchMode. */
  function SetTorchUid(b: Book, id: Id, uid: int): Book {
    b.(uids := b.uids[id := if id in b.uids then Uids(uid, b.uids[id].current) else Uids(uid, uid)])
  }

  function Apply(b: Book, step: Step): Book {
    match step
    case Add(id) => AddState(b, id)
    case AddTorch(id) => b.(torch := b.torch[id := AvailableOff])
    case Commit(k, status, rejected) => CommitStatus(b, k, status, rejected)
    case RemoveTorch(id) => b.(torch := b.torch - {id})
    case Erase(id) => b.(states := b.states - {id})
    case TorchCallback(id, torch) => ChangeTorch(b, id, torch)
    case SetUid(id, uid) => SetTorchUid(b, id, uid)
  }

  function Run(b: Book, steps: seq<Step>): Book
    decreases |steps|
  {
    if steps == [] then b else Run(Apply(b, steps[0]), steps[1..])
  }

  // ----- status -----------------------------------------------------------------

  /** A camera that is not in the map counts as not present. */
  function StatusOf(b: Book, id: Id): Status {
    if id in b.states && b.states[id] < |b.objects| then b.objects[b.states[id]].status else NotPresent
  }

  function Last(told: seq<Status>): Status {
    if told == [] then NotPresent else told[|told| - 1]
  }

  /** Each status differs from the one before, and after NotPresent only Present or Enumerating comes. */
  ghost predicate ProperHistory(told: seq<Status>) {
    && (|told| > 0 ==> told[0] == Present || told[0] == Enumerating)
    && (forall j :: 0 < j < |told| ==>
          && told[j - 1] != told[j]
          && (told[j - 1] == NotPresent ==> told[j] == Present || told[j] == Enumerating))
  }

  /** Objects are filed under their own id. */
  ghost predicate Filed(b: Book) {
    forall id :: id in b.states ==> b.states[id] < |b.objects| && b.objects[b.states[id]].id == id
  }

  /** The object is the camera's current one. */
  predicate Current(b: Book, k: nat) {
    k < |b.objects| && b.objects[k].id in b.states && b.states[b.objects[k].id] == k
  }

  /** Objects that were replaced or erased are not present. */
  ghost predicate StaleAbsent(b: Book) {
    forall k: nat :: k < |b.objects| && !Current(b, k) ==> b.objects[k].status == NotPresent
  }

  /** The listener's view of camera id is its status. */
  ghost predicate Mirrors(b: Book, id: Id) {
    Last(Told(b, id)) == StatusOf(b, id) && ProperHistory(Told(b, id))
  }

  ghost predicate Mirror(b: Book) {
    Filed(b) && StaleAbsent(b) && forall id :: Mirrors(b, id)
  }

  /** What keeps the mirror: only absent cameras are erased, and no change is committed to an object that is not current. */
  ghost predicate Orderly(b: Book, step: Step) {
    match step
    case Erase(id) => StatusOf(b, id) == NotPresent
    case Commit(k, status, rejected) => k < |b.objects| && !Current(b, k) ==> Refused(b.objects[k].status, status, rejected)
    case _ => true
  }

  lemma HistoryGrows(told: seq<Status>, status: Status)
    ensures ProperHistory(told + [status]) <==>
      ProperHistory(told) && Last(told) != status && (Last(told) == NotPresent ==> status == Present || status == Enumerating)
  {
    var more := told + [status];
    if ProperHistory(more) {
      forall j | 0 < j < |told|
        ensures told[j - 1] != told[j] && (told[j - 1] == NotPresent ==> told[j] == Present || told[j] == Enumerating)
      {
        assert more[j] == told[j] && more[j - 1] == told[j - 1];
      }
      assert |told| > 0 ==> more[0] == told[0] && more[|told|] == status && more[|told| - 1] == Last(told);
    }
  }

  ghost predicate AllMirror(b: Book) {
    forall id :: Mirrors(b, id)
  }

  lemma CommitMirrors(b: Book, k: nat, status: Status, rejected: set<Status>)
    requires Mirror(b) && Current(b, k) && !Refused(b.objects[k].status, status, rejected)
    ensures Mirror(CommitStatus(b, k, status, rejected))
  {
    var b' := CommitStatus(b, k, status, rejected);
    var camera := b.objects[k].id;
    TorchApart(b, camera, status);
    HistoryGrows(Told(b, camera), status);
    assert Mirrors(b, camera);
    hide TorchFor, ProperHistory, Refused;
    forall id
      ensures Mirrors(b', id)
    {
      assert Mirrors(b, id);
    }
  }

  /** Torch changes leave states and what the listener was told alone. */
  lemma TorchApart(b: Book, id: Id, status: Status)
    ensures var b' := TorchFor(b, id, status);
      b'.states == b.states && b'.objects == b.objects && b'.delivered == b.delivered
  {
  }

  /** The mirror depends on states, objects and deliveries alone. */
  lemma SameMirror(b: Book, b': Book)
    requires Mirror(b) && b'.states == b.states && b'.objects == b.objects && b'.delivered == b.delivered
    ensures Mirror(b')
  {
    hide ProperHistory, Last;
    forall id
      ensures Mirrors(b', id)
    {
      assert Mirrors(b, id);
    }
  }

  lemma ChangeTorchApart(b: Book, id: Id, torch: Torch)
    ensures var b' := ChangeTorch(b, id, torch);
      b'.states == b.states && b'.objects == b.objects && b'.delivered == b.delivered
  {
  }

  lemma AddMirrors(b: Book, id: Id)
    requires Mirror(b)
    ensures Mirror(AddState(b, id))
  {
    hide ProperHistory, Last;
    var b' := AddState(b, id);
    forall x
      ensures Mirrors(b', x)
    {
      assert Mirrors(b, x);
    }
  }

  lemma EraseMirrors(b: Book, id: Id)
    requires Mirror(b) && StatusOf(b, id) == NotPresent
    ensures Mirror(b.(states := b.states - {id}))
  {
    hide ProperHistory, Last;
    var b' := b.(states := b.states - {id});
    forall x
      ensures Mirrors(b', x)
    {
      assert Mirrors(b, x);
    }
  }

  /** An orderly step keeps the mirror. */
  lemma OrderlyMirrors(b: Book, step: Step)
    requires Mirror(b) && Orderly(b, step)
    ensures Mirror(Apply(b, step))
  {
    hide Mirror, ChangeTorch, AddState;
    match step
    case Add(id) => AddMirrors(b, id);
    case AddTorch(id) => SameMirror(b, Apply(b, step));
    case Commit(k, status, rejected) =>
      if k < |b.objects| && !Refused(b.objects[k].status, status, rejected) {
        CommitMirrors(b, k, status, rejected);
      }
    case RemoveTorch(id) => SameMirror(b, Apply(b, step));
    case Erase(id) => EraseMirrors(b, id);
    case TorchCallback(id, torch) =>
      ChangeTorchApart(b, id, torch);
      SameMirror(b, Apply(b, step));
    case SetUid(id, uid) => SameMirror(b, Apply(b, step));
  }

  /** The camera a step is about. */
  function Subject(b: Book, step: Step): Id {
    match step
    case Commit(k, _, _) => if k < |b.objects| then b.objects[k].id else ""
    case Add(id) => id
    case AddTorch(id) => id
    case RemoveTorch(id) => id
    case Erase(id) => id
    case TorchCallback(id, _) => id
    case SetUid(id, _) => id
  }

  /** Any other step breaks it for the camera it is about. */
  lemma DisorderlyBreaks(b: Book, step: Step)
    requires Mirror(b) && !Orderly(b, step)
    ensures !Mirrors(Apply(b, step), Subject(b, step))
  {
    assert Mirrors(b, Subject(b, step));
    match step
    case Commit(k, status, rejected) =>
      TorchApart(b, b.objects[k].id, status);
      HistoryGrows(Told(b, b.objects[k].id), status);
      hide TorchFor, ProperHistory;
    case Erase(id) =>
    case _ =>
  }

  /** The listener's view is right after a step if and only if the step is orderly. */
  lemma MirrorExactly(b: Book, step: Step)
    requires Mirror(b)
    ensures AllMirror(Apply(b, step)) <==> Orderly(b, step)
    ensures Orderly(b, step) ==> Mirror(Apply(b, step))
  {
    hide Apply, Orderly, Mirrors, Filed, StaleAbsent;
    if Orderly(b, step) {
      OrderlyMirrors(b, step);
    } else {
      DisorderlyBreaks(b, step);
    }
  }

  lemma EmptyMirrors()
    ensures Mirror(EMPTY)
  {
  }

  // ----- clients ---------------------------------------------------------------------

  /** What opening and closing commit. */
  predicate ByClient(step: Step) {
    step.Commit? && (step.status == NotAvailable || (step.status == Present && NotPresent in step.rejected))
  }

  lemma ClientOrderly(b: Book, step: Step)
    requires Mirror(b) && ByClient(step)
    ensures Orderly(b, step)
  {
  }

  // ----- torch charging ------------------------------------------------------------------

  /** At most the current uid has an open note, and only while the torch is on. */
  ghost predicate Charged(b: Book, id: Id) {
    Notes(b, id) != {} ==>
      && id in b.uids && Notes(b, id) == {b.uids[id].current}
      && id in b.torch && b.torch[id] == AvailableOn
  }

  ghost predicate AllCharged(b: Book) {
    forall id :: Charged(b, id)
  }

  predicate Lit(b: Book, id: Id) {
    id in b.torch && b.torch[id] == AvailableOn
  }

  /** What keeps the notes right, as the service can see it: the entry of a torch that is on is neither dropped nor reset. */
  predicate Settled(b: Book, step: Step) {
    match step
    case RemoveTorch(id) => !Lit(b, id)
    case AddTorch(id) => !Lit(b, id)
    case _ => true
  }

  lemma ChangeCharges(b: Book, id: Id, torch: Torch)
    requires Charged(b, id)
    ensures Charged(ChangeTorch(b, id, torch), id)
    ensures torch != AvailableOn && id in b.torch ==> Notes(ChangeTorch(b, id, torch), id) == {}
  {
  }

  /** When the torch goes on, the uid that asked last is charged and nobody else. */
  lemma LightingCharges(b: Book, id: Id)
    requires Charged(b, id) && id in b.torch && b.torch[id] != AvailableOn && id in b.uids
    ensures var b' := ChangeTorch(b, id, AvailableOn);
      Notes(b', id) == {b.uids[id].pending} && b'.uids[id].current == b.uids[id].pending
  {
  }

  /** A torch change concerns one camera. */
  lemma ChangeElsewhere(b: Book, id: Id, torch: Torch, other: Id)
    requires other != id
    ensures var b' := ChangeTorch(b, id, torch);
      && Notes(b', other) == Notes(b, other)
      && (other in b'.uids <==> other in b.uids) && (other in b.uids ==> b'.uids[other] == b.uids[other])
      && (other in b'.torch <==> other in b.torch) && (other in b.torch ==> b'.torch[other] == b.torch[other])
  {
  }

  lemma StepElsewhere(b: Book, step: Step, other: Id)
    requires other != Subject(b, step)
    ensures var b' := Apply(b, step);
      && Notes(b', other) == Notes(b, other)
      && (other in b'.uids <==> other in b.uids) && (other in b.uids ==> b'.uids[other] == b.uids[other])
      && (other in b'.torch <==> other in b.torch) && (other in b.torch ==> b'.torch[other] == b.torch[other])
  {
    hide ChangeTorch;
    match step
    case TorchCallback(id, torch) => ChangeElsewhere(b, id, torch, other);
    case Commit(k, status, _) =>
      if k < |b.objects| {
        ChangeElsewhere(b, b.objects[k].id, if status == Present then AvailableOff else TorchNotAvailable, other);
      }
    case _ =>
  }

  lemma SubjectCharged(b: Book, step: Step)
    requires Charged(b, Subject(b, step)) && Settled(b, step)
    ensures Charged(Apply(b, step), Subject(b, step))
  {
    match step
    case TorchCallback(id, torch) =>
      hide ChangeTorch, Charged;
      ChangeCharges(b, id, torch);
    case Commit(k, status, _) =>
      hide ChangeTorch;
      if k < |b.objects| {
        ChangeCharges(b, b.objects[k].id, if status == Present then AvailableOff else TorchNotAvailable);
      }
    case _ =>
  }

  /** A settled step keeps the notes right. */
  lemma SettledCharges(b: Book, step: Step)
    requires AllCharged(b) && Settled(b, step)
    ensures AllCharged(Apply(b, step))
  {
    hide Apply, Settled, Subject;
    assert Charged(b, Subject(b, step));
    SubjectCharged(b, step);
    forall id
      ensures Charged(Apply(b, step), id)
    {
      if id != Subject(b, step) {
        assert Charged(b, id);
        StepElsewhere(b, step, id);
      }
    }
  }

  /** A torch that is tracked gets the status the HAL reports, and no other torch changes. */
  lemma TorchReported(b: Book, id: Id, torch: Torch)
    ensures var b' := Apply(b, TorchCallback(id, torch));
      && b'.torch.Keys == b.torch.Keys
      && (id in b.torch ==> b'.torch[id] == torch)
      && forall x :: x in b.torch && x != id ==> b'.torch[x] == b.torch[x]
  {
  }

  /** Whoever asks for a torch that is not on is charged, alone, once the HAL reports it on, and no longer once it is off. */
  lemma AskedIsCharged(b: Book, id: Id, uid: int)
    requires Charged(b, id) && id in b.torch && !Lit(b, id)
    ensures var on := Apply(Apply(b, SetUid(id, uid)), TorchCallback(id, AvailableOn));
      && Notes(on, id) == {uid} && Lit(on, id)
      && Notes(Apply(on, TorchCallback(id, AvailableOff)), id) == {}
  {
    hide ChangeTorch, Notes;
    var asked := Apply(b, SetUid(id, uid));
    NotesAsked(b, id, uid);
    LightingCharges(asked, id);
    LitNow(asked, id);
    ChangeCharges(asked, id, AvailableOn);
    ChangeCharges(ChangeTorch(asked, id, AvailableOn), id, AvailableOff);
  }

  lemma NotesAsked(b: Book, id: Id, uid: int)
    requires Charged(b, id) && !Lit(b, id)
    ensures Notes(Apply(b, SetUid(id, uid)), id) == Notes(b, id) == {}
  {
  }

  lemma LitNow(b: Book, id: Id)
    requires id in b.torch
    ensures id in ChangeTorch(b, id, AvailableOn).torch && Lit(ChangeTorch(b, id, AvailableOn), id)
  {
  }

  /** The open notes are exactly those the service's own fields call for. */
  ghost predicate Tracked(b: Book, id: Id) {
    Notes(b, id) == if Lit(b, id) && id in b.uids then {b.uids[id].current} else {}
  }

  ghost predicate AllTracked(b: Book) {
    forall id :: Tracked(b, id)
  }

  lemma ChangeTracks(b: Book, id: Id, torch: Torch)
    requires Tracked(b, id)
    ensures Tracked(ChangeTorch(b, id, torch), id)
  {
  }

  lemma SubjectTracked(b: Book, step: Step)
    requires Tracked(b, Subject(b, step))
    ensures var id := Subject(b, step);
      Tracked(Apply(b, step), id) <==>
        match step
        case RemoveTorch(_) => !Lit(b, id) || id !in b.uids
        case AddTorch(_) => !Lit(b, id) || id !in b.uids
        case SetUid(_, _) => !Lit(b, id) || id in b.uids
        case _ => true
  {
    match step
    case TorchCallback(id, torch) =>
      hide ChangeTorch, Tracked;
      ChangeTracks(b, id, torch);
    case Commit(k, status, _) =>
      hide ChangeTorch;
      if k < |b.objects| {
        ChangeTracks(b, b.objects[k].id, if status == Present then AvailableOff else TorchNotAvailable);
      }
    case _ =>
  }

  /**
   * When the notes are what the service's fields call for, they stay so exactly unless the entry of
   * a torch that is on and has a uid is dropped or reset, or a first uid is recorded for a torch
   * that is on already.
   */
  lemma TrackedExactly(b: Book, step: Step)
    requires AllTracked(b)
    ensures AllTracked(Apply(b, step)) <==>
      match step
      case RemoveTorch(id) => !Lit(b, id) || id !in b.uids
      case AddTorch(id) => !Lit(b, id) || id !in b.uids
      case SetUid(id, _) => !Lit(b, id) || id in b.uids
      case _ => true
  {
    hide Apply, Tracked, Lit;
    assert Tracked(b, Subject(b, step));
    SubjectTracked(b, step);
    forall id
      ensures id != Subject(b, step) ==> Tracked(Apply(b, step), id)
    {
      if id != Subject(b, step) {
        TrackedElsewhere(b, step, id);
      }
    }
  }

  lemma TrackedElsewhere(b: Book, step: Step, id: Id)
    requires AllTracked(b) && id != Subject(b, step)
    ensures Tracked(Apply(b, step), id)
  {
    hide Apply, Subject;
    assert Tracked(b, id);
    StepElsewhere(b, step, id);
  }

  // ----- removal --------------------------------------------------------------------------

  /** The camera is not present on any object, its torch is not on and nobody is charged. */
  ghost predicate Gone(b: Book, id: Id) {
    && (forall k :: 0 <= k < |b.objects| && b.objects[k].id == id ==> b.objects[k].status == NotPresent)
    && (id in b.torch ==> b.torch[id] != AvailableOn)
    && Notes(b, id) == {}
  }

  /** Steps that other threads may take while a camera is being removed: anything but the HAL reporting on that camera. */
  predicate Undisturbing(b: Book, id: Id, step: Step) {
    ByClient(step) || step.SetUid? || Subject(b, step) != id
  }

  predicate UndisturbingRun(b: Book, id: Id, steps: seq<Step>)
    decreases |steps|
  {
    steps != [] ==> Undisturbing(b, id, steps[0]) && UndisturbingRun(Apply(b, steps[0]), id, steps[1..])
  }

  lemma GoneStays(b: Book, id: Id, step: Step)
    requires Gone(b, id) && Undisturbing(b, id, step)
    ensures Gone(Apply(b, step), id)
  {
    if Subject(b, step) != id {
      StepElsewhere(b, step, id);
      ObjectsElsewhere(b, step, id);
      hide Apply;
    }
  }

  lemma ObjectsElsewhere(b: Book, step: Step, id: Id)
    requires Subject(b, step) != id
    ensures var b' := Apply(b, step);
      forall k :: 0 <= k < |b'.objects| && b'.objects[k].id == id ==> k < |b.objects| && b'.objects[k] == b.objects[k]
  {
    match step
    case TorchCallback(i, torch) => ChangeTorchApart(b, i, torch);
    case Commit(k, status, _) =>
      if k < |b.objects| {
        TorchApart(b, b.objects[k].id, status);
      }
    case _ =>
  }

  lemma {:induction false} GoneRun(b: Book, id: Id, steps: seq<Step>)
    requires Gone(b, id) && UndisturbingRun(b, id, steps)
    ensures Gone(Run(b, steps), id)
    decreases |steps|
  {
    hide Gone, Apply, Undisturbing;
    if steps != [] {
      GoneStays(b, id, steps[0]);
      GoneRun(Apply(b, steps[0]), id, steps[1..]);
    }
  }

  lemma CommitGone(b: Book, id: Id)
    requires Mirror(b) && Charged(b, id) && id in b.states && StatusOf(b, id) != NotPresent
    ensures Gone(CommitStatus(b, b.states[id], NotPresent, {}), id)
  {
    var k := b.states[id];
    var b' := CommitStatus(b, k, NotPresent, {});
    ChangeCharges(b, id, TorchNotAvailable);
    TorchApart(b, id, NotPresent);
    forall j: nat | j < |b.objects| && b.objects[j].id == id && j != k
      ensures b.objects[j].status == NotPresent
    {
      assert !Current(b, j);
    }
    assert b'.objects == b.objects[k := CameraState(id, NotPresent)];
  }

  lemma {:induction false} RunFiled(b: Book, steps: seq<Step>)
    requires Filed(b)
    ensures Filed(Run(b, steps))
    decreases |steps|
  {
    hide Apply, Filed;
    if steps == [] {
      assert Run(b, steps) == b;
    } else {
      StepFiled(b, steps[0]);
      RunFiled(Apply(b, steps[0]), steps[1..]);
    }
  }

  lemma StepFiled(b: Book, step: Step)
    requires Filed(b)
    ensures Filed(Apply(b, step))
  {
    hide ChangeTorch;
    match step
    case TorchCallback(id, torch) => ChangeTorchApart(b, id, torch);
    case Commit(k, status, _) =>
      if k < |b.objects| {
        ChangeTorchApart(b, b.objects[k].id, if status == Present then AvailableOff else TorchNotAvailable);
      }
    case _ =>
  }

  /**
   * Unless the HAL reports on the camera again in the middle, removing a camera is orderly and
   * settled, whatever clients and other cameras do between its steps.
   */
  lemma UndisturbedRemoval(b: Book, id: Id, between: seq<Step>)
    requires Mirror(b) && AllCharged(b) && id in b.states && StatusOf(b, id) != NotPresent
    requires UndisturbingRun(CommitStatus(b, b.states[id], NotPresent, {}), id, between)
    ensures var b' := Run(CommitStatus(b, b.states[id], NotPresent, {}), between);
      Settled(b', RemoveTorch(id)) && Notes(b', id) == {} && Orderly(b', Erase(id))
  {
    StepFiled(b, Commit(b.states[id], NotPresent, {}));
    hide CommitStatus, Run, Filed, Mirrors, StaleAbsent, UndisturbingRun, Notes;
    assert Charged(b, id);
    CommitGone(b, id);
    GoneRun(CommitStatus(b, b.states[id], NotPresent, {}), id, between);
    RunFiled(CommitStatus(b, b.states[id], NotPresent, {}), between);
    GoneAbsent(Run(CommitStatus(b, b.states[id], NotPresent, {}), between), id);
  }

  lemma GoneAbsent(b: Book, id: Id)
    requires Gone(b, id) && Filed(b)
    ensures StatusOf(b, id) == NotPresent
  {
  }

  // ----- opening and closing ------------------------------------------------------------------

  /**
   * Opening a camera that is present, and closing it, tells the listener NOT_AVAILABLE and PRESENT;
   * in between its torch is not available and nobody is charged, and afterwards it is off. Other
   * cameras see nothing of it.
   */
  lemma OpenAndClose(b: Book, id: Id, other: Id)
    requires Filed(b) && Charged(b, id) && id in b.states && StatusOf(b, id) == Present && other != id
    ensures var open := Apply(b, Commit(b.states[id], NotAvailable, {}));
      var closed := Apply(open, Commit(b.states[id], Present, REJECTED));
      && StatusOf(open, id) == NotAvailable && Told(open, id) == Told(b, id) + [NotAvailable]
      && StatusOf(closed, id) == Present && Told(closed, id) == Told(b, id) + [NotAvailable, Present]
      && (id in b.torch ==> && id in open.torch && open.torch[id] == TorchNotAvailable && Notes(open, id) == {}
                            && id in closed.torch && closed.torch[id] == AvailableOff && Notes(closed, id) == {})
      && StatusOf(closed, other) == StatusOf(b, other) && Told(closed, other) == Told(b, other)
      && Notes(closed, other) == Notes(b, other)
      && (other in closed.torch <==> other in b.torch) && (other in b.torch ==> closed.torch[other] == b.torch[other])
  {
    var k := b.states[id];
    OneCommit(b, id, NotAvailable, {}, other);
    var open := Apply(b, Commit(k, NotAvailable, {}));
    OneCommit(open, id, Present, REJECTED, other);
    hide Apply, Notes, Filed;
  }

  /** A change that is not refused: status, notice and torch of its own camera, and nothing of another. */
  lemma OneCommit(b: Book, id: Id, status: Status, rejected: set<Status>, other: Id)
    requires Filed(b) && Charged(b, id) && id in b.states && other != id && status != Enumerating
    requires !Refused(b.objects[b.states[id]].status, status, rejected)
    ensures var b' := Apply(b, Commit(b.states[id], status, rejected));
      && Filed(b') && b'.states == b.states && Charged(b', id)
      && StatusOf(b', id) == status && Told(b', id) == Told(b, id) + [status]
      && (id in b.torch <==> id in b'.torch)
      && (id in b.torch ==> b'.torch[id] == (if status == Present then AvailableOff else TorchNotAvailable) && Notes(b', id) == {})
      && StatusOf(b', other) == StatusOf(b, other) && Told(b', other) == Told(b, other) && Notes(b', other) == Notes(b, other)
      && (other in b'.torch <==> other in b.torch) && (other in b.torch ==> b'.torch[other] == b.torch[other])
  {
    hide ChangeTorch;
    var k, torch := b.states[id], if status == Present then AvailableOff else TorchNotAvailable;
    StepFiled(b, Commit(k, status, rejected));
    ChangeTorchApart(b, id, torch);
    ChangeCharges(b, id, torch);
    ChangeElsewhere(b, id, torch, other);
    TorchSet(b, id, torch);
  }

  lemma TorchSet(b: Book, id: Id, torch: Torch)
    ensures var b' := ChangeTorch(b, id, torch);
      (id in b'.torch <==> id in b.torch) && (id in b.torch ==> b'.torch[id] == torch)
  {
  }

  // ----- what goes wrong otherwise -----------------------------------------------------------

  /** A camera with a flash that came up, whose torch uid 1000 has switched on, and that then went away. */
  const WENT_AWAY: seq<Step> := [Add("0"), AddTorch("0"), Commit(0, Present, {}), SetUid("0", 1000),
                                 TorchCallback("0", AvailableOn), Commit(0, NotPresent, {})]

  const ADDED := Book(map["0" := 0], [CameraState("0", NotPresent)], map[], map["0" := AvailableOff], map[], map[])
  const UP := ADDED.(objects := [CameraState("0", Present)], delivered := map["0" := [Present]])
  const ASKED := UP.(uids := map["0" := Uids(1000, 1000)])
  const LIT := ASKED.(torch := map["0" := AvailableOn], notes := map["0" := {1000}])
  const AWAY := LIT.(objects := [CameraState("0", NotPresent)], delivered := map["0" := [Present, NotPresent]],
                     torch := map["0" := TorchNotAvailable], notes := map["0" := {}])

  lemma FirstHalf()
    ensures Apply(Apply(EMPTY, WENT_AWAY[0]), WENT_AWAY[1]) == ADDED && Apply(ADDED, WENT_AWAY[2]) == UP
  {
    assert Told(ADDED, "0") + [Present] == [Present];
    assert EMPTY.objects + [CameraState("0", NotPresent)] == ADDED.objects;
  }

  lemma SecondHalf()
    ensures Apply(UP, WENT_AWAY[3]) == ASKED && Apply(ASKED, WENT_AWAY[4]) == LIT
  {
    assert Notes(ASKED, "0") + {1000} == {1000};
  }

  lemma LastStep()
    ensures Apply(LIT, WENT_AWAY[5]) == AWAY
  {
    assert Told(LIT, "0") + [NotPresent] == [Present, NotPresent];
    assert Notes(LIT, "0") - {1000} == {};
  }

  lemma WentAway()
    ensures Run(EMPTY, WENT_AWAY) == AWAY
  {
    hide Apply;
    FirstHalf();
    SecondHalf();
    LastStep();
    assert Run(EMPTY, WENT_AWAY) == Run(Apply(EMPTY, WENT_AWAY[0]), WENT_AWAY[1..]);
    assert WENT_AWAY[1..][1..] == WENT_AWAY[2..] && WENT_AWAY[2..][1..] == WENT_AWAY[3..];
    assert Run(Apply(EMPTY, WENT_AWAY[0]), WENT_AWAY[1..]) == Run(ADDED, WENT_AWAY[2..]);
    assert WENT_AWAY[3..][1..] == WENT_AWAY[4..] && WENT_AWAY[4..][1..] == WENT_AWAY[5..] && WENT_AWAY[5..][1..] == [];
    assert Run(LIT, WENT_AWAY[5..]) == AWAY;
  }

  /** A torch report between the two halves of a removal leaves uid 1000 charged for a torch nobody tracks. */
  lemma LateTorchLeaksNote()
    ensures var b := Apply(Apply(Run(EMPTY, WENT_AWAY), TorchCallback("0", AvailableOn)), RemoveTorch("0"));
      Notes(b, "0") == {1000} && "0" !in b.torch
  {
    WentAway();
    hide Run;
  }

  /** A status report there makes the listener believe in a camera that is gone. */
  lemma LatePresentBreaksMirror()
    ensures var b := Apply(Apply(Run(EMPTY, WENT_AWAY), Commit(0, Present, {})), Erase("0"));
      Last(Told(b, "0")) == Present && "0" !in b.states
  {
    WentAway();
    hide Run;
  }
}

/** The methods of CameraService.cpp that keep the book. */
module CameraStates {
  import opened CameraModel

  /** The steps of one uninterrupted report by the HAL; `open` says whether a client still has the camera. */
  function ReportSteps(b: Book, id: Id, status: Status, flash: bool, open: bool): seq<Step> {
    if id !in b.states then
      if status == Present then [Add(id)] + ((if flash then [AddTorch(id)] else []) + [Commit(|b.objects|, Present, {})]) else []
    else
      var k := b.states[id];
      if status == StatusOf(b, id) then []
      else if status == NotPresent then
        [Commit(k, NotPresent, {})]
        + ((if open then [Commit(k, Present, REJECTED)] else [])
           + ((if flash then [RemoveTorch(id)] else []) + [Erase(id)]))
      else [Commit(k, status, {})]
  }

  lemma RunNone(b: Book, step: Step)
    ensures Run(b, []) == b && Run(b, [step]) == Apply(b, step)
  {
    assert [step][1..] == [];
    hide Apply;
  }

  lemma RunMore(b: Book, step: Step, steps: seq<Step>)
    ensures Run(b, [step] + steps) == Run(Apply(b, step), steps)
  {
    assert ([step] + steps)[1..] == steps;
    hide Apply;
  }

  datatype TorchResult = TorchOk | IllegalArgument | CameraInUse | MaxCamerasInUse | InvalidOperation

  /** What the flashlight answers. */
  datatype Flashlight = FlashOk | NoSys | Busy | OtherError

  /** The checks setTorchMode makes before it touches anything. */
  function TorchRefusal(b: Book, id: Id, enabled: bool, binder: bool, systemOnly: bool): TorchResult {
    if (enabled && !binder) || systemOnly then IllegalArgument
    else if StatusOf(b, id) != Present && StatusOf(b, id) != NotAvailable then IllegalArgument
    else if id !in b.torch then IllegalArgument
    else if b.torch[id] == TorchNotAvailable then
      if StatusOf(b, id) == NotAvailable then CameraInUse else MaxCamerasInUse
    else TorchOk
  }

  /** A commit by a client keeps the book right. */
  lemma ClientCommit(b: Book, id: Id, status: Status, rejected: set<Status>)
    requires Mirror(b) && AllCharged(b) && id in b.states
    requires ByClient(Commit(b.states[id], status, rejected))
    ensures var b' := Apply(b, Commit(b.states[id], status, rejected));
      && Mirror(b') && AllCharged(b') && b'.states == b.states
      && StatusOf(b', id) == (if Refused(StatusOf(b, id), status, rejected) then StatusOf(b, id) else status)
      && (StatusOf(b, id) == NotPresent ==> b' == b)
  {
    var step := Commit(b.states[id], status, rejected);
    TorchApart(b, id, status);
    ClientOrderly(b, step);
    MirrorExactly(b, step);
    SettledCharges(b, step);
    hide TorchFor, Mirrors, AllCharged, Orderly;
  }

  /** Both halves of addStates. */
  function Added(b: Book, id: Id, flash: bool): Book {
    if flash then Apply(Apply(b, Add(id)), AddTorch(id)) else Apply(b, Add(id))
  }

  lemma ReportAdded(b: Book, id: Id, flash: bool)
    requires id !in b.states
    ensures var b' := Added(b, id, flash);
      |b'.objects| == |b.objects| + 1 && b'.states == b.states[id := |b.objects|]
      && b'.objects[|b.objects|] == CameraState(id, NotPresent)
  {
  }

  lemma RunAdded(b: Book, id: Id, flash: bool, commit: Step)
    ensures Run(b, [Add(id)] + ((if flash then [AddTorch(id)] else []) + [commit])) == Apply(Added(b, id, flash), commit)
  {
    hide Apply, Run;
    RunMore(b, Add(id), (if flash then [AddTorch(id)] else []) + [commit]);
    if flash {
      RunMore(Apply(b, Add(id)), AddTorch(id), [commit]);
    } else {
      assert [] + [commit] == [commit];
    }
    RunNone(Added(b, id, flash), commit);
  }

  class CameraService {
    var states: map<Id, nat>
    var objects: seq<CameraState>
    var delivered: map<Id, seq<Status>>
    var torch: map<Id, Torch>
    var uids: map<Id, Uids>
    var notes: map<Id, set<int>>

    function Book(): Book
      reads this
    {
      CameraModel.Book(states, objects, delivered, torch, uids, notes)
    }

    constructor ()
      ensures Book() == EMPTY && Mirror(Book()) && AllCharged(Book())
    {
      states, objects, delivered, torch, uids, notes := map[], [], map[], map[], map[], map[];
      new;
      EmptyMirrors();
    }

    method NoteFlashlight(id: Id, uid: int, on: bool)
      modifies `notes
      ensures notes == Note(old(notes), id, uid, on)
    {
      var open := if id in notes then notes[id] else {};
      notes := notes[id := if on then open + {uid} else open - {uid}];
    }

    method OnTorchStatusChangedLocked(id: Id, newStatus: Torch)
      modifies `torch, `uids, `notes
      ensures Book() == ChangeTorch(old(Book()), id, newStatus)
    {
      if id !in torch {
        return;
      }
      var status := torch[id];
      if status == newStatus {
        return;
      }
      torch := torch[id := newStatus];
      if id in uids {
        var oldUid, newUid := uids[id].current, uids[id].pending;
        if oldUid != newUid {
          if status == AvailableOn {
            NoteFlashlight(id, oldUid, false);
          }
          if newStatus == AvailableOn {
            NoteFlashlight(id, newUid, true);
          }
          uids := uids[id := uids[id].(current := newUid)];
        } else if newStatus == AvailableOn {
          NoteFlashlight(id, oldUid, true);
        } else {
          NoteFlashlight(id, oldUid, false);
        }
      }
    }

    /** The part of updateStatus that runs under the status lock once the change is accepted. */
    method OnStatusUpdated(id: Id, status: Status)
      modifies `torch, `uids, `notes, `delivered
      ensures Book() == TorchFor(old(Book()), id, status).(delivered := old(delivered)[id := Told(old(Book()), id) + [status]])
    {
      if status != Enumerating {
        if id in torch {
          var newTorchStatus := if status == Present then AvailableOff else TorchNotAvailable;
          if torch[id] != newTorchStatus {
            OnTorchStatusChangedLocked(id, newTorchStatus);
          }
        }
      }
      delivered := delivered[id := (if id in delivered then delivered[id] else []) + [status]];
    }

    /** CameraState::updateStatus: sets the status first and takes it back when the change is refused. */
    method UpdateState(k: nat, status: Status, rejected: set<Status>)
      requires k < |objects|
      modifies `objects, `torch, `uids, `notes, `delivered
      ensures Book() == Apply(old(Book()), Commit(k, status, rejected))
    {
      hide Apply, CommitStatus, TorchFor, Told;
      ghost var b := Book();
      CommitCases(b, k, status, rejected);
      var state := objects[k];
      objects := objects[k := state.(status := status)];
      if state.status == status {
        assert objects == old(objects);
        return;
      }
      if state.status == NotPresent && status != Present && status != Enumerating {
        objects := objects[k := state];
        assert objects == old(objects);
        return;
      }
      if state.status in rejected {
        objects := objects[k := state];
        assert objects == old(objects);
        return;
      }
      OnStatusUpdated(state.id, status);
    }

    method UpdateStatus(status: Status, id: Id, rejected: set<Status>)
      requires Filed(Book())
      modifies `objects, `torch, `uids, `notes, `delivered
      ensures Book() == if id in old(states) then Apply(old(Book()), Commit(old(states)[id], status, rejected)) else old(Book())
    {
      if id in states {
        UpdateState(states[id], status, rejected);
      }
    }

    /** A client that opens a camera, as far as the book is concerned. */
    method StartCameraOps(id: Id)
      requires Mirror(Book()) && AllCharged(Book())
      modifies `objects, `torch, `uids, `notes, `delivered
      ensures Mirror(Book()) && AllCharged(Book())
      ensures Book() == if id in old(states) then Apply(old(Book()), Commit(old(states)[id], NotAvailable, {})) else old(Book())
      ensures id in states && old(StatusOf(Book(), id)) != NotPresent ==> StatusOf(Book(), id) == NotAvailable
      ensures old(StatusOf(Book(), id)) == NotPresent ==> Book() == old(Book())
    {
      hide CommitStatus, TorchFor, ChangeTorch, AllMirror, Mirrors;
      ghost var b := Book();
      UpdateStatus(NotAvailable, id, {});
      if id in states {
        ClientCommit(b, id, NotAvailable, {});
      }
    }

    /** A client that closes it. */
    method FinishCameraOps(id: Id)
      requires Mirror(Book()) && AllCharged(Book())
      modifies `objects, `torch, `uids, `notes, `delivered
      ensures Mirror(Book()) && AllCharged(Book())
      ensures Book() == if id in old(states) then Apply(old(Book()), Commit(old(states)[id], Present, REJECTED)) else old(Book())
      ensures StatusOf(Book(), id) == if old(StatusOf(Book(), id)) in REJECTED then old(StatusOf(Book(), id)) else Present
      ensures old(StatusOf(Book(), id)) == NotPresent ==> Book() == old(Book())
    {
      hide CommitStatus, TorchFor, ChangeTorch, AllMirror, Mirrors;
      ghost var b := Book();
      UpdateStatus(Present, id, REJECTED);
      if id in states {
        ClientCommit(b, id, Present, REJECTED);
      }
    }

    /** setTorchMode up to and including the flashlight's answer, which comes last. */
    method SetTorchMode(id: Id, enabled: bool, uid: int, binder: bool, systemOnly: bool, light: Flashlight) returns (r: TorchResult)
      requires Filed(Book()) && AllCharged(Book())
      modifies `uids
      ensures var refusal := old(TorchRefusal(Book(), id, enabled, binder, systemOnly));
        && (refusal != TorchOk ==> r == refusal && Book() == old(Book()))
        && (refusal == TorchOk ==> Book() == Apply(old(Book()), SetUid(id, uid)) && uids[id].pending == uid)
        && (r == TorchOk <==> refusal == TorchOk && light == FlashOk)
      ensures AllCharged(Book())
    {
      ghost var b := Book();
      SettledCharges(b, SetUid(id, uid));
      hide AllCharged, Charged;
      if enabled && !binder {
        return IllegalArgument;
      }
      if systemOnly {
        return IllegalArgument;
      }
      if id !in states {
        return IllegalArgument;
      }
      var cameraStatus := objects[states[id]].status;
      if cameraStatus != Present && cameraStatus != NotAvailable {
        return IllegalArgument;
      }
      if id !in torch {
        return IllegalArgument;
      }
      if torch[id] == TorchNotAvailable {
        if cameraStatus == NotAvailable {
          return CameraInUse;
        } else {
          return MaxCamerasInUse;
        }
      }
      if id !in uids {
        uids := uids[id := Uids(uid, uid)];
      } else {
        uids := uids[id := uids[id].(pending := uid)];
      }
      match light
      case FlashOk => return TorchOk;
      case NoSys => return IllegalArgument;
      case Busy => return CameraInUse;
      case OtherError => return InvalidOperation;
    }

    method AddStates(id: Id, flash: bool)
      modifies `objects, `states, `torch
      ensures Book() == Added(old(Book()), id, flash)
    {
      objects := objects + [CameraState(id, NotPresent)];
      if id !in states {
        states := states[id := |objects| - 1];
      }
      if flash {
        torch := torch[id := AvailableOff];
      }
    }

    method RemoveTorchState(id: Id)
      modifies `torch
      ensures Book() == Apply(old(Book()), CameraModel.RemoveTorch(id))
    {
      torch := torch - {id};
    }

    method EraseState(id: Id)
      modifies `states
      ensures Book() == Apply(old(Book()), CameraModel.Erase(id))
    {
      states := states - {id};
    }

    /** The removal of a camera whose HAL says it is gone. */
    method Remove(id: Id, k: nat, flash: bool, open: bool)
      requires k < |objects|
      modifies this
      ensures Book() == Run(old(Book()), [Commit(k, NotPresent, {})]
        + ((if open then [Commit(k, Present, REJECTED)] else []) + ((if flash then [RemoveTorch(id)] else []) + [Erase(id)])))
    {
      hide Apply, Run;
      ghost var tail := (if flash then [RemoveTorch(id)] else []) + [Erase(id)];
      ghost var rest := (if open then [Commit(k, Present, REJECTED)] else []) + tail;
      RunMore(Book(), Commit(k, NotPresent, {}), rest);
      CommitSize(Book(), k, NotPresent, {});
      UpdateState(k, NotPresent, {});
      if open {
        RunMore(Book(), Commit(k, Present, REJECTED), tail);
        UpdateState(k, Present, REJECTED);
      } else {
        assert rest == tail;
      }
      if flash {
        RunMore(Book(), RemoveTorch(id), [Erase(id)]);
        RemoveTorchState(id);
      } else {
        assert tail == [Erase(id)];
      }
      RunNone(Book(), Erase(id));
      EraseState(id);
    }

    /** One report by the HAL on a camera, with nothing in between but the client it disconnects. */
    method OnDeviceStatusChanged(id: Id, newStatus: Status, flash: bool, open: bool)
      requires Filed(Book())
      modifies this
      ensures Book() == Run(old(Book()), ReportSteps(old(Book()), id, newStatus, flash, open))
    {
      hide Apply, Filed, Run;
      ghost var b := Book();
      ghost var steps := ReportSteps(b, id, newStatus, flash, open);
      FiledAt(b, id);
      if id !in states {
        if newStatus == Present {
          AddStates(id, flash);
          ReportAdded(b, id, flash);
          UpdateState(states[id], newStatus, {});
          RunAdded(b, id, flash, Commit(|b.objects|, Present, {}));
        } else {
          RunNone(b, Erase(id));
        }
        return;
      }
      var k := states[id];
      if objects[k].status == newStatus {
        RunNone(b, Erase(id));
        return;
      }
      if newStatus == NotPresent {
        Remove(id, k, flash, open);
      } else {
        UpdateState(k, newStatus, {});
        RunNone(b, Commit(k, newStatus, {}));
      }
    }
  }

  /** The object is set before the listener is told; the order does not show. */
  lemma CommitCases(b: Book, k: nat, status: Status, rejected: set<Status>)
    requires k < |b.objects|
    ensures var state, step := b.objects[k], Commit(k, status, rejected);
      var set' := b.(objects := b.objects[k := CameraState(state.id, status)]);
      && (Refused(state.status, status, rejected) ==> Apply(b, step) == b)
      && (!Refused(state.status, status, rejected) ==>
            Apply(b, step) == TorchFor(set', state.id, status).(delivered := b.delivered[state.id := Told(set', state.id) + [status]]))
  {
    hide TorchFor;
    TorchCommutes(b, b.objects[k].id, status, b.objects[k := CameraState(b.objects[k].id, status)]);
  }

  lemma TorchCommutes(b: Book, id: Id, status: Status, objects: seq<CameraState>)
    ensures TorchFor(b.(objects := objects), id, status) == TorchFor(b, id, status).(objects := objects)
    ensures TorchFor(b, id, status).delivered == b.delivered
  {
    hide ChangeTorch;
    ChangeCommutes(b, id, if status == Present then AvailableOff else TorchNotAvailable, objects);
  }

  lemma ChangeCommutes(b: Book, id: Id, torch: Torch, objects: seq<CameraState>)
    ensures ChangeTorch(b.(objects := objects), id, torch) == ChangeTorch(b, id, torch).(objects := objects)
    ensures ChangeTorch(b, id, torch).delivered == b.delivered
  {
    hide Noted;
    if id !in b.torch || b.torch[id] == torch {
    } else if id in b.uids {
    } else {
    }
  }

  lemma CommitSize(b: Book, k: nat, status: Status, rejected: set<Status>)
    ensures |Apply(b, Commit(k, status, rejected)).objects| == |b.objects|
  {
  }

  lemma FiledAt(b: Book, id: Id)
    requires Filed(b)
    ensures id in b.states ==> b.states[id] < |b.objects|
  {
  }

  // ----- one report, from end to end -------------------------------------------------------

  lemma ReportAbsent(b: Book, id: Id, status: Status, flash: bool, open: bool)
    requires Mirror(b) && AllCharged(b) && id !in b.states && !Lit(b, id)
    ensures var b' := Run(b, ReportSteps(b, id, status, flash, open));
      && Mirror(b') && AllCharged(b') && StatusOf(b', id) == (if status == Present then Present else NotPresent)
      && (status == Present ==> id in b'.states) && (status != Present ==> b' == b)
  {
    hide CommitStatus, Run, Mirror, AllCharged, Added;
    if status == Present {
      AddedRight(b, id, flash);
      ReportAdded(b, id, flash);
      HalCommit(Added(b, id, flash), id, Present);
      RunAdded(b, id, flash, Commit(|b.objects|, Present, {}));
    } else {
      RunNone(b, Erase(id));
    }
  }

  lemma AddedRight(b: Book, id: Id, flash: bool)
    requires Mirror(b) && AllCharged(b) && !Lit(b, id)
    ensures Mirror(Added(b, id, flash)) && AllCharged(Added(b, id, flash))
  {
    var b1 := Apply(b, Add(id));
    assert b1.torch == b.torch;
    hide Apply, Mirror, AllCharged, AllMirror;
    MirrorExactly(b, Add(id));
    SettledCharges(b, Add(id));
    MirrorExactly(b1, AddTorch(id));
    SettledCharges(b1, AddTorch(id));
  }

  /** A commit by the HAL on the camera's current object. */
  lemma HalCommit(b: Book, id: Id, status: Status)
    requires Mirror(b) && AllCharged(b) && id in b.states
    ensures var b' := Apply(b, Commit(b.states[id], status, {}));
      && Mirror(b') && AllCharged(b') && b'.states == b.states
      && StatusOf(b', id) == if Refused(StatusOf(b, id), status, {}) then StatusOf(b, id) else status
  {
    var step := Commit(b.states[id], status, {});
    TorchApart(b, id, status);
    MirrorExactly(b, step);
    SettledCharges(b, step);
    hide TorchFor, Mirrors, AllCharged;
  }

  lemma ReportRemoves(b: Book, id: Id, flash: bool, open: bool)
    requires Mirror(b) && AllCharged(b) && id in b.states && StatusOf(b, id) != NotPresent
    ensures var b' := Run(b, ReportSteps(b, id, NotPresent, flash, open));
      Mirror(b') && AllCharged(b') && id !in b'.states && Notes(b', id) == {} && !Lit(b', id)
  {
    hide CommitStatus, Run, Mirrors, AllCharged, TorchFor, ChangeTorch, ByClient, Notes;
    var k := b.states[id];
    var gone, close := Commit(k, NotPresent, {}), Commit(k, Present, REJECTED);
    var b1 := Apply(b, gone);
    assert Charged(b, id) by { ChargedAt(b, id); }
    CommitGone(b, id);
    HalCommit(b, id, NotPresent);
    var tail := (if flash then [RemoveTorch(id)] else []) + [Erase(id)];
    RunMore(b, gone, (if open then [close] else []) + tail);
    if open {
      RunMore(b1, close, tail);
      ClientIdle(b1, id);
    } else {
      assert [] + tail == tail;
    }
    RemovalTail(b1, id, flash);
  }

  lemma ChargedAt(b: Book, id: Id)
    requires AllCharged(b)
    ensures Charged(b, id)
  {
  }

  lemma ClientIdle(b: Book, id: Id)
    requires id in b.states && StatusOf(b, id) == NotPresent
    ensures Apply(b, Commit(b.states[id], Present, REJECTED)) == b
  {
  }

  lemma RemovalTail(b: Book, id: Id, flash: bool)
    requires Mirror(b) && AllCharged(b) && Gone(b, id) && StatusOf(b, id) == NotPresent
    ensures var b' := Run(b, (if flash then [RemoveTorch(id)] else []) + [Erase(id)]);
      Mirror(b') && AllCharged(b') && id !in b'.states && Notes(b', id) == {} && !Lit(b', id)
  {
    hide Run, Mirror, AllMirror, AllCharged;
    var b1 := if flash then Apply(b, RemoveTorch(id)) else b;
    if flash {
      MirrorExactly(b, RemoveTorch(id));
      SettledCharges(b, RemoveTorch(id));
      RunMore(b, RemoveTorch(id), [Erase(id)]);
    } else {
      assert [] + [Erase(id)] == [Erase(id)];
    }
    MirrorExactly(b1, Erase(id));
    SettledCharges(b1, Erase(id));
    RunNone(b1, Erase(id));
  }

  /**
   * A report that nothing interrupts keeps the listener's view and the notes right, and leaves the
   * camera in the reported state, except that an absent camera can only come up.
   */
  lemma ReportKeeps(b: Book, id: Id, status: Status, flash: bool, open: bool)
    requires Mirror(b) && AllCharged(b) && (id in b.states || !Lit(b, id))
    ensures var b' := Run(b, ReportSteps(b, id, status, flash, open));
      && Mirror(b') && AllCharged(b') && (id in b'.states || !Lit(b', id))
      && StatusOf(b', id) ==
         if id !in b.states then (if status == Present then Present else NotPresent)
         else if StatusOf(b, id) == NotPresent && status != Present && status != Enumerating then NotPresent
         else status
  {
    hide CommitStatus, Run, Mirrors, AllCharged, Notes, Lit;
    if id !in b.states {
      ReportAbsent(b, id, status, flash, open);
    } else if status == StatusOf(b, id) {
      RunNone(b, Erase(id));
    } else if status == NotPresent {
      ReportRemoves(b, id, flash, open);
    } else {
      HalCommit(b, id, status);
      RunNone(b, Commit(b.states[id], status, {}));
    }
  }
}
