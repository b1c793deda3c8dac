/**
 * The decode queue of AnsyncDecoder.c: a ring of slots between one producer, which polls, and
 * one consumer thread, with nothing between them but each slot's need_read flag. Every shared
 * read and write is a step of its own; a run is any interleaving of steps.
 */
module DecodeQueue {
  import opened Bits
  import opened CircularLists
  import opened Wrappers

  /** What AnsyncDecoder_ReceiveData is given; media 1 is video, 2 is audio. */
  datatype Frame = Frame(media: int, timestamp: int, bytes: seq<byte>)

  /** BufferData: head owns an allocation of maxLen bytes and data points offset bytes into it. */
  datatype Slot = Slot(needRead: bool, media: int, timestamp: int, len: nat, head: Option<nat>, offset: nat, maxLen: nat)

  /** A frame that was dropped, and the ring at that moment. */
  datatype Drop = Drop(f: Frame, ring: seq<Slot>)

  /** Where the producer is in AnsyncDecoder_ReceiveData. */
  datatype Producer =
    | Idle
    | Poll(f: Frame, count: int)
    | Check(f: Frame)
    | Free(f: Frame)
    | Alloc(f: Frame)
    | Fields(f: Frame)
    | Copy(f: Frame)
    | Publish(f: Frame)
    | Advance
    | Count

  /** Where the consumer is in decode_thread_func. */
  datatype Consumer =
    | Start
    | Loop
    | Look
    | Media
    | Decode(media: int)
    | Bytes(media: int, timestamp: int, len: nat, head: Option<nat>, offset: nat)
    | CountDecoded
    | Clear
    | Next
    | Done

  datatype State = State(
    slots: seq<Slot>, heap: map<nat, seq<byte>>, nextId: nat,
    write: nat, read: nat, producer: Producer, consumer: Consumer,
    running: bool, quit: bool, cntRcv: nat, cntDec: nat,
    // history
    calls: seq<Frame>,       // arguments of the calls that published
    accepted: seq<Frame>,    // slot contents at each publication
    decoded: seq<Frame>,     // what the consumer took
    cleared: nat,
    drops: seq<Drop>,        // the calls that gave up
    faulted: bool)           // some access left its allocation

  /** What can happen next. */
  datatype Action =
    | Call(f: Frame)
    | StepProducer(junk: seq<byte>)
    | StepConsumer
    | Quit

  const SPARE: nat := 256

  function Init(n: nat): State {
    State(Repeat(Slot(false, 0, 0, 0, None, 0, 0), n), map[], 0, 0, 0, Idle, Start, false, false, 0, 0,
          [], [], [], 0, [], false)
  }

  /** The bytes data..data+len, if they lie inside a live allocation. */
  function Load(heap: map<nat, seq<byte>>, head: Option<nat>, offset: nat, len: nat): Option<seq<byte>> {
    if head.Some? && head.value in heap && offset + len <= |heap[head.value]| then
      Some(heap[head.value][offset..offset + len])
    else None
  }

  /** What a consumer makes of a slot. */
  function Content(heap: map<nat, seq<byte>>, s: Slot): Frame {
    var bytes := if s.media == 1 || s.media == 2 then Load(heap, s.head, s.offset, s.len) else None;
    Frame(s.media, s.timestamp, if bytes.Some? then bytes.value else [])
  }

  /** The size the producer asks malloc for; extra is sps_length + pps_length. */
  function Needed(f: Frame, extra: nat): nat {
    if f.media == 1 then |f.bytes| + extra + SPARE else |f.bytes|
  }

  function DataOffset(f: Frame, extra: nat): nat {
    if f.media == 1 then extra else 0
  }

  predicate IsMedia(f: Frame) {
    f.media == 1 || f.media == 2
  }

  /** Waits while the slot is unread, at most count times more. */
  function PollStep(s: State, slot: Slot, f: Frame, count: int): (r: State)
    ensures |r.slots| == |s.slots|
  {
    if slot.needRead && count > 0 then s.(producer := Poll(f, count - 1)) else s.(producer := Check(f))
  }

  /** Drops the frame if the slot is still unread. */
  function CheckStep(s: State, slot: Slot, f: Frame): (r: State)
    ensures |r.slots| == |s.slots|
  {
    if slot.needRead then s.(producer := Idle, drops := s.drops + [Drop(f, s.slots)])
    else if IsMedia(f) then s.(producer := Free(f))
    else s.(producer := Publish(f))
  }

  /** Frees a buffer that is too small. */
  function FreeStep(s: State, slot: Slot, f: Frame, extra: nat): (r: State)
    requires s.write < |s.slots|
    ensures |r.slots| == |s.slots|
  {
    if slot.head.Some? && slot.maxLen < Needed(f, extra) then
      s.(slots := s.slots[s.write := slot.(head := None, maxLen := 0)],
         heap := s.heap - {slot.head.value}, faulted := s.faulted || slot.head.value !in s.heap, producer := Alloc(f))
    else s.(producer := Alloc(f))
  }

  /** A new allocation holds whatever was there before. */
  function Block(junk: seq<byte>, size: nat): (b: seq<byte>)
    ensures |b| == size
  {
    if |junk| == size then junk else Repeat(0, size)
  }

  function AllocStep(s: State, slot: Slot, f: Frame, extra: nat, junk: seq<byte>): (r: State)
    requires s.write < |s.slots|
    ensures |r.slots| == |s.slots|
  {
    if slot.head.None? then
      s.(slots := s.slots[s.write := slot.(head := Some(s.nextId), maxLen := Needed(f, extra))],
         heap := s.heap[s.nextId := Block(junk, Needed(f, extra))], nextId := s.nextId + 1, producer := Fields(f))
    else s.(producer := Fields(f))
  }

  function FieldsStep(s: State, slot: Slot, f: Frame, extra: nat): (r: State)
    requires s.write < |s.slots|
    ensures |r.slots| == |s.slots|
  {
    var x := slot.(media := f.media, len := |f.bytes|, timestamp := f.timestamp, offset := DataOffset(f, extra));
    s.(slots := s.slots[s.write := x], producer := Copy(f))
  }

  /** block with bytes written at offset. */
  function Patch(block: seq<byte>, offset: nat, bytes: seq<byte>): (b: seq<byte>)
    requires offset + |bytes| <= |block|
    ensures |b| == |block|
    ensures b[offset..offset + |bytes|] == bytes
  {
    block[..offset] + bytes + block[offset + |bytes|..]
  }

  function CopyStep(s: State, slot: Slot, f: Frame): (r: State)
    ensures |r.slots| == |s.slots|
  {
    if Load(s.heap, slot.head, slot.offset, |f.bytes|).Some? then
      s.(heap := s.heap[slot.head.value := Patch(s.heap[slot.head.value], slot.offset, f.bytes)], producer := Publish(f))
    else s.(faulted := true, producer := Publish(f))
  }

  function PublishStep(s: State, slot: Slot, f: Frame): (r: State)
    requires s.write < |s.slots|
    ensures |r.slots| == |s.slots|
  {
    s.(slots := s.slots[s.write := slot.(needRead := true)],
       producer := Advance, calls := s.calls + [f], accepted := s.accepted + [Content(s.heap, slot)])
  }

  function ProducerStep(s: State, extra: nat, junk: seq<byte>): (r: State)
    requires s.write < |s.slots|
    ensures |r.slots| == |s.slots|
  {
    var slot := s.slots[s.write];
    match s.producer
    case Idle => s
    case Poll(f, count) => PollStep(s, slot, f, count)
    case Check(f) => CheckStep(s, slot, f)
    case Free(f) => FreeStep(s, slot, f, extra)
    case Alloc(f) => AllocStep(s, slot, f, extra, junk)
    case Fields(f) => FieldsStep(s, slot, f, extra)
    case Copy(f) => CopyStep(s, slot, f)
    case Publish(f) => PublishStep(s, slot, f)
    case Advance => s.(write := After(s.write, |s.slots|), producer := Count)
    case Count => s.(cntRcv := s.cntRcv + 1, producer := Idle)
  }

  /** decode_video_node looks at data[4] before it looks at anything else. */
  function DecodeStep(s: State, slot: Slot, media: int): (r: State)
    ensures |r.slots| == |s.slots|
  {
    if media == 1 || media == 2 then
      var bad := media == 1 && Load(s.heap, slot.head, slot.offset + 4, 1).None?;
      s.(consumer := Bytes(media, slot.timestamp, slot.len, slot.head, slot.offset), faulted := s.faulted || bad)
    else s.(decoded := s.decoded + [Frame(media, slot.timestamp, [])], consumer := CountDecoded)
  }

  function BytesStep(s: State, media: int, timestamp: int, len: nat, head: Option<nat>, offset: nat): (r: State)
    ensures |r.slots| == |s.slots|
  {
    var bytes := Load(s.heap, head, offset, len);
    s.(decoded := s.decoded + [Frame(media, timestamp, if bytes.Some? then bytes.value else [])],
       faulted := s.faulted || bytes.None?, consumer := CountDecoded)
  }

  function ClearStep(s: State, slot: Slot): (r: State)
    requires s.read < |s.slots|
    ensures |r.slots| == |s.slots|
  {
    s.(slots := s.slots[s.read := slot.(needRead := false)], cleared := s.cleared + 1, consumer := Next)
  }

  function ConsumerStep(s: State): (r: State)
    requires s.read < |s.slots|
    ensures |r.slots| == |s.slots|
  {
    var slot := s.slots[s.read];
    match s.consumer
    case Start => s.(running := true, consumer := Loop)
    case Loop => if s.quit then s.(running := false, consumer := Done) else s.(consumer := Look)
    case Look => if slot.needRead then s.(consumer := Media) else s.(consumer := Loop)
    case Media => s.(consumer := Decode(slot.media))
    case Decode(media) => DecodeStep(s, slot, media)
    case Bytes(media, timestamp, len, head, offset) => BytesStep(s, media, timestamp, len, head, offset)
    case CountDecoded => s.(cntDec := s.cntDec + 1, consumer := Clear)
    case Clear => ClearStep(s, slot)
    case Next => s.(read := After(s.read, |s.slots|), consumer := Loop)
    case Done => s
  }

  /** One step; actions that are not possible change nothing. */
  function Apply(s: State, extra: nat, a: Action): (r: State)
    ensures |r.slots| == |s.slots|
  {
    match a
    case Call(f) => if s.producer.Idle? && s.running then s.(producer := Poll(f, 20)) else s
    case StepProducer(junk) => if s.write < |s.slots| then ProducerStep(s, extra, junk) else s
    case StepConsumer => if s.read < |s.slots| then ConsumerStep(s) else s
    case Quit => if s.producer.Idle? then s.(quit := true) else s
  }

  function Run(s: State, extra: nat, actions: seq<Action>): State
    decreases |actions|
  {
    if actions == [] then s else Run(Apply(s, extra, actions[0]), extra, actions[1..])
  }

  // ----- the invariant -------------------------------------------------------

  /** How many places slot i lies after slot b. */
  function Dist(b: nat, i: nat, n: nat): int {
    if b <= i then i - b else i - b + n
  }

  /** The slot d places after b; before b when d is -1. */
  function Place(b: nat, d: int, n: nat): int {
    if b + d < 0 then b + d + n else if b + d < n then b + d else b + d - n
  }

  /** The oldest unread slot, or the one that will be. */
  function Oldest(s: State): nat {
    if s.consumer.Next? then After(s.read, |s.slots|) else s.read
  }

  /** Published and not yet cleared. */
  function Pending(s: State): int {
    |s.accepted| - s.cleared
  }

  /** How many accepted frames the consumer has taken. */
  function Taken(s: State): nat {
    if s.consumer.CountDecoded? || s.consumer.Clear? then s.cleared + 1 else s.cleared
  }

  /** The cursors and counters agree with the history. */
  ghost predicate Shape(s: State) {
    && s.write < |s.slots| && s.read < |s.slots|
    && 0 <= Pending(s) <= |s.slots|
    && s.write == Place(Oldest(s), if s.producer.Advance? then Pending(s) - 1 else Pending(s), |s.slots|)
    && s.cntRcv + (if s.producer.Advance? || s.producer.Count? then 1 else 0) == |s.accepted|
    && s.cntDec + (if s.consumer.CountDecoded? then 1 else 0) == |s.decoded|
    && (Taking(s.consumer) ==> s.slots[s.read].needRead)
  }

  /** The producer holds a free slot while it fills it. */
  predicate Filling(p: Producer) {
    p.Free? || p.Alloc? || p.Fields? || p.Copy? || p.Publish?
  }

  /** The consumer has seen need_read and has not cleared it. */
  predicate Taking(c: Consumer) {
    c.Media? || c.Decode? || c.Bytes? || c.CountDecoded? || c.Clear?
  }

  /** The unread slots are exactly the pending ones from the oldest on, and hold the frames accepted, in order. */
  ghost predicate Window(slots: seq<Slot>, heap: map<nat, seq<byte>>, accepted: seq<Frame>, cleared: nat, oldest: nat) {
    forall i :: 0 <= i < |slots| ==>
      && (slots[i].needRead <==> Dist(oldest, i, |slots|) < |accepted| - cleared)
      && (slots[i].needRead ==> 0 <= cleared + Dist(oldest, i, |slots|) < |accepted|
                                && Content(heap, slots[i]) == accepted[cleared + Dist(oldest, i, |slots|)])
  }

  /** Every allocation belongs to exactly one slot and is as long as that slot's max_len says. */
  ghost predicate Owned(slots: seq<Slot>, heap: map<nat, seq<byte>>, nextId: nat) {
    && (forall i :: 0 <= i < |slots| && slots[i].head.Some? ==>
          slots[i].head.value in heap && |heap[slots[i].head.value]| == slots[i].maxLen && slots[i].head.value < nextId)
    && (forall i, j :: 0 <= i < j < |slots| && slots[i].head.Some? ==> slots[i].head != slots[j].head)
    && (forall h :: h in heap ==> exists i :: 0 <= i < |slots| && slots[i].head == Some(h))
  }

  /** data + len lies inside the allocation, with SPARE more bytes for video. */
  predicate Fits(slot: Slot) {
    && (slot.media == 1 ==> slot.head.Some? && slot.offset + slot.len + SPARE <= slot.maxLen)
    && (slot.media == 2 ==> slot.head.Some? && slot.offset + slot.len <= slot.maxLen)
  }

  ghost predicate AllFit(slots: seq<Slot>, except: int) {
    forall i :: 0 <= i < |slots| && i != except ==> Fits(slots[i])
  }

  /** The slot whose fields are only half written, if any. */
  function HalfWritten(s: State): int {
    if s.producer.Alloc? || s.producer.Fields? then s.write else -1
  }

  /** What the producer knows about the slot it is filling. */
  ghost predicate ProducerKnows(p: Producer, slot: Slot, heap: map<nat, seq<byte>>, extra: nat) {
    match p
    case Free(f) => IsMedia(f)
    case Alloc(f) => IsMedia(f) && (slot.head.Some? ==> Needed(f, extra) <= slot.maxLen)
    case Fields(f) => IsMedia(f) && slot.head.Some? && Needed(f, extra) <= slot.maxLen
    case Copy(f) => IsMedia(f) && slot.media == f.media && slot.len == |f.bytes| && slot.timestamp == f.timestamp
    case Publish(f) => IsMedia(f) ==> Content(heap, slot) == f
    case _ => true
  }

  /** The consumer's copies of the slot's fields are still what the slot says. */
  predicate ConsumerKnows(c: Consumer, slot: Slot) {
    match c
    case Decode(media) => media == slot.media
    case Bytes(media, timestamp, len, head, offset) =>
      (media == 1 || media == 2) && media == slot.media && timestamp == slot.timestamp && len == slot.len
      && head == slot.head && offset == slot.offset
    case _ => true
  }

  /** decoded is the part of accepted taken so far; what was accepted is what was passed in. */
  ghost predicate History(decoded: seq<Frame>, accepted: seq<Frame>, taken: nat, calls: seq<Frame>, drops: seq<Drop>) {
    && taken <= |accepted| && decoded == accepted[..taken]
    && |calls| == |accepted|
    && (forall i :: 0 <= i < |calls| && IsMedia(calls[i]) ==> accepted[i] == calls[i])
    && (forall k :: 0 <= k < |drops| ==> AllUnread(drops[k].ring))
  }

  ghost predicate AllUnread(slots: seq<Slot>) {
    forall i :: 0 <= i < |slots| ==> slots[i].needRead
  }

  ghost predicate Inv(s: State, extra: nat) {
    && Shape(s)
    && Window(s.slots, s.heap, s.accepted, s.cleared, Oldest(s))
    && Owned(s.slots, s.heap, s.nextId)
    && AllFit(s.slots, HalfWritten(s))
    && (Filling(s.producer) ==> !s.slots[s.write].needRead)
    && ProducerKnows(s.producer, s.slots[s.write], s.heap, extra)
    && ConsumerKnows(s.consumer, s.slots[s.read])
    && History(s.decoded, s.accepted, Taken(s), s.calls, s.drops)
    && !s.faulted
  }

  // ----- each step keeps the invariant ------------------------------------------

  lemma InitInv(n: nat, extra: nat)
    requires n > 0
    ensures Inv(Init(n), extra)
  {
  }

  lemma PollKeeps(s: State, extra: nat, f: Frame, count: int)
    requires Inv(s, extra) && s.producer == Poll(f, count)
    ensures Inv(PollStep(s, s.slots[s.write], f, count), extra)
  {
    hide Window, Owned, Content, Load, Fits;
  }

  lemma FullWhenBlocked(s: State)
    requires Shape(s) && !s.producer.Advance? && s.slots[s.write].needRead
    requires Window(s.slots, s.heap, s.accepted, s.cleared, Oldest(s))
    ensures AllUnread(s.slots)
  {
    hide Content;
  }

  lemma HistoryDrop(decoded: seq<Frame>, accepted: seq<Frame>, taken: nat, calls: seq<Frame>, drops: seq<Drop>, drop: Drop)
    requires History(decoded, accepted, taken, calls, drops) && AllUnread(drop.ring)
    ensures History(decoded, accepted, taken, calls, drops + [drop])
  {
    hide AllUnread;
  }

  lemma DropKeeps(s: State, extra: nat, f: Frame)
    requires Inv(s, extra) && s.producer == Check(f) && s.slots[s.write].needRead
    ensures Inv(CheckStep(s, s.slots[s.write], f), extra)
  {
    FullWhenBlocked(s);
    HistoryDrop(s.decoded, s.accepted, Taken(s), s.calls, s.drops, Drop(f, s.slots));
    hide Window, Owned, Fits, AllFit, AllUnread, History, Dist, Place, After, IsMedia, Content;
  }

  lemma CheckKeeps(s: State, extra: nat, f: Frame)
    requires Inv(s, extra) && s.producer == Check(f) && !s.slots[s.write].needRead
    ensures Inv(CheckStep(s, s.slots[s.write], f), extra)
  {
    hide Window, Owned, Fits, AllFit, AllUnread, History, Dist, Place, After, Load, Content;
  }

  /** Content of the other slots survives a change that spares their allocations. */
  ghost predicate Spared(slots: seq<Slot>, heap: map<nat, seq<byte>>, heap': map<nat, seq<byte>>, w: nat) {
    forall i :: 0 <= i < |slots| && i != w ==> Content(heap', slots[i]) == Content(heap, slots[i])
  }

  lemma SparedByOwner(slots: seq<Slot>, heap: map<nat, seq<byte>>, heap': map<nat, seq<byte>>, nextId: nat, w: nat)
    requires Owned(slots, heap, nextId) && w < |slots|
    requires forall h :: h < nextId && slots[w].head != Some(h) ==> (h in heap' <==> h in heap) && (h in heap ==> heap'[h] == heap[h])
    ensures Spared(slots, heap, heap', w)
  {
    forall i | 0 <= i < |slots| && i != w
      ensures Content(heap', slots[i]) == Content(heap, slots[i])
    {
      if slots[i].head.Some? {
        assert slots[w].head != slots[i].head;
      }
    }
  }

  /** A free slot may be refilled: the unread ones stay as they are. */
  lemma WindowRefill(slots: seq<Slot>, heap: map<nat, seq<byte>>, accepted: seq<Frame>, cleared: nat, oldest: nat,
                     heap': map<nat, seq<byte>>, w: nat, x: Slot)
    requires Window(slots, heap, accepted, cleared, oldest)
    requires w < |slots| && !slots[w].needRead && !x.needRead
    requires Spared(slots, heap, heap', w)
    ensures Window(slots[w := x], heap', accepted, cleared, oldest)
  {
    hide Content;
  }

  lemma OwnedFree(slots: seq<Slot>, heap: map<nat, seq<byte>>, nextId: nat, w: nat)
    requires Owned(slots, heap, nextId) && w < |slots| && slots[w].head.Some?
    ensures Owned(slots[w := slots[w].(head := None, maxLen := 0)], heap - {slots[w].head.value}, nextId)
  {
    var slots', heap' := slots[w := slots[w].(head := None, maxLen := 0)], heap - {slots[w].head.value};
    forall h | h in heap'
      ensures exists i :: 0 <= i < |slots'| && slots'[i].head == Some(h)
    {
      var i :| 0 <= i < |slots| && slots[i].head == Some(h);
      assert slots'[i].head == Some(h);
    }
  }

  lemma OwnedAlloc(slots: seq<Slot>, heap: map<nat, seq<byte>>, nextId: nat, w: nat, block: seq<byte>)
    requires Owned(slots, heap, nextId) && w < |slots| && slots[w].head.None?
    ensures Owned(slots[w := slots[w].(head := Some(nextId), maxLen := |block|)], heap[nextId := block], nextId + 1)
  {
    var slots', heap' := slots[w := slots[w].(head := Some(nextId), maxLen := |block|)], heap[nextId := block];
    assert slots'[w].head == Some(nextId);
    forall h | h in heap'
      ensures exists i :: 0 <= i < |slots'| && slots'[i].head == Some(h)
    {
      if h != nextId {
        var i :| 0 <= i < |slots| && slots[i].head == Some(h);
        assert slots'[i].head == Some(h);
      }
    }
  }

  /** Writing fields that Owned does not mention, or bytes inside a block, changes no ownership. */
  lemma OwnedSame(slots: seq<Slot>, heap: map<nat, seq<byte>>, nextId: nat, w: nat, x: Slot, heap': map<nat, seq<byte>>)
    requires Owned(slots, heap, nextId) && w < |slots| && x.head == slots[w].head && x.maxLen == slots[w].maxLen
    requires heap'.Keys == heap.Keys && forall h :: h in heap ==> |heap'[h]| == |heap[h]|
    ensures Owned(slots[w := x], heap', nextId)
  {
    var slots' := slots[w := x];
    forall h | h in heap'
      ensures exists i :: 0 <= i < |slots'| && slots'[i].head == Some(h)
    {
      var i := OwnerOf(slots, heap, nextId, h);
      assert slots'[i].head == Some(h);
    }
  }

  lemma OwnerOf(slots: seq<Slot>, heap: map<nat, seq<byte>>, nextId: nat, h: nat) returns (i: nat)
    requires Owned(slots, heap, nextId) && h in heap
    ensures i < |slots| && slots[i].head == Some(h)
  {
    i :| i < |slots| && slots[i].head == Some(h);
  }

  lemma HeadOwned(slots: seq<Slot>, heap: map<nat, seq<byte>>, nextId: nat, w: nat)
    requires Owned(slots, heap, nextId) && w < |slots| && slots[w].head.Some?
    ensures slots[w].head.value in heap && |heap[slots[w].head.value]| == slots[w].maxLen
  {
  }

  lemma FreeKeeps(s: State, extra: nat, f: Frame)
    requires Inv(s, extra) && s.producer == Free(f)
    requires s.slots[s.write].head.Some? && s.slots[s.write].maxLen < Needed(f, extra)
    ensures Inv(FreeStep(s, s.slots[s.write], f, extra), extra)
  {
    hide Window, Content, Owned, Fits, History, Needed, Dist, Place, After, IsMedia;
    var slot := s.slots[s.write];
    HeadOwned(s.slots, s.heap, s.nextId, s.write);
    SparedByOwner(s.slots, s.heap, s.heap - {slot.head.value}, s.nextId, s.write);
    WindowRefill(s.slots, s.heap, s.accepted, s.cleared, Oldest(s), s.heap - {slot.head.value}, s.write,
                 slot.(head := None, maxLen := 0));
    OwnedFree(s.slots, s.heap, s.nextId, s.write);
  }

  lemma ReuseKeeps(s: State, extra: nat, f: Frame)
    requires Inv(s, extra) && s.producer == Free(f)
    requires s.slots[s.write].head.None? || s.slots[s.write].maxLen >= Needed(f, extra)
    ensures Inv(FreeStep(s, s.slots[s.write], f, extra), extra)
  {
    hide Window, Content, Owned, Fits, History, Needed, Dist, Place, After, IsMedia;
  }

  lemma AllocKeeps(s: State, extra: nat, f: Frame, junk: seq<byte>)
    requires Inv(s, extra) && s.producer == Alloc(f)
    requires s.slots[s.write].head.None?
    ensures Inv(AllocStep(s, s.slots[s.write], f, extra, junk), extra)
  {
    hide Window, Content, Fits, History, Dist, Place, After, IsMedia, Block;
    var block := Block(junk, Needed(f, extra));
    var x := s.slots[s.write].(head := Some(s.nextId), maxLen := |block|);
    SparedByOwner(s.slots, s.heap, s.heap[s.nextId := block], s.nextId, s.write);
    WindowRefill(s.slots, s.heap, s.accepted, s.cleared, Oldest(s), s.heap[s.nextId := block], s.write, x);
    OwnedAlloc(s.slots, s.heap, s.nextId, s.write, block);
  }

  lemma KeepBufferKeeps(s: State, extra: nat, f: Frame, junk: seq<byte>)
    requires Inv(s, extra) && s.producer == Alloc(f)
    requires s.slots[s.write].head.Some?
    ensures Inv(AllocStep(s, s.slots[s.write], f, extra, junk), extra)
  {
    hide Window, Content, Owned, Fits, History, Needed, Dist, Place, After, IsMedia, Block;
  }

  lemma FieldsKeeps(s: State, extra: nat, f: Frame)
    requires Inv(s, extra) && s.producer == Fields(f)
    ensures Inv(FieldsStep(s, s.slots[s.write], f, extra), extra)
  {
    hide Window, Content, Owned, History, Dist, Place, After;
    var slot := s.slots[s.write];
    var x := slot.(media := f.media, len := |f.bytes|, timestamp := f.timestamp, offset := DataOffset(f, extra));
    WindowRefill(s.slots, s.heap, s.accepted, s.cleared, Oldest(s), s.heap, s.write, x);
    OwnedSame(s.slots, s.heap, s.nextId, s.write, x, s.heap);
    assert Fits(x);
  }

  /** After the copy the slot holds the frame. */
  lemma CopyContent(slot: Slot, heap: map<nat, seq<byte>>, f: Frame)
    requires IsMedia(f) && slot.media == f.media && slot.len == |f.bytes| && slot.timestamp == f.timestamp
    requires slot.head.Some? && slot.head.value in heap && slot.offset + |f.bytes| <= |heap[slot.head.value]|
    ensures Content(heap[slot.head.value := Patch(heap[slot.head.value], slot.offset, f.bytes)], slot) == f
  {
    hide Patch;
  }

  /** The copy lands inside the slot's own allocation. */
  lemma CopyInside(s: State, extra: nat, f: Frame)
    requires Inv(s, extra) && s.producer == Copy(f)
    ensures var slot := s.slots[s.write];
      && IsMedia(f) && slot.media == f.media && slot.len == |f.bytes| && slot.timestamp == f.timestamp
      && slot.head.Some? && slot.head.value in s.heap
      && slot.offset + |f.bytes| <= |s.heap[slot.head.value]| == slot.maxLen && Fits(slot)
      && Load(s.heap, slot.head, slot.offset, |f.bytes|).Some?
  {
    hide Window, Content, Owned, History, Dist, Place, After;
    assert Fits(s.slots[s.write]);
    HeadOwned(s.slots, s.heap, s.nextId, s.write);
  }

  lemma CopyKeeps(s: State, extra: nat, f: Frame)
    requires Inv(s, extra) && s.producer == Copy(f)
    ensures Inv(CopyStep(s, s.slots[s.write], f), extra)
  {
    hide Window, Content, Owned, Fits, History, Dist, Place, After, IsMedia, Patch, Load;
    CopyInside(s, extra, f);
    var slot := s.slots[s.write];
    var heap' := s.heap[slot.head.value := Patch(s.heap[slot.head.value], slot.offset, f.bytes)];
    assert heap'.Keys == s.heap.Keys;
    SparedByOwner(s.slots, s.heap, heap', s.nextId, s.write);
    WindowRefill(s.slots, s.heap, s.accepted, s.cleared, Oldest(s), heap', s.write, slot);
    OwnedSame(s.slots, s.heap, s.nextId, s.write, slot, heap');
    CopyContent(slot, s.heap, f);
    assert s.slots[s.write := slot] == s.slots;
  }

  lemma WindowPublish(slots: seq<Slot>, heap: map<nat, seq<byte>>, accepted: seq<Frame>, cleared: nat, oldest: nat, w: nat)
    requires Window(slots, heap, accepted, cleared, oldest)
    requires cleared <= |accepted| && oldest < |slots| && |accepted| - cleared <= |slots|
    requires w < |slots| && w == Place(oldest, |accepted| - cleared, |slots|) && !slots[w].needRead
    ensures Window(slots[w := slots[w].(needRead := true)], heap, accepted + [Content(heap, slots[w])], cleared, oldest)
    ensures |accepted| - cleared < |slots|
  {
    var x := slots[w].(needRead := true);
    assert Content(heap, x) == Content(heap, slots[w]);
    hide Content;
  }

  lemma HistoryPublish(decoded: seq<Frame>, accepted: seq<Frame>, taken: nat, calls: seq<Frame>, drops: seq<Drop>, f: Frame, c: Frame)
    requires History(decoded, accepted, taken, calls, drops) && (IsMedia(f) ==> c == f)
    ensures History(decoded, accepted + [c], taken, calls + [f], drops)
  {
    assert (accepted + [c])[..taken] == accepted[..taken];
    hide AllUnread;
  }

  lemma PublishKeeps(s: State, extra: nat, f: Frame)
    requires Inv(s, extra) && s.producer == Publish(f)
    ensures Inv(PublishStep(s, s.slots[s.write], f), extra)
  {
    hide Window, Content, Owned, History, IsMedia, Dist, Load;
    var slot := s.slots[s.write];
    WindowPublish(s.slots, s.heap, s.accepted, s.cleared, Oldest(s), s.write);
    HistoryPublish(s.decoded, s.accepted, Taken(s), s.calls, s.drops, f, Content(s.heap, slot));
    OwnedSame(s.slots, s.heap, s.nextId, s.write, slot.(needRead := true), s.heap);
  }

  lemma AdvanceKeeps(s: State, extra: nat, junk: seq<byte>)
    requires Inv(s, extra) && (s.producer.Advance? || s.producer.Count?)
    ensures Inv(ProducerStep(s, extra, junk), extra)
  {
    hide Window, Owned, Content, Load, Fits, History;
  }

  lemma ProducerKeeps(s: State, extra: nat, junk: seq<byte>)
    requires Inv(s, extra)
    ensures Inv(ProducerStep(s, extra, junk), extra)
  {
    hide PollStep, CheckStep, FreeStep, AllocStep, FieldsStep, CopyStep, PublishStep, ProducerKnows, ConsumerKnows;
    hide Window, Owned, AllFit, History, Needed;
    match s.producer
    case Idle =>
    case Poll(f, count) => PollKeeps(s, extra, f, count);
    case Check(f) =>
      if s.slots[s.write].needRead { DropKeeps(s, extra, f); } else { CheckKeeps(s, extra, f); }
    case Free(f) =>
      if s.slots[s.write].head.Some? && s.slots[s.write].maxLen < Needed(f, extra) {
        FreeKeeps(s, extra, f);
      } else {
        ReuseKeeps(s, extra, f);
      }
    case Alloc(f) =>
      if s.slots[s.write].head.None? { AllocKeeps(s, extra, f, junk); } else { KeepBufferKeeps(s, extra, f, junk); }
    case Fields(f) => FieldsKeeps(s, extra, f);
    case Copy(f) => CopyKeeps(s, extra, f);
    case Publish(f) => PublishKeeps(s, extra, f);
    case Advance => AdvanceKeeps(s, extra, junk);
    case Count => AdvanceKeeps(s, extra, junk);
  }

  lemma ConsumerWaitKeeps(s: State, extra: nat)
    requires Inv(s, extra) && (s.consumer.Start? || s.consumer.Loop? || s.consumer.Look? || s.consumer.Media? || s.consumer.Done?)
    ensures Inv(ConsumerStep(s), extra)
  {
    hide Window, Owned, ProducerKnows, AllFit, History, BytesStep, DecodeStep, ClearStep, Dist, Place, After;
  }

  lemma ConsumerMoveKeeps(s: State, extra: nat)
    requires Inv(s, extra) && (s.consumer.CountDecoded? || s.consumer.Next?)
    ensures Inv(ConsumerStep(s), extra)
  {
    hide Window, Owned, ProducerKnows, AllFit, History, BytesStep, DecodeStep, ClearStep;
  }

  /** The slot the consumer has found unread holds the next accepted frame. */
  lemma NextFrame(s: State, extra: nat)
    requires Inv(s, extra) && Taking(s.consumer)
    ensures 0 <= s.cleared < |s.accepted| && Content(s.heap, s.slots[s.read]) == s.accepted[s.cleared]
  {
    hide Content, History, Owned, Fits;
  }

  lemma HistoryTake(decoded: seq<Frame>, accepted: seq<Frame>, taken: nat, calls: seq<Frame>, drops: seq<Drop>)
    requires History(decoded, accepted, taken, calls, drops) && taken < |accepted|
    ensures History(decoded + [accepted[taken]], accepted, taken + 1, calls, drops)
  {
    hide AllUnread;
  }

  /** The slot being read lies inside its allocation. */
  lemma ReadFits(s: State, extra: nat)
    requires Inv(s, extra) && Taking(s.consumer)
    ensures Fits(s.slots[s.read])
    ensures var slot := s.slots[s.read];
      slot.head.Some? ==> slot.head.value in s.heap && |s.heap[slot.head.value]| == slot.maxLen
  {
    hide Window, History, ProducerKnows, ConsumerKnows, Dist, Place, After, Fits;
  }

  lemma DecodeKeeps(s: State, extra: nat, media: int)
    requires Inv(s, extra) && s.consumer == Decode(media)
    ensures Inv(DecodeStep(s, s.slots[s.read], media), extra)
  {
    hide Window, History, Dist, Place, After, AllFit, Owned;
    var slot := s.slots[s.read];
    ReadFits(s, extra);
    NextFrame(s, extra);
    HistoryTake(s.decoded, s.accepted, s.cleared, s.calls, s.drops);
  }

  lemma BytesKeeps(s: State, extra: nat)
    requires Inv(s, extra) && s.consumer.Bytes?
    ensures Inv(ConsumerStep(s), extra)
  {
    hide Window, History, Owned, AllFit, ProducerKnows, Place;
    ReadFits(s, extra);
    NextFrame(s, extra);
    HistoryTake(s.decoded, s.accepted, s.cleared, s.calls, s.drops);
  }

  lemma WindowClear(slots: seq<Slot>, heap: map<nat, seq<byte>>, accepted: seq<Frame>, cleared: nat, oldest: nat)
    requires Window(slots, heap, accepted, cleared, oldest)
    requires oldest < |slots| && |accepted| - cleared <= |slots| && slots[oldest].needRead
    ensures Window(slots[oldest := slots[oldest].(needRead := false)], heap, accepted, cleared + 1, After(oldest, |slots|))
  {
    hide Content;
  }

  lemma ClearKeeps(s: State, extra: nat)
    requires Inv(s, extra) && s.consumer.Clear?
    ensures Inv(ClearStep(s, s.slots[s.read]), extra)
  {
    hide Window, Content, Owned, History, IsMedia, Dist, Load;
    var slot := s.slots[s.read];
    NextFrame(s, extra);
    WindowClear(s.slots, s.heap, s.accepted, s.cleared, s.read);
    OwnedSame(s.slots, s.heap, s.nextId, s.read, slot.(needRead := false), s.heap);
  }

  lemma ConsumerKeeps(s: State, extra: nat)
    requires Inv(s, extra)
    ensures Inv(ConsumerStep(s), extra)
  {
    hide DecodeStep, BytesStep, ClearStep, ProducerKnows, ConsumerKnows, Window, Owned, AllFit, History;
    match s.consumer
    case Decode(media) => DecodeKeeps(s, extra, media);
    case Bytes(_, _, _, _, _) => BytesKeeps(s, extra);
    case Clear => ClearKeeps(s, extra);
    case CountDecoded => ConsumerMoveKeeps(s, extra);
    case Next => ConsumerMoveKeeps(s, extra);
    case _ => ConsumerWaitKeeps(s, extra);
  }

  lemma ApplyKeeps(s: State, extra: nat, a: Action)
    requires Inv(s, extra)
    ensures Inv(Apply(s, extra, a), extra)
  {
    hide ProducerStep, ConsumerStep, ConsumerKnows, Window, Owned, AllFit, History, Dist, Place, After;
    match a
    case StepProducer(junk) => ProducerKeeps(s, extra, junk);
    case StepConsumer => ConsumerKeeps(s, extra);
    case Call(f) =>
    case Quit =>
  }

  lemma {:induction false} RunKeeps(s: State, extra: nat, actions: seq<Action>)
    requires Inv(s, extra)
    ensures Inv(Run(s, extra, actions), extra)
    ensures |Run(s, extra, actions).slots| == |s.slots|
    decreases |actions|
  {
    hide Inv, Apply;
    if actions != [] {
      ApplyKeeps(s, extra, actions[0]);
      RunKeeps(Apply(s, extra, actions[0]), extra, actions[1..]);
    }
  }

  // ----- what holds in every run ------------------------------------------------

  /**
   * Whatever the interleaving: the frames decoded are a prefix of the frames accepted, in order and
   * byte for byte what was passed in; at most n frames are ever waiting; a frame was dropped only
   * at a moment when all n slots were unread; and no access ever left its allocation.
   */
  lemma QueueSafety(n: nat, extra: nat, actions: seq<Action>)
    requires n > 0
    ensures var s := Run(Init(n), extra, actions);
      && s.decoded <= s.accepted
      && |s.accepted| == |s.calls|
      && (forall i :: 0 <= i < |s.calls| && (s.calls[i].media == 1 || s.calls[i].media == 2) ==> s.accepted[i] == s.calls[i])
      && 0 <= Pending(s) <= n
      && (forall k :: 0 <= k < |s.drops| ==> AllUnread(s.drops[k].ring))
      && !s.faulted
      && (s.producer.Idle? ==> s.cntRcv == |s.accepted|)
      && (s.consumer.Loop? ==> s.cntDec == |s.decoded|)
  {
    InitInv(n, extra);
    RunKeeps(Init(n), extra, actions);
    assert |Init(n).slots| == n;
    hide Window, Owned, AllFit, Place, Oldest, AllUnread, Run, Init;
  }

  // ----- every frame offered is accepted or dropped ---------------------------------------

  /** The frames of the calls that found no other call under way and the decoder running. */
  function Offered(s: State, extra: nat, actions: seq<Action>): seq<Frame>
    decreases |actions|
  {
    if actions == [] then []
    else
      (if actions[0].Call? && s.producer.Idle? && s.running then [actions[0].f] else [])
      + Offered(Apply(s, extra, actions[0]), extra, actions[1..])
  }

  /** The frame of the call that has neither published nor given up. */
  function InFlight(p: Producer): seq<Frame> {
    match p
    case Idle => []
    case Advance => []
    case Count => []
    case Poll(f, _) => [f]
    case Check(f) => [f]
    case Free(f) => [f]
    case Alloc(f) => [f]
    case Fields(f) => [f]
    case Copy(f) => [f]
    case Publish(f) => [f]
  }

  function Dropped(drops: seq<Drop>): seq<Frame> {
    seq(|drops|, k requires 0 <= k < |drops| => drops[k].f)
  }

  /** Both sequences, each in its order, make up the whole. */
  ghost predicate Merge(whole: seq<Frame>, xs: seq<Frame>, ys: seq<Frame>)
    decreases |whole|
  {
    if whole == [] then xs == [] && ys == []
    else
      var k := |whole| - 1;
      || (xs != [] && xs[|xs| - 1] == whole[k] && Merge(whole[..k], xs[..|xs| - 1], ys))
      || (ys != [] && ys[|ys| - 1] == whole[k] && Merge(whole[..k], xs, ys[..|ys| - 1]))
  }

  ghost predicate AccountedAs(offered: seq<Frame>, settled: seq<Frame>, s: State) {
    offered == settled + InFlight(s.producer) && Merge(settled, s.calls, Dropped(s.drops))
  }

  /** What has been offered is, in order, what was published, what was dropped and what is in flight. */
  ghost predicate Accounted(offered: seq<Frame>, s: State) {
    exists settled :: AccountedAs(offered, settled, s)
  }

  lemma MergeLeft(whole: seq<Frame>, xs: seq<Frame>, ys: seq<Frame>, f: Frame)
    requires Merge(whole, xs, ys)
    ensures Merge(whole + [f], xs + [f], ys)
  {
    assert (whole + [f])[..|whole|] == whole && (xs + [f])[..|xs|] == xs;
  }

  lemma MergeRight(whole: seq<Frame>, xs: seq<Frame>, ys: seq<Frame>, f: Frame)
    requires Merge(whole, xs, ys)
    ensures Merge(whole + [f], xs, ys + [f])
  {
    assert (whole + [f])[..|whole|] == whole && (ys + [f])[..|ys|] == ys;
  }

  /** Only two producer steps settle the frame in flight: one publishes it and one drops it. */
  lemma ProducerSettles(s: State, extra: nat, junk: seq<byte>)
    requires s.write < |s.slots|
    ensures var s', p := ProducerStep(s, extra, junk), s.producer;
      if p.Publish? then InFlight(s'.producer) == [] && s'.calls == s.calls + [p.f] && s'.drops == s.drops
      else if p.Check? && s.slots[s.write].needRead then
        InFlight(s'.producer) == [] && s'.calls == s.calls && s'.drops == s.drops + [Drop(p.f, s.slots)]
      else InFlight(s'.producer) == InFlight(p) && s'.calls == s.calls && s'.drops == s.drops
  {
    hide Content, Load, Patch, Block, Needed, DataOffset, IsMedia, After;
    match s.producer
    case Idle =>
    case Poll(f, count) =>
    case Check(f) =>
    case Free(f) =>
    case Alloc(f) =>
    case Fields(f) =>
    case Copy(f) =>
    case Publish(f) =>
    case Advance =>
    case Count =>
  }

  lemma OthersSettleNothing(s: State)
    requires s.read < |s.slots|
    ensures var s' := ConsumerStep(s);
      s'.producer == s.producer && s'.calls == s.calls && s'.drops == s.drops
  {
    hide Load, After;
    match s.consumer
    case Start =>
    case Loop =>
    case Look =>
    case Media =>
    case Decode(media) =>
    case Bytes(media, timestamp, len, head, offset) =>
    case CountDecoded =>
    case Clear =>
    case Next =>
    case Done =>
  }

  lemma ProducerAccounts(offered: seq<Frame>, settled: seq<Frame>, s: State, extra: nat, junk: seq<byte>)
    requires s.write < |s.slots| && AccountedAs(offered, settled, s)
    ensures Accounted(offered, ProducerStep(s, extra, junk))
  {
    hide Merge, ProducerStep, Dropped;
    var s', p := ProducerStep(s, extra, junk), s.producer;
    ProducerSettles(s, extra, junk);
    if p.Publish? {
      MergeLeft(settled, s.calls, Dropped(s.drops), p.f);
      assert settled + InFlight(p) == (settled + [p.f]) + [];
      assert AccountedAs(offered, settled + [p.f], s');
    } else if p.Check? && s.slots[s.write].needRead {
      DroppedNext(s.drops, Drop(p.f, s.slots));
      MergeRight(settled, s.calls, Dropped(s.drops), p.f);
      assert settled + InFlight(p) == (settled + [p.f]) + [];
      assert AccountedAs(offered, settled + [p.f], s');
    } else {
      assert AccountedAs(offered, settled, s');
    }
  }

  lemma StepAccounts(offered: seq<Frame>, s: State, extra: nat, a: Action)
    requires Accounted(offered, s)
    ensures Accounted(offered + Offered(s, extra, [a]), Apply(s, extra, a))
  {
    hide Merge, ProducerStep, ConsumerStep, Dropped, Offered;
    var settled :| AccountedAs(offered, settled, s);
    var s' := Apply(s, extra, a);
    OfferedOne(s, extra, a);
    assert offered + [] == offered;
    if a.StepProducer? && s.write < |s.slots| {
      ProducerAccounts(offered, settled, s, extra, a.junk);
    } else {
      if a.StepConsumer? && s.read < |s.slots| {
        OthersSettleNothing(s);
      }
      assert offered + Offered(s, extra, [a]) == settled + InFlight(s'.producer);
      assert AccountedAs(offered + Offered(s, extra, [a]), settled, s');
    }
  }

  lemma OfferedOne(s: State, extra: nat, a: Action)
    ensures Offered(s, extra, [a]) == if a.Call? && s.producer.Idle? && s.running then [a.f] else []
  {
    hide Apply;
    assert [a][1..] == [] && Offered(Apply(s, extra, a), extra, []) == [];
  }

  lemma DroppedNext(drops: seq<Drop>, drop: Drop)
    ensures Dropped(drops + [drop]) == Dropped(drops) + [drop.f]
  {
  }

  lemma {:induction false} RunAccounts(offered: seq<Frame>, s: State, extra: nat, actions: seq<Action>)
    requires Accounted(offered, s)
    ensures Accounted(offered + Offered(s, extra, actions), Run(s, extra, actions))
    decreases |actions|
  {
    hide Accounted, Apply;
    if actions == [] {
      assert offered + [] == offered;
    } else {
      var first := Offered(s, extra, [actions[0]]);
      OfferedFirst(s, extra, actions);
      StepAccounts(offered, s, extra, actions[0]);
      RunAccounts(offered + first, Apply(s, extra, actions[0]), extra, actions[1..]);
      Assoc(offered, first, Offered(Apply(s, extra, actions[0]), extra, actions[1..]));
    }
  }

  lemma OfferedFirst(s: State, extra: nat, actions: seq<Action>)
    requires actions != []
    ensures Offered(s, extra, actions)
         == Offered(s, extra, [actions[0]]) + Offered(Apply(s, extra, actions[0]), extra, actions[1..])
  {
    hide Apply;
    var s' := Apply(s, extra, actions[0]);
    assert [actions[0]][1..] == [] && Offered(s', extra, []) == [];
    var first := if actions[0].Call? && s.producer.Idle? && s.running then [actions[0].f] else [];
    assert first + [] == first;
  }

  /**
   * No frame gets lost: the frames of the calls that went in, read off the actions, are in order
   * the merge of those published and those dropped, and the one in flight behind them.
   */
  lemma FramesAccounted(n: nat, extra: nat, actions: seq<Action>)
    ensures Accounted(Offered(Init(n), extra, actions), Run(Init(n), extra, actions))
  {
    var offered := Offered(Init(n), extra, actions);
    assert AccountedAs([], [], Init(n)) by {
      assert [] == [] + InFlight(Init(n).producer) && Dropped([]) == [] && Merge([], [], []);
    }
    RunAccounts([], Init(n), extra, actions);
    assert [] + offered == offered;
  }

  // ----- what one call does ---------------------------------------------------------------

  /** Steps of the producer alone; junk is what new allocations happen to hold. */
  function ProducerRun(s: State, extra: nat, junk: seq<byte>, m: nat): State
    decreases m
  {
    if m == 0 then s else ProducerRun(Apply(s, extra, StepProducer(junk)), extra, junk, m - 1)
  }

  /** The step behind this one when the slot is free and the frame is video or audio. */
  function Ahead(p: Producer): Producer {
    match p
    case Poll(f, _) => Check(f)
    case Check(f) => Free(f)
    case Free(f) => Alloc(f)
    case Alloc(f) => Fields(f)
    case Fields(f) => Copy(f)
    case Copy(f) => Publish(f)
    case _ => p
  }

  /** All that others can see besides the slot being filled. */
  ghost predicate SameAround(s: State, s': State) {
    && |s'.slots| == |s.slots| && s'.write == s.write && s'.read == s.read && s'.consumer == s.consumer
    && s'.running == s.running && s'.quit == s.quit && s'.cntRcv == s.cntRcv && s'.cntDec == s.cntDec
    && s'.calls == s.calls && s'.accepted == s.accepted && s'.decoded == s.decoded && s'.cleared == s.cleared
    && s'.drops == s.drops
    && forall i :: 0 <= i < |s.slots| && i != s.write ==> s'.slots[i] == s.slots[i]
  }

  lemma ProducerStands(s: State, extra: nat)
    requires Inv(s, extra)
    ensures s.write < |s.slots| && s.read < |s.slots|
    ensures s.producer.Publish? && IsMedia(s.producer.f) ==> Content(s.heap, s.slots[s.write]) == s.producer.f
    ensures s.producer.Free? && s.slots[s.write].head.Some? ==> s.slots[s.write].head.value in s.heap
  {
    hide Window, AllFit, History, Content, ConsumerKnows, Dist, Place;
  }

  lemma FillsOn(s: State, extra: nat, junk: seq<byte>, f: Frame)
    requires Inv(s, extra) && InFlight(s.producer) == [f] && IsMedia(f) && !s.producer.Publish?
    requires s.write < |s.slots| && !s.slots[s.write].needRead
    ensures var s' := Apply(s, extra, StepProducer(junk));
      Inv(s', extra) && s'.producer == Ahead(s.producer) && SameAround(s, s') && !s'.slots[s'.write].needRead
  {
    hide Inv, Content, Load, Patch, Block, Needed, DataOffset;
    ApplyKeeps(s, extra, StepProducer(junk));
    match s.producer
    case Poll(f, count) =>
    case Check(f) =>
    case Free(f) =>
    case Alloc(f) =>
    case Fields(f) =>
    case Copy(f) =>
  }

  lemma PublishesOn(s: State, extra: nat, junk: seq<byte>, f: Frame)
    requires Inv(s, extra) && s.producer == Publish(f) && IsMedia(f)
    ensures var s' := ProducerRun(s, extra, junk, 3);
      && Inv(s', extra) && s.write < |s.slots| && s'.producer == Idle
      && s'.calls == s.calls + [f] && s'.accepted == s.accepted + [f] && s'.drops == s.drops
      && s'.cntRcv == s.cntRcv + 1 && s'.write == After(s.write, |s.slots|)
      && s'.slots == s.slots[s.write := s.slots[s.write].(needRead := true)] && s'.heap == s.heap
      && s'.consumer == s.consumer && s'.running == s.running && s'.decoded == s.decoded
  {
    hide Inv, ProducerRun, Content, IsMedia, After;
    ProducerStands(s, extra);
    var s1 := Apply(s, extra, StepProducer(junk));
    var s2 := Apply(s1, extra, StepProducer(junk));
    ApplyKeeps(s, extra, StepProducer(junk));
    ApplyKeeps(s1, extra, StepProducer(junk));
    ApplyKeeps(s2, extra, StepProducer(junk));
    ProducerStands(s1, extra);
    ProducerStands(s2, extra);
    ThreeRuns(s, extra, junk);
  }

  lemma ThreeRuns(s: State, extra: nat, junk: seq<byte>)
    ensures ProducerRun(s, extra, junk, 3)
         == Apply(Apply(Apply(s, extra, StepProducer(junk)), extra, StepProducer(junk)), extra, StepProducer(junk))
  {
    hide Apply;
    var s1 := Apply(s, extra, StepProducer(junk));
    assert ProducerRun(s1, extra, junk, 2) == ProducerRun(Apply(s1, extra, StepProducer(junk)), extra, junk, 1);
  }

  /** How many producer steps lie before the publication. */
  function Before(p: Producer): nat {
    match p
    case Poll(_, _) => 6
    case Check(_) => 5
    case Free(_) => 4
    case Alloc(_) => 3
    case Fields(_) => 2
    case Copy(_) => 1
    case _ => 0
  }

  lemma {:induction false} FillsThrough(s: State, extra: nat, junk: seq<byte>, f: Frame)
    requires Inv(s, extra) && InFlight(s.producer) == [f] && IsMedia(f)
    requires s.write < |s.slots| && !s.slots[s.write].needRead
    ensures var s' := ProducerRun(s, extra, junk, Before(s.producer) + 3);
      && Inv(s', extra) && s'.producer == Idle && s'.calls == s.calls + [f] && s'.accepted == s.accepted + [f]
      && s'.drops == s.drops && s'.cntRcv == s.cntRcv + 1 && s'.write == After(s.write, |s.slots|)
      && s'.consumer == s.consumer && s'.running == s.running && s'.decoded == s.decoded
    decreases Before(s.producer)
  {
    hide Inv, Apply, IsMedia;
    if s.producer.Publish? {
      PublishesOn(s, extra, junk, f);
    } else {
      FillsOn(s, extra, junk, f);
      FillsThrough(Apply(s, extra, StepProducer(junk)), extra, junk, f);
    }
  }

  lemma RoomIsFree(s: State, extra: nat)
    requires Inv(s, extra) && !s.producer.Advance? && Pending(s) < |s.slots|
    ensures !s.slots[s.write].needRead
  {
    hide Owned, AllFit, ProducerKnows, ConsumerKnows, History, Content;
  }

  /**
   * A call that finds room is taken: in every reachable state with fewer than n frames waiting, nine
   * steps of the producer accept the frame as it was passed in, drop nothing and count it.
   */
  lemma RoomAccepts(n: nat, extra: nat, actions: seq<Action>, f: Frame, junk: seq<byte>)
    requires n > 0
    requires var s := Run(Init(n), extra, actions); 
      s.producer == Idle && s.running && (f.media == 1 || f.media == 2) && Pending(s) < n
    ensures var s := Run(Init(n), extra, actions);
      var s' := ProducerRun(Apply(s, extra, Call(f)), extra, junk, 9);
      && s'.producer == Idle && s'.accepted == s.accepted + [f] && s'.calls == s.calls + [f]
      && s'.drops == s.drops && s'.cntRcv == s.cntRcv + 1
      && s'.consumer == s.consumer && s'.running == s.running && s'.decoded == s.decoded
  {
    InitInv(n, extra);
    RunKeeps(Init(n), extra, actions);
    var s := Run(Init(n), extra, actions);
    assert |s.slots| == n;
    hide Run, Init, Inv, IsMedia, ProducerRun, Apply;
    CallBegins(s, extra, f);
    RoomIsFree(s, extra);
    assert IsMedia(f) by {
      MediaTypes(f);
    }
    FillsThrough(Apply(s, extra, Call(f)), extra, junk, f);
  }

  lemma MediaTypes(f: Frame)
    ensures IsMedia(f) <==> f.media == 1 || f.media == 2
  {
  }

  /** A call of any other media type publishes the slot as it stands, and counts it. */
  lemma OthersPublish(n: nat, extra: nat, actions: seq<Action>, f: Frame, junk: seq<byte>)
    requires n > 0
    requires var s := Run(Init(n), extra, actions);
      s.producer == Idle && s.running && f.media != 1 && f.media != 2 && Pending(s) < n
    ensures var s := Run(Init(n), extra, actions);
      var s' := ProducerRun(Apply(s, extra, Call(f)), extra, junk, 5);
      && s.write < |s.slots| && s'.producer == Idle && s'.calls == s.calls + [f] && s'.drops == s.drops
      && s'.slots == s.slots[s.write := s.slots[s.write].(needRead := true)] && s'.heap == s.heap
      && s'.cntRcv == s.cntRcv + 1 && s'.write == After(s.write, |s.slots|)
  {
    hide Run, Init, Inv, ProducerRun, After, Apply;
    InitInv(n, extra);
    InitSize(n);
    RunKeeps(Init(n), extra, actions);
    var s := Run(Init(n), extra, actions);
    CallBegins(s, extra, f);
    RoomIsFree(s, extra);
    FiveRuns(Apply(s, extra, Call(f)), extra, junk, f);
  }

  lemma FiveRuns(s: State, extra: nat, junk: seq<byte>, f: Frame)
    requires s.producer == Poll(f, 20) && !IsMedia(f) && s.write < |s.slots| && !s.slots[s.write].needRead
    ensures var s' := ProducerRun(s, extra, junk, 5);
      && s'.producer == Idle && s'.calls == s.calls + [f] && s'.drops == s.drops
      && s'.slots == s.slots[s.write := s.slots[s.write].(needRead := true)] && s'.heap == s.heap
      && s'.cntRcv == s.cntRcv + 1 && s'.write == After(s.write, |s.slots|)
  {
    hide Content, IsMedia, After, ProducerRun;
    var publishing := s.(producer := Publish(f));
    TwoRuns(s, extra, junk);
    RunsOn(s, extra, junk, 2, 3);
    ThreeRuns(publishing, extra, junk);
    assert Apply(s, extra, StepProducer(junk)) == s.(producer := Check(f));
    assert Apply(s.(producer := Check(f)), extra, StepProducer(junk)) == publishing;
    var advancing := PublishStep(publishing, s.slots[s.write], f);
    assert Apply(publishing, extra, StepProducer(junk)) == advancing;
    var counting := advancing.(write := After(s.write, |s.slots|), producer := Count);
    assert Apply(advancing, extra, StepProducer(junk)) == counting;
    AfterInside(s.write, |s.slots|);
  }

  lemma AfterInside(i: nat, n: nat)
    requires i < n
    ensures After(i, n) < n
  {
  }

  lemma TwoRuns(s: State, extra: nat, junk: seq<byte>)
    ensures ProducerRun(s, extra, junk, 2) == Apply(Apply(s, extra, StepProducer(junk)), extra, StepProducer(junk))
  {
    hide Apply;
    var s1 := Apply(s, extra, StepProducer(junk));
    assert ProducerRun(s1, extra, junk, 1) == ProducerRun(Apply(s1, extra, StepProducer(junk)), extra, junk, 0);
  }

  lemma CallBegins(s: State, extra: nat, f: Frame)
    requires Inv(s, extra) && s.producer == Idle && s.running
    ensures var s' := Apply(s, extra, Call(f)); Inv(s', extra) && s' == s.(producer := Poll(f, 20))
    ensures s.write < |s.slots|
  {
    ApplyKeeps(s, extra, Call(f));
    hide Window, Owned, AllFit, History;
  }

  lemma {:induction false} PollsOn(s: State, extra: nat, junk: seq<byte>, f: Frame, count: nat, m: nat)
    requires s.producer == Poll(f, count) && s.write < |s.slots| && s.slots[s.write].needRead && m <= count
    ensures ProducerRun(s, extra, junk, m) == s.(producer := Poll(f, count - m))
    decreases m
  {
    if m > 0 {
      PollsOn(s.(producer := Poll(f, count - 1)), extra, junk, f, count - 1, m - 1);
    }
  }

  lemma {:induction false} RunsOn(s: State, extra: nat, junk: seq<byte>, m: nat, k: nat)
    ensures ProducerRun(s, extra, junk, m + k) == ProducerRun(ProducerRun(s, extra, junk, m), extra, junk, k)
    decreases m
  {
    hide Apply;
    if m > 0 {
      RunsOn(Apply(s, extra, StepProducer(junk)), extra, junk, m - 1, k);
    }
  }

  /**
   * While the ring is full and stays so a call waits twenty times, and then gives up with nothing
   * changed but the drop.
   */
  lemma FullRingDrops(n: nat, extra: nat, actions: seq<Action>, f: Frame, junk: seq<byte>, m: nat)
    requires n > 0 && m <= 20
    requires var s := Run(Init(n), extra, actions); s.producer == Idle && s.running && Pending(s) == n
    ensures var s := Run(Init(n), extra, actions);
      && ProducerRun(Apply(s, extra, Call(f)), extra, junk, m) == s.(producer := Poll(f, 20 - m))
      && ProducerRun(Apply(s, extra, Call(f)), extra, junk, 22) == s.(drops := s.drops + [Drop(f, s.slots)])
  {
    hide Run, Init, Inv, Apply, ProducerRun;
    InitInv(n, extra);
    InitSize(n);
    RunKeeps(Init(n), extra, actions);
    var s := Run(Init(n), extra, actions);
    FullIsUnread(s, extra);
    CallBegins(s, extra, f);
    var polling := s.(producer := Poll(f, 20));
    PollsOn(polling, extra, junk, f, 20, m);
    PollsOn(polling, extra, junk, f, 20, 20);
    RunsOn(polling, extra, junk, 20, 2);
    GivesUp(s.(producer := Poll(f, 0)), extra, junk, f);
  }

  lemma InitSize(n: nat)
    ensures |Init(n).slots| == n
  {
  }

  lemma GivesUp(s: State, extra: nat, junk: seq<byte>, f: Frame)
    requires s.producer == Poll(f, 0) && s.write < |s.slots| && s.slots[s.write].needRead
    ensures ProducerRun(s, extra, junk, 2) == s.(producer := Idle, drops := s.drops + [Drop(f, s.slots)])
  {
    var s1 := Apply(s, extra, StepProducer(junk));
    assert s1 == s.(producer := Check(f));
    assert ProducerRun(s, extra, junk, 2) == ProducerRun(s1, extra, junk, 1);
    assert ProducerRun(s1, extra, junk, 1) == Apply(s1, extra, StepProducer(junk));
  }

  lemma FullIsUnread(s: State, extra: nat)
    requires Inv(s, extra) && s.producer == Idle && Pending(s) == |s.slots|
    ensures s.slots[s.write].needRead
  {
    hide Owned, AllFit, ProducerKnows, ConsumerKnows, History, Content;
  }

  /**
   * A buffer that is large enough is used again; one that is too small is freed, and the new one has
   * room for the frame and, with video, for the parameter sets in front and 256 bytes behind.
   */
  lemma BufferReused(n: nat, extra: nat, actions: seq<Action>, f: Frame, junk: seq<byte>)
    requires n > 0
    requires var s := Run(Init(n), extra, actions); s.producer == Free(f)
    ensures var s := Run(Init(n), extra, actions);
      var s' := ProducerRun(s, extra, junk, 2);
      var needed := |f.bytes| + (if f.media == 1 then extra + 256 else 0);
      && s.write < |s.slots| && |s'.slots| == |s.slots|
      && (s.slots[s.write].head.Some? && s.slots[s.write].maxLen >= needed
          ==> s'.heap == s.heap && s'.slots == s.slots && s'.nextId == s.nextId)
      && (s.slots[s.write].head.Some? && s.slots[s.write].maxLen < needed
          ==> s.slots[s.write].head.value in s.heap && s'.heap.Keys == s.heap.Keys - {s.slots[s.write].head.value} + {s.nextId})
      && (s.slots[s.write].head.None? ==> s'.heap.Keys == s.heap.Keys + {s.nextId})
      && (!(s.slots[s.write].head.Some? && s.slots[s.write].maxLen >= needed)
          ==> s'.slots[s.write].head == Some(s.nextId) && |s'.heap[s.nextId]| == needed)
  {
    hide Run, Init, Inv, Content, Block, ProducerRun;
    InitInv(n, extra);
    RunKeeps(Init(n), extra, actions);
    var s := Run(Init(n), extra, actions);
    ProducerStands(s, extra);
    TwoFill(s, extra, f, junk);
  }

  lemma TwoFill(s: State, extra: nat, f: Frame, junk: seq<byte>)
    requires s.producer == Free(f) && s.write < |s.slots|
    ensures var s1 := FreeStep(s, s.slots[s.write], f, extra);
      ProducerRun(s, extra, junk, 2) == AllocStep(s1, s1.slots[s.write], f, extra, junk)
  {
    var s1 := Apply(s, extra, StepProducer(junk));
    assert s1 == FreeStep(s, s.slots[s.write], f, extra);
    assert ProducerRun(s1, extra, junk, 1) == Apply(s1, extra, StepProducer(junk));
  }

  /** A step of the producer leaves every unread slot and its bytes as they were. */
  lemma UnreadUntouched(n: nat, extra: nat, actions: seq<Action>, junk: seq<byte>, i: nat)
    requires n > 0
    requires var s := Run(Init(n), extra, actions); i < |s.slots| && s.slots[i].needRead
    ensures var s := Run(Init(n), extra, actions);
      var s' := Apply(s, extra, StepProducer(junk));
      i < |s'.slots| && s'.slots[i] == s.slots[i] && Content(s'.heap, s'.slots[i]) == Content(s.heap, s.slots[i])
  {
    InitInv(n, extra);
    RunKeeps(Init(n), extra, actions);
    var s := Run(Init(n), extra, actions);
    ApplyKeeps(s, extra, StepProducer(junk));
    UnreadStays(s, extra, junk, i);
    hide Run, Init, Inv, ProducerStep;
  }

  lemma UnreadStays(s: State, extra: nat, junk: seq<byte>, i: nat)
    requires Inv(s, extra) && i < |s.slots| && s.slots[i].needRead
    ensures var s' := ProducerStep(s, extra, junk);
      |s'.slots| == |s.slots| && s'.slots[i] == s.slots[i] && Content(s'.heap, s'.slots[i]) == Content(s.heap, s.slots[i])
  {
    hide Content, Window, Owned, AllFit, History, Dist, Place, After, Needed, DataOffset, Block, Patch, IsMedia, ConsumerKnows;
    var slot := s.slots[s.write];
    match s.producer
    case Free(f) =>
      SparedByOwner(s.slots, s.heap, FreeStep(s, slot, f, extra).heap, s.nextId, s.write);
    case Alloc(f) =>
      SparedByOwner(s.slots, s.heap, AllocStep(s, slot, f, extra, junk).heap, s.nextId, s.write);
    case Copy(f) =>
      SparedByOwner(s.slots, s.heap, CopyStep(s, slot, f).heap, s.nextId, s.write);
    case _ =>
  }

  /** In every reachable state an unread slot's bytes lie inside its own allocation, video with 256 bytes to spare. */
  lemma UnreadInside(n: nat, extra: nat, actions: seq<Action>, i: nat)
    requires n > 0
    requires var s := Run(Init(n), extra, actions); i < |s.slots| && s.slots[i].needRead
    ensures var s := Run(Init(n), extra, actions);
      var slot := s.slots[i];
      (slot.media == 1 || slot.media == 2 ==>
        && slot.head.Some? && slot.head.value in s.heap
        && slot.offset + slot.len + (if slot.media == 1 then 256 else 0) <= |s.heap[slot.head.value]|
        && (forall j :: 0 <= j < |s.slots| && j != i ==> s.slots[j].head != slot.head))
  {
    InitInv(n, extra);
    RunKeeps(Init(n), extra, actions);
    var s := Run(Init(n), extra, actions);
    assert Fits(s.slots[i]);
    hide Run, Init, Window, History;
  }

  /** A live allocation with these bytes inside it. */
  predicate Holds(heap: map<nat, seq<byte>>, head: Option<nat>, offset: nat, len: nat) {
    head.Some? && head.value in heap && offset + len <= |heap[head.value]|
  }

  /**
   * In every reachable state the next access stays inside a live allocation: what the producer frees
   * and copies to, the fifth byte of a video frame at which the consumer looks first, and the bytes it
   * decodes, video with 256 more behind them.
   */
  lemma AccessesInside(n: nat, extra: nat, actions: seq<Action>)
    requires n > 0
    ensures var s := Run(Init(n), extra, actions);
      && s.write < |s.slots| && s.read < |s.slots|
      && (s.producer.Free? && s.slots[s.write].head.Some? ==> s.slots[s.write].head.value in s.heap)
      && (s.producer.Copy? ==> Holds(s.heap, s.slots[s.write].head, s.slots[s.write].offset, |s.producer.f.bytes|))
      && (s.consumer == Decode(1) ==> Holds(s.heap, s.slots[s.read].head, s.slots[s.read].offset, 5))
      && (s.consumer.Bytes? ==>
            Holds(s.heap, s.consumer.head, s.consumer.offset, s.consumer.len + if s.consumer.media == 1 then 256 else 0))
  {
    hide Run, Init, Inv;
    InitInv(n, extra);
    RunKeeps(Init(n), extra, actions);
    var s := Run(Init(n), extra, actions);
    ProducerStands(s, extra);
    if s.producer.Copy? {
      CopyInside(s, extra, s.producer.f);
    }
    ConsumerInside(s, extra);
  }

  lemma ConsumerInside(s: State, extra: nat)
    requires Inv(s, extra)
    ensures s.read < |s.slots|
    ensures s.consumer == Decode(1) ==> Holds(s.heap, s.slots[s.read].head, s.slots[s.read].offset, 5)
    ensures s.consumer.Bytes? ==>
      Holds(s.heap, s.consumer.head, s.consumer.offset, s.consumer.len + if s.consumer.media == 1 then 256 else 0)
  {
    hide Window, Owned, AllFit, History, ProducerKnows, Dist, Place;
    if Taking(s.consumer) {
      ReadFits(s, extra);
    }
  }

  function ConsumerRun(s: State, m: nat): State
    decreases m
  {
    if m == 0 then s else ConsumerRun(Apply(s, 0, StepConsumer), m - 1)
  }

  function Rank(c: Consumer): nat {
    match c
    case Start => 9
    case Next => 8
    case Loop => 7
    case Look => 6
    case Media => 5
    case Decode(_) => 4
    case Bytes(_, _, _, _, _) => 3
    case CountDecoded => 11
    case Clear => 10
    case Done => 0
  }

  lemma Progress(s: State, extra: nat)
    requires Inv(s, extra) && !s.quit && !s.consumer.Done? && s.decoded != s.accepted
    ensures s.read < |s.slots|
    ensures var s' := ConsumerStep(s);
      && !s'.quit && !s'.consumer.Done? && s'.accepted == s.accepted
      && |s.decoded| <= |s'.decoded| <= |s.accepted|
      && (|s'.decoded| > |s.decoded| || (|s'.decoded| == |s.decoded| && Rank(s'.consumer) < Rank(s.consumer)))
  {
    hide Window, Owned, AllFit, ProducerKnows, Fits, Load, Content, Place;
    ConsumerKeeps(s, extra);
    if s.consumer.Look? {
      OldestUnread(s, extra);
    }
  }

  lemma OldestUnread(s: State, extra: nat)
    requires Inv(s, extra) && s.consumer.Look? && s.decoded != s.accepted
    ensures s.slots[s.read].needRead
  {
    hide Owned, AllFit, ProducerKnows, Fits, Load, Content, Place;
  }

  /** No accepted frame is stuck: unless quit is set, the consumer on its own gets to decode all of them. */
  lemma {:induction false} AllGetDecoded(s: State, extra: nat)
    requires Inv(s, extra) && !s.quit && !s.consumer.Done?
    ensures exists m: nat :: ConsumerRun(s, m).decoded == s.accepted
    decreases |s.accepted| - |s.decoded|, Rank(s.consumer)
  {
    hide Inv, ConsumerStep, Rank;
    if s.decoded == s.accepted {
      assert ConsumerRun(s, 0).decoded == s.accepted;
    } else {
      Progress(s, extra);
      ConsumerKeeps(s, extra);
      var s' := ConsumerStep(s);
      AllGetDecoded(s', extra);
      var m: nat :| ConsumerRun(s', m).decoded == s'.accepted;
      assert ConsumerRun(s, m + 1).decoded == s.accepted;
    }
  }

  /** The decoder is running exactly while its thread is in the loop. */
  lemma {:induction false} RunningExactly(s: State, extra: nat, actions: seq<Action>)
    requires s.running <==> !s.consumer.Start? && !s.consumer.Done?
    ensures var s' := Run(s, extra, actions); s'.running <==> !s'.consumer.Start? && !s'.consumer.Done?
    decreases |actions|
  {
    if actions != [] {
      StepRunning(s, extra, actions[0]);
      RunningExactly(Apply(s, extra, actions[0]), extra, actions[1..]);
    }
    hide Apply;
  }

  predicate NoQuit(actions: seq<Action>) {
    forall i :: 0 <= i < |actions| ==> !actions[i].Quit?
  }

  /** Until quit is set the thread does not end. */
  lemma {:induction false} RunsUntilQuit(s: State, extra: nat, actions: seq<Action>)
    requires !s.quit && s.consumer != Done && NoQuit(actions)
    ensures !Run(s, extra, actions).quit && Run(s, extra, actions).consumer != Done
    decreases |actions|
  {
    hide Apply;
    if actions != [] {
      StepGoesOn(s, extra, actions[0]);
      RunsUntilQuit(Apply(s, extra, actions[0]), extra, actions[1..]);
    }
  }

  lemma StepGoesOn(s: State, extra: nat, a: Action)
    requires !s.quit && s.consumer != Done && !a.Quit?
    ensures !Apply(s, extra, a).quit && Apply(s, extra, a).consumer != Done
  {
    hide ProducerStep, ConsumerStep;
    if a.StepProducer? && s.write < |s.slots| {
      ProducerLeaves(s, extra, a.junk);
    } else if a.StepConsumer? && s.read < |s.slots| {
      ConsumerGoesOn(s);
    }
  }

  lemma ConsumerGoesOn(s: State)
    requires s.read < |s.slots| && !s.quit && s.consumer != Done
    ensures !ConsumerStep(s).quit && ConsumerStep(s).consumer != Done
  {
    hide Load, After;
    match s.consumer
    case Start =>
    case Loop =>
    case Look =>
    case Media =>
    case Decode(media) =>
    case Bytes(media, timestamp, len, head, offset) =>
    case CountDecoded =>
    case Clear =>
    case Next =>
  }

  /** A new decoder whose thread has got to its first step runs until it is destroyed. */
  lemma NewDecoderRuns(n: nat, extra: nat, actions: seq<Action>)
    requires n > 0 && NoQuit(actions)
    ensures var s := Run(Init(n), extra, [StepConsumer] + actions); s.running && !s.quit
  {
    hide Run, Apply;
    var s := Apply(Init(n), extra, StepConsumer);
    FirstStep(n, extra);
    RunsFrom(Init(n), extra, StepConsumer, actions);
    RunsUntilQuit(s, extra, actions);
    RunningExactly(s, extra, actions);
    StartedStays(s, extra, actions);
  }

  lemma FirstStep(n: nat, extra: nat)
    requires n > 0
    ensures var s := Apply(Init(n), extra, StepConsumer); s.running && s.consumer == Loop && !s.quit
  {
  }

  lemma RunsFrom(s: State, extra: nat, a: Action, actions: seq<Action>)
    ensures Run(s, extra, [a] + actions) == Run(Apply(s, extra, a), extra, actions)
  {
    hide Apply;
    assert ([a] + actions)[1..] == actions;
  }

  lemma {:induction false} StartedStays(s: State, extra: nat, actions: seq<Action>)
    requires s.consumer != Start
    ensures Run(s, extra, actions).consumer != Start
    decreases |actions|
  {
    hide Apply;
    if actions != [] {
      NeverRestarts(s, extra, actions[0]);
      StartedStays(Apply(s, extra, actions[0]), extra, actions[1..]);
    }
  }

  lemma NeverRestarts(s: State, extra: nat, a: Action)
    requires s.consumer != Start
    ensures Apply(s, extra, a).consumer != Start
  {
    hide ProducerStep, Load, After;
    if a.StepProducer? && s.write < |s.slots| {
      ProducerLeaves(s, extra, a.junk);
    }
  }

  lemma StepRunning(s: State, extra: nat, a: Action)
    requires s.running <==> !s.consumer.Start? && !s.consumer.Done?
    ensures var s' := Apply(s, extra, a); s'.running <==> !s'.consumer.Start? && !s'.consumer.Done?
  {
    hide ProducerStep, ConsumerStep;
    if a.StepProducer? && s.write < |s.slots| {
      ProducerLeaves(s, extra, a.junk);
    } else if a.StepConsumer? && s.read < |s.slots| {
      ConsumerRuns(s);
    }
  }

  lemma ProducerLeaves(s: State, extra: nat, junk: seq<byte>)
    requires s.write < |s.slots|
    ensures var s' := ProducerStep(s, extra, junk);
      s'.running == s.running && s'.consumer == s.consumer && s'.quit == s.quit
  {
    hide Content, Load, Patch, Block, Needed, DataOffset, IsMedia, After;
    match s.producer
    case Idle =>
    case Poll(f, count) =>
    case Check(f) =>
    case Free(f) =>
    case Alloc(f) =>
    case Fields(f) =>
    case Copy(f) =>
    case Publish(f) =>
    case Advance =>
    case Count =>
  }

  lemma ConsumerRuns(s: State)
    requires s.read < |s.slots| && (s.running <==> !s.consumer.Start? && !s.consumer.Done?)
    ensures var s' := ConsumerStep(s); s'.running <==> !s'.consumer.Start? && !s'.consumer.Done?
  {
    hide Load, After;
    match s.consumer
    case Start =>
    case Loop =>
    case Look =>
    case Media =>
    case Decode(media) =>
    case Bytes(media, timestamp, len, head, offset) =>
    case CountDecoded =>
    case Clear =>
    case Next =>
    case Done =>
  }

  /** Once quit is set the thread finishes the frame it is at, if any, and ends. */
  lemma {:induction false} QuitEnds(s: State, extra: nat) returns (m: nat)
    requires Inv(s, extra) && s.quit && (s.running <==> !s.consumer.Start? && !s.consumer.Done?)
    ensures var s' := ConsumerRun(s, m);
      s'.consumer == Done && !s'.running && s'.accepted == s.accepted
      && |s'.decoded| <= |s.decoded| + (if EndRank(s.consumer) < 6 then 0 else 1)
    decreases EndRank(s.consumer)
  {
    hide Inv, ConsumerStep, EndRank;
    if s.consumer == Done {
      m := 0;
    } else {
      QuitSteps(s, extra);
      ConsumerKeeps(s, extra);
      StepRunning(s, extra, StepConsumer);
      var k := QuitEnds(ConsumerStep(s), extra);
      m := k + 1;
    }
  }

  function EndRank(c: Consumer): nat {
    match c
    case Look => 9
    case Media => 8
    case Decode(_) => 7
    case Bytes(_, _, _, _, _) => 6
    case CountDecoded => 5
    case Clear => 4
    case Next => 3
    case Start => 2
    case Loop => 1
    case Done => 0
  }

  lemma QuitSteps(s: State, extra: nat)
    requires Inv(s, extra) && s.quit && s.consumer != Done
    ensures s.read < |s.slots|
    ensures var s' := ConsumerStep(s);
      && Apply(s, 0, StepConsumer) == s' && s'.quit && s'.accepted == s.accepted && EndRank(s'.consumer) < EndRank(s.consumer)
      && (EndRank(s.consumer) < 6 ==> s'.decoded == s.decoded)
      && (EndRank(s.consumer) >= 6 ==> |s'.decoded| == |s.decoded| || (|s'.decoded| == |s.decoded| + 1 && EndRank(s'.consumer) < 6))
  {
    hide Window, Owned, AllFit, ProducerKnows, Load, Content;
  }

  /** So destroying the decoder ends its thread, after at most one more frame. */
  lemma QuitStops(n: nat, extra: nat, actions: seq<Action>) returns (m: nat)
    requires n > 0 && Run(Init(n), extra, actions).producer == Idle
    ensures var s := Run(Init(n), extra, actions);
      var s' := ConsumerRun(Apply(s, extra, Quit), m);
      s'.consumer == Done && !s'.running && s'.accepted == s.accepted && |s'.decoded| <= |s.decoded| + 1
  {
    hide Run, Inv, ConsumerRun, EndRank;
    InitInv(n, extra);
    RunKeeps(Init(n), extra, actions);
    RunningExactly(Init(n), extra, actions);
    var s := Run(Init(n), extra, actions);
    ApplyKeeps(s, extra, Quit);
    m := QuitEnds(Apply(s, extra, Quit), extra);
  }

  // ----- destruction ---------------------------------------------------------------

  /** Destruction may come after any run: the slots own all the allocations. */
  lemma OwnedThroughout(n: nat, extra: nat, actions: seq<Action>)
    requires n > 0
    ensures var s := Run(Init(n), extra, actions); Owned(s.slots, s.heap, s.nextId)
  {
    hide Run, Init, Owned, Window, History, AllFit;
    InitInv(n, extra);
    RunKeeps(Init(n), extra, actions);
  }

  /** Every allocation is freed, and none twice. */
  method Destroy(slots: seq<Slot>, heap: map<nat, seq<byte>>, nextId: nat) returns (heap': map<nat, seq<byte>>, freed: seq<nat>)
    requires Owned(slots, heap, nextId)
    ensures heap' == map[]
    ensures forall h :: h in heap <==> h in freed
    ensures forall i, j :: 0 <= i < j < |freed| ==> freed[i] != freed[j]
  {
    heap', freed := heap, [];
    var i := 0;
    while i < |slots|
      invariant 0 <= i <= |slots|
      invariant forall h :: h in heap' <==> h in heap && h !in freed
      invariant forall h :: h in freed ==> h in heap
      invariant forall h :: h in freed <==> exists k :: 0 <= k < i && slots[k].head == Some(h)
      invariant forall i, j :: 0 <= i < j < |freed| ==> freed[i] != freed[j]
    {
      if slots[i].head.Some? {
        assert slots[i].head.value in heap';
        heap', freed := heap' - {slots[i].head.value}, freed + [slots[i].head.value];
      }
      i := i + 1;
    }
  }
}