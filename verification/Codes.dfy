/** Any mixture of codes: the writer's calls in order, and the reader's matching calls. */
module Codes {
  import opened Bits
  import opened BitReading
  import opened Golomb

  datatype Code =
    | Fixed(n: nat, v: nat)
    | Flag(b: bool)
    | Ue(v: nat)
    | Se(s: int)
    | Te(x: int, v: nat)

  /** What the reader has to know about a code: everything but its value. */
  datatype Slot =
    | FixedSlot(n: nat)
    | FlagSlot
    | UeSlot
    | SeSlot
    | TeSlot(x: int)

  /** The values the writer can write. */
  predicate Writable(c: Code) {
    match c
    case Fixed(n, v) => n <= 32 && v < Pow2(n)
    case Flag(_) => true
    case Ue(v) => v + 1 < 0x1_0000
    case Se(s) => -0x7fff <= s <= 0x7fff
    case Te(x, v) => v + 1 < 0x1_0000 && (x == 1 ==> v <= 1) && (x <= 0 ==> v == 0)
  }

  /** The values the reader gets back: a wider range than the writer's. */
  predicate Readable(c: Code) {
    match c
    case Fixed(n, v) => n <= 32 && v < Pow2(n)
    case Flag(_) => true
    case Ue(v) => v + 1 < 0x8000_0000
    case Se(s) => -0x3fff_ffff <= s <= 0x3fff_ffff
    case Te(x, v) => v + 1 < 0x8000_0000 && (x == 1 ==> v <= 1) && (x <= 0 ==> v == 0)
  }

  predicate AllWritable(cs: seq<Code>) {
    forall i :: 0 <= i < |cs| ==> Writable(cs[i])
  }

  predicate AllReadable(cs: seq<Code>) {
    forall i :: 0 <= i < |cs| ==> Readable(cs[i])
  }

  lemma WritableIsReadable(cs: seq<Code>)
    requires AllWritable(cs)
    ensures AllReadable(cs)
  {
    forall i | 0 <= i < |cs|
      ensures Readable(cs[i])
    {
      assert Writable(cs[i]);
    }
  }

  function SlotOf(c: Code): Slot {
    match c
    case Fixed(n, _) => FixedSlot(n)
    case Flag(_) => FlagSlot
    case Ue(_) => UeSlot
    case Se(_) => SeSlot
    case Te(x, _) => TeSlot(x)
  }

  function ValueOf(c: Code): int {
    match c
    case Fixed(_, v) => v
    case Flag(b) => if b then 1 else 0
    case Ue(v) => v
    case Se(s) => s
    case Te(_, v) => v
  }

  function Encode(c: Code): seq<bool> {
    match c
    case Fixed(n, v) => ToBits(v, n)
    case Flag(b) => [b]
    case Ue(v) => UeBits(v)
    case Se(s) => UeBits(SeToUe(s))
    case Te(x, v) => TeBits(x, v)
  }

  function EncodeAll(cs: seq<Code>): seq<bool> {
    if cs == [] then [] else Encode(cs[0]) + EncodeAll(cs[1..])
  }

  function ReadSlot(slot: Slot, rest: seq<bool>): (int, seq<bool>) {
    match slot
    case FixedSlot(n) => Read(rest, n)
    case FlagSlot => Read(rest, 1)
    case UeSlot => ReadUe(rest)
    case SeSlot => ReadSe(rest)
    case TeSlot(x) => ReadTe(rest, x)
  }

  function ReadSlots(slots: seq<Slot>, rest: seq<bool>): (r: (seq<int>, seq<bool>)) {
    if slots == [] then ([], rest)
    else
      var (v, r) := ReadSlot(slots[0], rest);
      var (vs, r') := ReadSlots(slots[1..], r);
      ([v] + vs, r')
  }

  function SlotsOf(cs: seq<Code>): (slots: seq<Slot>)
    ensures |slots| == |cs|
  {
    seq(|cs|, i requires 0 <= i < |cs| => SlotOf(cs[i]))
  }

  function ValuesOf(cs: seq<Code>): (vs: seq<int>)
    ensures |vs| == |cs|
  {
    seq(|cs|, i requires 0 <= i < |cs| => ValueOf(cs[i]))
  }

  /** One code: the reader returns the written value and stands right behind the code. */
  lemma ReadCode(c: Code, tail: seq<bool>)
    requires Readable(c)
    ensures ReadSlot(SlotOf(c), Encode(c) + tail) == (ValueOf(c), tail)
  {
    hide ReadUe, ReadSe, UeBits, SeToUe, Read, ToBits, Pow2;
    match c
    case Fixed(n, v) => ReadInverse(v, n, tail);
    case Flag(b) => ReadOne([b] + tail);
    case Ue(v) => ReadUeInverse(v, tail);
    case Se(s) => ReadSeInverse(s, tail);
    case Te(x, v) =>
      if x == 1 {
        ReadOne([v % 2 == 0] + tail);
      } else if x > 1 {
        ReadUeInverse(v, tail);
      } else {
        assert [] + tail == tail;
      }
  }

  /** Any sequence of codes: the matching reads return exactly the written values. */
  lemma {:induction false} ReadCodes(cs: seq<Code>, tail: seq<bool>)
    requires AllReadable(cs)
    ensures ReadSlots(SlotsOf(cs), EncodeAll(cs) + tail) == (ValuesOf(cs), tail)
  {
    hide ReadSlot, Encode, SlotOf, ValueOf, Readable;
    if cs == [] {
      assert EncodeAll(cs) + tail == tail;
    } else {
      ReadCode(cs[0], EncodeAll(cs[1..]) + tail);
      Assoc(Encode(cs[0]), EncodeAll(cs[1..]), tail);
      ReadCodes(cs[1..], tail);
      assert SlotsOf(cs)[1..] == SlotsOf(cs[1..]);
      assert ValuesOf(cs) == [ValueOf(cs[0])] + ValuesOf(cs[1..]);
    }
  }

  lemma {:induction false} EncodeAllSnoc(cs: seq<Code>, c: Code)
    ensures EncodeAll(cs + [c]) == EncodeAll(cs) + Encode(c)
  {
    hide Encode;
    if cs == [] {
      assert cs + [c] == [c];
      Assoc(Encode(c), [], []);
    } else {
      EncodeAllSnoc(cs[1..], c);
      assert (cs + [c])[1..] == cs[1..] + [c];
      Assoc(Encode(cs[0]), EncodeAll(cs[1..]), Encode(c));
    }
  }
}

/** Whole runs of the writer and the reader over one buffer. */
module RoundTrip {
  import opened Bits
  import opened BitReading
  import opened BitWriting
  import opened Golomb
  import opened Codes
  import opened BitStreams

  /** The writer's call for one code. */
  method WriteCode(s: BitStream, c: Code)
    requires s.CanWrite() && s.Room() && Writable(c)
    modifies s`p, s`left, s.data
    ensures s.CanWrite() && s.Written() == old(s.Written()) + Encode(c)
    ensures s.Pos() == old(s.Pos()) + |Encode(c)|
    ensures s.Untouched(old(s.data[..]), old(s.p))
  {
    hide WrittenBits, UeBits, ToBits;
    match c
    case Fixed(n, v) =>
      Pow2Mono(n, 32);
      Pow2At31();
      s.Write(n, v);
    case Flag(b) => s.Write1(if b then 1 else 0);
    case Ue(v) =>
      s.SmallUeFits(v);
      s.WriteUe(v);
    case Se(v) =>
      s.SmallUeFits(SeToUe(v));
      s.WriteSe(v);
    case Te(x, v) =>
      s.SmallUeFits(v);
      s.WriteTe(x, v);
  }

  /** The reader's call for one slot. */
  method ReadCodeAt(s: BitStream, slot: Slot) returns (v: int)
    requires s.Valid() && (slot.FixedSlot? ==> slot.n <= 32)
    modifies s`p, s`left
    ensures s.Valid() && s.OnTrack(old(s.p), old(s.left))
    ensures (v, s.Rest()) == ReadSlot(slot, old(s.Rest()))
  {
    match slot
    case FixedSlot(n) => v := s.Read(n);
    case FlagSlot => v := s.Read1();
    case UeSlot => v := s.ReadUe();
    case SeSlot => v := s.ReadSe();
    case TeSlot(x) => v := s.ReadTe(x);
  }

  method WriteCodes(s: BitStream, cs: seq<Code>)
    requires s.CanWrite() && AllWritable(cs)
    requires s.Pos() + |EncodeAll(cs)| + 33 <= 8 * (s.end - s.start)
    modifies s`p, s`left, s.data
    ensures s.CanWrite() && s.Written() == old(s.Written()) + EncodeAll(cs)
    ensures s.Pos() == old(s.Pos()) + |EncodeAll(cs)|
  {
    hide WrittenBits, Encode, Writable;
    Assoc(s.Written(), [], []);
    ghost var w0 := s.Written();
    for i := 0 to |cs|
      invariant s.CanWrite() && s.Written() == w0 + EncodeAll(cs[..i])
      invariant s.Pos() == old(s.Pos()) + |EncodeAll(cs[..i])|
    {
      EncodeAllSplit(cs, i);
      EncodeAllSnoc(cs[..i], cs[i]);
      assert cs[..i + 1] == cs[..i] + [cs[i]];
      Assoc(w0, EncodeAll(cs[..i]), Encode(cs[i]));
      WriteCode(s, cs[i]);
    }
    assert cs[..|cs|] == cs;
  }

  lemma {:induction false} EncodeAllSplit(cs: seq<Code>, i: nat)
    requires i <= |cs|
    ensures |EncodeAll(cs[..i])| <= |EncodeAll(cs)|
  {
    hide Encode;
    if i > 0 {
      EncodeAllSplit(cs[1..], i - 1);
      assert cs[..i][1..] == cs[1..][..i - 1];
    }
  }

  method ReadCodesAt(s: BitStream, slots: seq<Slot>) returns (vs: seq<int>)
    requires s.Valid() && forall i :: 0 <= i < |slots| && slots[i].FixedSlot? ==> slots[i].n <= 32
    modifies s`p, s`left
    ensures s.Valid() && s.OnTrack(old(s.p), old(s.left))
    ensures (vs, s.Rest()) == ReadSlots(slots, old(s.Rest()))
  {
    hide ReadSlot, BitsFrom;
    vs := [];
    ghost var whole := ReadSlots(slots, s.Rest());
    assert slots[0..] == slots && [] + whole.0 == whole.0;
    for i := 0 to |slots|
      invariant s.Valid() && s.OnTrack(old(s.p), old(s.left))
      invariant whole == (vs + ReadSlots(slots[i..], s.Rest()).0, ReadSlots(slots[i..], s.Rest()).1)
    {
      assert slots[i..][1..] == slots[i + 1..];
      ghost var later := ReadSlots(slots[i + 1..], ReadSlot(slots[i], s.Rest()).1);
      var v := ReadCodeAt(s, slots[i]);
      Assoc(vs, [v], later.0);
      vs := vs + [v];
    }
    Assoc(vs, [], []);
  }

  /**
   * Write any mixture of codes and the RBSP trailing bits into a buffer holding anything, then
   * read from the start: the values come back and the reader stands at the stop bit.
   */
  method MixedRoundTrip(buf: array<byte>, start: nat, len: nat, cs: seq<Code>)
    returns (values: seq<int>, r: BitStream)
    requires start + len <= buf.Length && AllWritable(cs)
    requires |EncodeAll(cs)| + 33 <= 8 * len
    modifies buf
    ensures values == ValuesOf(cs)
    ensures r.Valid() && r.Pos() == |EncodeAll(cs)|
    ensures [true] + Repeat(false, 7 - |EncodeAll(cs)| % 8) <= r.Rest()
  {
    hide WrittenBits, BitsFrom, EncodeAll, ReadSlots, SlotsOf, ValuesOf, Flatten, Writable, AllReadable;
    WritableIsReadable(cs);
    var w := new BitStream(buf, start, len);
    WriteCodes(w, cs);
    ghost var stop := [true] + Repeat(false, w.left - 1);
    assert w.left == 8 - |EncodeAll(cs)| % 8;
    Assoc(EncodeAll(cs), [true], Repeat(false, w.left - 1));
    assert [] + EncodeAll(cs) == EncodeAll(cs);
    w.RbspTrailing();
    ghost var more := WrittenPrefix(buf[..], start, w.p, start + len);
    r := new BitStream(buf, start, len);
    Assoc(EncodeAll(cs), stop, more);
    ReadCodes(cs, stop + more);
    SlotsInRange(cs);
    values := ReadCodesAt(r, SlotsOf(cs));
    assert r.Rest() == stop + more;
    r.PosFromLength();
  }

  lemma SlotsInRange(cs: seq<Code>)
    requires AllWritable(cs)
    ensures forall i :: 0 <= i < |cs| && SlotsOf(cs)[i].FixedSlot? ==> SlotsOf(cs)[i].n <= 32
  {
    forall i | 0 <= i < |cs| && SlotsOf(cs)[i].FixedSlot?
      ensures SlotsOf(cs)[i].n <= 32
    {
      assert Writable(cs[i]);
    }
  }

  /** A reader of the whole buffer sees the written bytes first. */
  lemma WrittenPrefix(s: seq<byte>, start: nat, p: nat, end: nat) returns (more: seq<bool>)
    requires start <= p <= end <= |s|
    ensures Flatten(s[start..end]) == WrittenBits(s, start, p, 8) + more
  {
    more := Flatten(s[p..end]);
    WholeBytesFlatten(s, start, p);
    FlattenConcat(s[start..p], s[p..end]);
    assert s[start..end] == s[start..p] + s[p..end];
  }
}
