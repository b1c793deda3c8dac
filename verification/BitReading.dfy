/** What reading and skipping mean on the string of bits that are left. */
module BitReading {
  import opened Bits

  /** The next n bits as a number, padded with zeros past the end, and the bits after them. */
  function Read(rest: seq<bool>, n: nat): (r: (nat, seq<bool>)) {
    var m := Min(n, |rest|);
    (Shl(Value(rest[..m]), n - m), rest[m..])
  }

  lemma ReadZero(rest: seq<bool>)
    ensures Read(rest, 0) == (0, rest)
  {
  }

  lemma ReadEmpty(n: nat)
    ensures Read([], n) == (0, [])
  {
    ShlZero(n);
  }

  lemma ReadOne(rest: seq<bool>)
    ensures Read(rest, 1) == if rest == [] then (0, []) else (if rest[0] then 1 else 0, rest[1..])
  {
  }

  lemma ReadLength(rest: seq<bool>, n: nat)
    ensures |Read(rest, n).1| == |rest| - Min(n, |rest|)
  {
  }

  /** Reading n bits in two portions. */
  lemma ReadSplit(a: seq<bool>, b: seq<bool>, n: nat)
    requires |a| <= n
    ensures Read(a + b, n).0 == Shl(Value(a), n - |a|) + Read(b, n - |a|).0
    ensures Read(a + b, n).1 == Read(b, n - |a|).1
  {
    var m := Min(n, |a + b|);
    var k := m - |a|;
    assert (a + b)[..m] == a + b[..k];
    ValueConcat(a, b[..k]);
    ShlAdd(Shl(Value(a), k), Value(b[..k]), n - m);
    ShlShl(Value(a), k, n - m);
  }

  /** Reading inside the bits of one byte. */
  lemma ReadInside(v: nat, have: nat, tail: seq<bool>, n: nat)
    requires n <= have
    ensures Read(ToBits(v, have) + tail, n).0 == Low(Shr(v, have - n), n)
    ensures Read(ToBits(v, have) + tail, n).1 == ToBits(v, have - n) + tail
  {
    var a, b := ToBits(Shr(v, have - n), n), ToBits(v, have - n);
    ToBitsSplit(v, n, have - n);
    assert ToBits(v, have) + tail == a + (b + tail);
    ReadSplit(a, b + tail, n);
    ReadZero(b + tail);
    ValueOfToBits(Shr(v, have - n), n);
  }

  /** Encoding and then reading: the value comes back and nothing else is consumed. */
  lemma ReadInverse(v: nat, n: nat, tail: seq<bool>)
    requires v < Pow2(n)
    ensures Read(ToBits(v, n) + tail, n) == (v, tail)
  {
    hide Read, Value, ToBits, Shl, Shr, Low, Pow2;
    ReadSplit(ToBits(v, n), tail, n);
    ReadZero(tail);
    ValueOfToBits(v, n);
    ShlZero(n);
    ShlNone(v);
    ShrLowUnique(0, v, n);
  }

  // ----- a cursor inside bytes: what Read does to one byte -------------------

  /** The bits in front of a cursor at byte p of s with `left` bits to go in that byte. */
  ghost function BitsFrom(s: seq<byte>, p: nat, left: int): (r: seq<bool>)
    requires 1 <= left <= 8
    ensures p < |s| ==> |r| == 8 * (|s| - p) - 8 + left
    decreases |s| - p
  {
    if p >= |s| then [] else ToBits(s[p], left) + BitsFrom(s, p + 1, 8)
  }

  lemma {:induction false} BitsFromStart(s: seq<byte>, p: nat)
    requires p <= |s|
    ensures BitsFrom(s, p, 8) == Flatten(s[p..])
    decreases |s| - p
  {
    if p < |s| {
      BitsFromStart(s, p + 1);
      assert s[p..][1..] == s[p + 1..];
    }
  }

  /** The cursor's bits are the bits of the bytes with those already passed removed. */
  lemma BitsFromSuffix(s: seq<byte>, p: nat, left: int)
    requires p < |s| && 1 <= left <= 8
    ensures BitsFrom(s, p, left) == Flatten(s)[8 * p + 8 - left..]
  {
    hide Flatten, BitsFrom;
    BitsFromStart(s, p);
    FlattenDrop(s, p);
    BitsFromLess(s, p, left);
    assert Flatten(s)[8 * p..][8 - left..] == Flatten(s)[8 * p + 8 - left..];
  }

  lemma BitsFromLess(s: seq<byte>, p: nat, left: int)
    requires p < |s| && 1 <= left <= 8
    ensures BitsFrom(s, p, left) == BitsFrom(s, p, 8)[8 - left..]
  {
    hide ToBits;
    ToBitsSplit(s[p], 8 - left, left);
  }

  /** Adding the bits w of one byte below the bits already accumulated. */
  lemma Accumulate(high: nat, w: nat, have: nat, n: nat)
    requires have <= n && w < Pow2(have)
    ensures Or(Shl(high, n), Shl(w, n - have)) == Shl(high, n) + Shl(w, n - have)
    ensures Shl(high, n) + Shl(w, n - have) == Shl(Shl(high, have) + w, n - have)
  {
    ShlBound(w, have, n - have);
    ShlShl(high, have, n - have);
    ShlAdd(Shl(high, have), w, n - have);
    OrDisjoint(high, Shl(w, n - have), n);
  }

  lemma ReadByteEnd(v: nat, have: nat, tail: seq<bool>, n: nat)
    requires have <= n
    ensures Read(ToBits(v, have) + tail, n)
         == (Shl(Low(v, have), n - have) + Read(tail, n - have).0, Read(tail, n - have).1)
  {
    ReadSplit(ToBits(v, have), tail, n);
    ValueOfToBits(v, have);
  }

  lemma ReadPastEnd(s: seq<byte>, p: nat, left: int, n: nat)
    requires p >= |s| && 1 <= left <= 8
    ensures BitsFrom(s, p, left) == []
    ensures Read(BitsFrom(s, p, left), n) == (0, [])
  {
    ReadEmpty(n);
  }

  /** The step that ends inside the byte. */
  lemma StepInside(s: seq<byte>, p: nat, left: int, n: nat, high: nat)
    requires p < |s| && 1 <= left <= 8 && n <= left
    ensures Or(Shl(high, n), Low(Shr(s[p], left - n), n)) == Shl(high, n) + Read(BitsFrom(s, p, left), n).0
    ensures Read(BitsFrom(s, p, left), n).1
         == if n == left then BitsFrom(s, p + 1, 8) else BitsFrom(s, p, left - n)
  {
    ReadInside(s[p], left, BitsFrom(s, p + 1, 8), n);
    OrDisjoint(high, Low(Shr(s[p], left - n), n), n);
  }

  /** The step that uses up the byte. */
  lemma StepByteEnd(s: seq<byte>, p: nat, left: int, n: nat, high: nat)
    requires p < |s| && 1 <= left <= 8 && left <= n
    ensures Or(Shl(high, n), Shl(Low(s[p], left), n - left)) == Shl(Shl(high, left) + Low(s[p], left), n - left)
    ensures Shl(high, n) + Read(BitsFrom(s, p, left), n).0
         == Shl(Shl(high, left) + Low(s[p], left), n - left) + Read(BitsFrom(s, p + 1, 8), n - left).0
    ensures Read(BitsFrom(s, p, left), n).1 == Read(BitsFrom(s, p + 1, 8), n - left).1
  {
    hide Or, Low, Shl, Shr, ToBits, Pow2, Value, Read;
    ReadByteEnd(s[p], left, BitsFrom(s, p + 1, 8), n);
    Accumulate(high, Low(s[p], left), left, n);
  }

  /** Moving a cursor by n bits without looking at the end. */
  lemma SkipBits(s: seq<byte>, p: nat, left: int, q: nat, left': int, n: nat)
    requires p <= q && 1 <= left <= 8 && 1 <= left' <= 8
    requires 8 * q + 8 - left' == 8 * p + 8 - left + n
    ensures BitsFrom(s, q, left') == Read(BitsFrom(s, p, left), n).1
  {
    if p < |s| {
      BitsFromSuffix(s, p, left);
      if q < |s| {
        BitsFromSuffix(s, q, left');
      }
    }
  }

  /** The four bytes bs_show looks at, as one word. */
  function Word(s: seq<byte>, p: nat): nat
    requires p + 4 <= |s|
  {
    Shl(s[p], 24) + Shl(s[p + 1], 16) + Shl(s[p + 2], 8) + s[p + 3]
  }

  lemma WordBits(s: seq<byte>, p: nat)
    requires p + 4 <= |s|
    ensures Word(s, p) == Value(Flatten(s[p..p + 4]))
  {
    var a, b, c, d := ToBits(s[p], 8), ToBits(s[p + 1], 8), ToBits(s[p + 2], 8), ToBits(s[p + 3], 8);
    assert s[p..p + 4] == [s[p]] + ([s[p + 1]] + ([s[p + 2]] + [s[p + 3]]));
    FlattenConcat([s[p]], [s[p + 1]] + ([s[p + 2]] + [s[p + 3]]));
    FlattenConcat([s[p + 1]], [s[p + 2]] + [s[p + 3]]);
    FlattenConcat([s[p + 2]], [s[p + 3]]);
    FlattenOne(s[p]);
    FlattenOne(s[p + 1]);
    FlattenOne(s[p + 2]);
    FlattenOne(s[p + 3]);
    ValueConcat(a, b + (c + d));
    ValueConcat(b, c + d);
    ValueConcat(c, d);
    ByteValue(s[p]);
    ByteValue(s[p + 1]);
    ByteValue(s[p + 2]);
    ByteValue(s[p + 3]);
  }

  lemma FlattenOne(b: byte)
    ensures Flatten([b]) == ToBits(b, 8)
  {
    FlattenSnoc([], b);
    assert [] + [b] == [b];
  }

  lemma ByteValue(b: byte)
    ensures Value(ToBits(b, 8)) == b
  {
    ValueOfToBits(b, 8);
    assert Pow2(8) == 256;
    ShrLowUnique(0, b, 8);
    ShlZero(8);
  }

  /** The shifts of bs_show pick the next n bits out of the word. */
  lemma ShowBits(word: seq<bool>, skip: nat, n: nat)
    requires |word| == 32 && skip + n <= 32
    ensures Shr(Low(Shl(Value(word), skip), 32), 32 - n) == Value(word[skip..skip + n])
  {
    var wide := word + Repeat(false, skip);
    ValueTrailingZeros(word, skip);
    ValueSuffix(wide, 32);
    var tail := wide[skip..];
    assert wide[|wide| - 32..] == tail;
    ValuePrefix(tail, n);
    assert tail[..n] == word[skip..skip + n];
  }

  /** bs_show sees what bs_read would return, as long as four bytes are there to look at. */
  lemma ShowIsRead(s: seq<byte>, p: nat, left: int, n: nat)
    requires p + 4 <= |s| && 1 <= left <= 8 && 8 - left + n <= 32
    ensures Shr(Low(Shl(Word(s, p), 8 - left), 32), 32 - n) == Read(BitsFrom(s, p, left), n).0
  {
    hide Flatten, Word, BitsFrom;
    var word := Flatten(s[p..p + 4]);
    WordBits(s, p);
    ShowBits(word, 8 - left, n);
    BitsFromSuffix(s, p, left);
    FlattenDrop(s, p);
    FlattenConcat(s[p..p + 4], s[p + 4..]);
    assert s[p..] == s[p..p + 4] + s[p + 4..];
    assert Read(BitsFrom(s, p, left), n).0 == Value(word[8 - left..8 - left + n]) by {
      assert BitsFrom(s, p, left)[..n] == word[8 - left..8 - left + n];
    }
  }
}
