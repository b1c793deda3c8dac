/** What writing means on bytes: whole bytes first, the byte in progress kept right-aligned. */
module BitWriting {
  import opened Bits

  /** A number truncated to eight bits. */
  function Byte(v: nat): byte {
    assert Pow2(8) == 256;
    Low(v, 8)
  }

  /** The bits of the whole bytes from start to p. */
  ghost function WholeBytes(s: seq<byte>, start: nat, p: nat): seq<bool>
    requires start <= p <= |s|
  {
    if p == start then [] else WholeBytes(s, start, p - 1) + ToBits(s[p - 1], 8)
  }

  /** The bits written between start and the cursor at byte p with `left` bits free in it. */
  ghost function WrittenBits(s: seq<byte>, start: nat, p: nat, left: int): seq<bool>
    requires start <= p <= |s| && 1 <= left <= 8
    requires left < 8 ==> p < |s|
  {
    WholeBytes(s, start, p) + (if left < 8 then ToBits(s[p], 8 - left) else [])
  }

  lemma {:induction false} WholeBytesFrame(s: seq<byte>, t: seq<byte>, start: nat, p: nat)
    requires start <= p <= |s| && |t| == |s|
    requires forall k :: start <= k < p ==> s[k] == t[k]
    ensures WholeBytes(s, start, p) == WholeBytes(t, start, p)
  {
    if start < p {
      WholeBytesFrame(s, t, start, p - 1);
    }
  }

  /** What was written is what a reader of those bytes sees. */
  lemma {:induction false} WholeBytesFlatten(s: seq<byte>, start: nat, p: nat)
    requires start <= p <= |s|
    ensures WholeBytes(s, start, p) == Flatten(s[start..p])
  {
    if start < p {
      WholeBytesFlatten(s, start, p - 1);
      FlattenSnoc(s[start..p - 1], s[p - 1]);
      assert s[start..p] == s[start..p - 1] + [s[p - 1]];
    }
  }

  /** Where the cursor goes after n more bits, n <= left. */
  function NextP(p: nat, left: int, n: nat): nat {
    if n == left then p + 1 else p
  }

  function NextLeft(left: int, n: nat): int {
    if n == left then 8 else left - n
  }

  /** The low bits of the new byte are the old ones followed by those of w. */
  lemma PutBits(b: byte, used: nat, n: nat, w: nat)
    requires used + n <= 8 && w < Pow2(n)
    ensures ToBits(Byte(Or(Shl(b, n), w)), used + n) == ToBits(b, used) + ToBits(w, n)
  {
    hide Or, Shl, Low, ToBits;
    OrDisjoint(b, w, n);
    ToBitsMod(Shl(b, n) + w, 8, used + n);
    ToBitsAppend(b, w, used, n);
  }

  /** Storing a byte whose low bits are the old ones followed by `more` appends `more`. */
  lemma Append(s: seq<byte>, start: nat, p: nat, left: int, more: seq<bool>, b: byte)
    requires start <= p < |s| && 1 <= left <= 8 && |more| <= left
    requires ToBits(b, 8 - left + |more|) == ToBits(s[p], 8 - left) + more
    ensures WrittenBits(s[p := b], start, NextP(p, left, |more|), NextLeft(left, |more|))
         == WrittenBits(s, start, p, left) + more
  {
    hide ToBits;
    ToBitsNone(s[p]);
    ToBitsNone(b);
    var t := s[p := b];
    WholeBytesFrame(s, t, start, p);
    Assoc(WholeBytes(s, start, p), ToBits(s[p], 8 - left), more);
    if |more| == left {
      assert WholeBytes(t, start, p + 1) == WholeBytes(s, start, p) + ToBits(t[p], 8);
    }
  }

  /** Shifting the byte in progress and putting n bits below it appends those bits. */
  lemma Put(s: seq<byte>, start: nat, p: nat, left: int, n: nat, w: nat)
    requires start <= p < |s| && 1 <= left <= 8 && n <= left && w < Pow2(n)
    ensures WrittenBits(s[p := Byte(Or(Shl(s[p], n), w))], start, NextP(p, left, n), NextLeft(left, n))
         == WrittenBits(s, start, p, left) + ToBits(w, n)
  {
    hide Or, Shl, Byte, ToBits, Low, Pow2, WrittenBits, WholeBytes;
    PutBits(s[p], 8 - left, n, w);
    Append(s, start, p, left, ToBits(w, n), Byte(Or(Shl(s[p], n), w)));
  }

  /** Shift first, truncate, then or: the same byte. */
  lemma ByteOr(v: nat, w: nat, n: nat)
    requires n <= 8 && w < Pow2(n)
    ensures Or(Byte(Shl(v, n)), w) == Byte(Or(Shl(v, n), w))
  {
    hide Or, Shl, Low, Pow2;
    LowShl(v, w, n, 8);
    LowShl0(v, n);
    OrDisjoint(v, w, n);
    OrDisjoint(Low(v, 8 - n), w, n);
  }

  /** A byte with one bit or-ed in needs no truncation. */
  lemma ByteOfByte(v: nat, b: byte, bit: nat)
    requires bit <= 1 && v == Or(Byte(Shl(b, 1)), bit)
    ensures Byte(v) == v
  {
    assert Pow2(8) == 256;
    hide Or, Shl, Pow2;
    OrByteBound(Byte(Shl(b, 1)), bit);
    ShrLowUnique(0, v, 8);
    ShlZero(8);
  }

  lemma OrByteBound(b: byte, bit: nat)
    requires bit <= 1
    ensures Or(b, bit) < 256
  {
    assert Pow2(8) == 256;
    OrBound(b, bit, 8);
  }

  lemma LowShl0(v: nat, n: nat)
    requires n <= 8
    ensures Low(Shl(v, n), 8) == Shl(Low(v, 8 - n), n)
  {
    LowShl(v, 0, n, 8);
  }

  lemma {:induction false} LowShl(v: nat, w: nat, n: nat, m: nat)
    requires n <= m && w < Pow2(n)
    ensures Low(Shl(v, n) + w, m) == Shl(Low(v, m - n), n) + w
  {
    if n > 0 {
      var x := Shl(v, n) + w;
      assert x / 2 == Shl(v, n - 1) + w / 2 && x % 2 == w % 2;
      LowShl(v, w / 2, n - 1, m - 1);
    }
  }

  /** Or-ing n low bits into a byte that was shifted left by n leaves a byte. */
  function OrByte(b: byte, w: nat): byte
    requires w < 256
  {
    assert Pow2(8) == 256;
    OrBound(b, w, 8);
    Or(b, w)
  }

  lemma {:induction false} OrBound(v: nat, w: nat, n: nat)
    requires v < Pow2(n) && w < Pow2(n)
    ensures Or(v, w) < Pow2(n)
  {
    if n > 0 {
      OrBound(v / 2, w / 2, n - 1);
    }
  }

  lemma PowByte(n: nat)
    requires n < 8
    ensures Pow2(n) < 256
  {
    assert Pow2(8) == 256;
    Pow2Mono(n, 7);
  }

  lemma OneBit(bit: nat)
    requires bit <= 1
    ensures bit < Pow2(1) && ToBits(bit, 1) == [bit == 1]
  {
  }
}
