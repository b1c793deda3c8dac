/**
 * The Exp-Golomb codes of sections 9.1 and 9.1.1 of ITU-T H.264, and what the reader of bs.h
 * makes of any string of bits.
 */
module Golomb {
  import opened Bits
  import opened BitReading

  // ----- the codes -----------------------------------------------------------

  /** ue(v): k zeros, a one, and the low k bits of v + 1, where v + 1 has k + 1 digits. */
  function UeBits(v: nat): (b: seq<bool>) {
    BitLengthBounds(v + 1);
    var k := BitLength(v + 1) - 1;
    Repeat(false, k) + [true] + ToBits(v + 1, k)
  }

  /** se(v): the signed numbers 0, 1, -1, 2, -2, ... in the order of their ue codes. */
  function SeToUe(v: int): nat {
    if v <= 0 then -v * 2 else v * 2 - 1
  }

  function UeToSe(v: int): int {
    if v % 2 == 1 then (v + 1) / 2 else -(v / 2)
  }

  lemma SeInverse(v: int)
    ensures UeToSe(SeToUe(v)) == v
  {
  }

  /** The code word is v + 1 in binary behind leading zeros: 2 * digits - 1 bits in all. */
  lemma UeBitsBinary(v: nat)
    ensures BitLength(v + 1) >= 1
    ensures UeBits(v) == ToBits(v + 1, 2 * BitLength(v + 1) - 1)
  {
    BitLengthBounds(v + 1);
    var k := BitLength(v + 1) - 1;
    BitLengthShift(v + 1, k);
    var top := Shr(v + 1, k);
    assert top == 1 by {
      BitLengthBounds(top);
      assert Pow2(1) == 2;
    }
    ToBitsSplit(v + 1, k + 1, k);
    ToBitsOne(k);
  }

  lemma {:induction false} ToBitsOne(k: nat)
    ensures ToBits(1, k + 1) == Repeat(false, k) + [true]
  {
    ToBitsZero(k);
  }

  lemma UeBitsOfZero()
    ensures UeBits(0) == [true]
  {
    assert BitLength(1) == 1;
  }

  // ----- reading -------------------------------------------------------------

  /** Two's complement reading of the low 32 bits. */
  function ToInt32(x: int): int {
    var m := x % 0x1_0000_0000;
    if m >= 0x8000_0000 then m - 0x1_0000_0000 else m
  }

  /**
   * The zeros before the next one, counted from i: stops behind a one, behind the last bit,
   * past the end, or once 32 zeros have been counted.
   */
  function Zeros(rest: seq<bool>, i: nat): (r: (nat, seq<bool>))
    requires i <= 32
    ensures r.0 <= 32
    decreases |rest|
  {
    if rest == [] then (i, [])
    else if rest[0] || |rest| == 1 || i == 32 then (i, rest[1..])
    else Zeros(rest[1..], i + 1)
  }

  /** One reading of a bit in the loop that counts zeros. */
  lemma ZerosStep(rest: seq<bool>, i: nat)
    requires i <= 32
    ensures Zeros(rest, i) ==
      var (bit, r) := Read(rest, 1);
      if bit == 0 && r != [] && i < 32 then Zeros(r, i + 1) else (i, r)
  {
    ReadOne(rest);
  }

  function ReadUe(rest: seq<bool>): (int, seq<bool>) {
    var (i, r) := Zeros(rest, 0);
    var (v, r') := Read(r, i);
    (ToInt32(Pow2(i) - 1 + v), r')
  }

  function ReadSe(rest: seq<bool>): (int, seq<bool>) {
    var (v, r) := ReadUe(rest);
    (UeToSe(v), r)
  }

  function ReadTe(rest: seq<bool>, x: int): (int, seq<bool>) {
    if x == 1 then
      var (v, r) := Read(rest, 1);
      (1 - v, r)
    else if x > 1 then ReadUe(rest)
    else (0, rest)
  }

  lemma {:induction false} ZerosOfCode(k: nat, i: nat, tail: seq<bool>)
    requires i + k <= 32
    ensures Zeros(Repeat(false, k) + [true] + tail, i) == (i + k, tail)
  {
    var code := Repeat(false, k) + [true] + tail;
    if k == 0 {
      assert code == [true] + tail;
    } else {
      ZerosOfCode(k - 1, i + 1, tail);
      assert code[1..] == Repeat(false, k - 1) + [true] + tail;
    }
  }

  lemma CodeZeros(v: nat, k: nat, tail: seq<bool>)
    requires k == BitLength(v + 1) - 1 && k <= 32
    ensures Zeros(UeBits(v) + tail, 0) == (k, ToBits(v + 1, k) + tail)
  {
    hide ToBits, Zeros, BitLength;
    Assoc(Repeat(false, k) + [true], ToBits(v + 1, k), tail);
    ZerosOfCode(k, 0, ToBits(v + 1, k) + tail);
  }

  lemma InfoBits(v: nat, k: nat, tail: seq<bool>)
    requires Pow2(k) <= v + 1 < Pow2(k + 1)
    ensures Read(ToBits(v + 1, k) + tail, k) == (v + 1 - Pow2(k), tail)
  {
    hide ToBits, Low, Read, Pow2;
    LowOfLeadingOne(v + 1, k);
    ToBitsMod(v + 1, k, k);
    ReadInverse(Low(v + 1, k), k, tail);
  }

  lemma CodeDigits(v: nat, m: nat)
    requires v + 1 < Pow2(m)
    ensures 1 <= BitLength(v + 1) <= m
    ensures Pow2(BitLength(v + 1) - 1) <= v + 1 < Pow2(BitLength(v + 1))
  {
    BitLengthBounds(v + 1);
    if BitLength(v + 1) > m {
      Pow2Mono(m, BitLength(v + 1) - 1);
    }
  }

  /** Reading a ue code gives back its number and consumes exactly the code. */
  lemma ReadUeInverse(v: nat, tail: seq<bool>)
    requires v + 1 < 0x8000_0000
    ensures ReadUe(UeBits(v) + tail) == (v, tail)
  {
    hide UeBits, Zeros, Read, BitLength, Pow2, ToBits;
    Pow2At31();
    CodeDigits(v, 31);
    var k := BitLength(v + 1) - 1;
    CodeZeros(v, k, tail);
    InfoBits(v, k, tail);
  }

  lemma Pow2At31()
    ensures Pow2(8) == 256 && Pow2(16) == 65536 && Pow2(31) == 0x8000_0000 && Pow2(32) == 0x1_0000_0000
  {
    assert Pow2(8) == 256;
    assert Pow2(16) == 65536;
    assert Pow2(24) == 0x100_0000;
  }

  /** Masking a number of k + 1 digits to k bits takes its leading one away. */
  lemma {:induction false} LowOfLeadingOne(v: nat, k: nat)
    requires Pow2(k) <= v < Pow2(k + 1)
    ensures Low(v, k) == v - Pow2(k)
  {
    if k > 0 {
      LowOfLeadingOne(v / 2, k - 1);
    }
  }

  lemma ReadSeInverse(v: int, tail: seq<bool>)
    requires -0x3fff_ffff <= v <= 0x3fff_ffff
    ensures ReadSe(UeBits(SeToUe(v)) + tail) == (v, tail)
  {
    ReadUeInverse(SeToUe(v), tail);
    SeInverse(v);
  }

  // ----- numbers that a table carries in these codes --------------------------

  predicate IsUe(v: int) {
    0 <= v && v + 1 < 0x8000_0000
  }

  predicate IsSe(v: int) {
    -0x3fff_ffff <= v <= 0x3fff_ffff
  }

  function UeOf(v: int): seq<bool> {
    if v < 0 then [] else UeBits(v)
  }

  function SeOf(v: int): seq<bool> {
    UeBits(SeToUe(v))
  }

  function SesBits(s: seq<int>, tail: seq<bool>): seq<bool> {
    if s == [] then tail else SeOf(s[0]) + SesBits(s[1..], tail)
  }

  lemma ReadUeOf(v: int, tail: seq<bool>)
    requires IsUe(v)
    ensures ReadUe(UeOf(v) + tail) == (v, tail)
  {
    ReadUeInverse(v, tail);
  }

  lemma ReadSeOf(v: int, tail: seq<bool>)
    requires IsSe(v)
    ensures ReadSe(SeOf(v) + tail) == (v, tail)
  {
    ReadSeInverse(v, tail);
  }

  lemma SeOfUe(v: int)
    requires IsSe(v)
    ensures IsUe(SeToUe(v)) && SeOf(v) == UeOf(SeToUe(v))
  {
  }

  // ----- the two table-driven size computations ------------------------------

  const SIZE0_255: seq<nat> :=
    Repeat(1, 2) + Repeat(2, 2) + Repeat(3, 4) + Repeat(4, 8) +
    Repeat(5, 16) + Repeat(6, 32) + Repeat(7, 64) + Repeat(8, 128)

  const SIZE0_254: seq<nat> :=
    Repeat(1, 1) + Repeat(3, 2) + Repeat(5, 4) + Repeat(7, 8) +
    Repeat(9, 16) + Repeat(11, 32) + Repeat(13, 64) + Repeat(15, 128)

  lemma BitLengthOfByte(v: nat)
    requires 1 <= v < 256
    ensures v < 2 ==> BitLength(v) == 1
    ensures 2 <= v < 4 ==> BitLength(v) == 2
    ensures 4 <= v < 8 ==> BitLength(v) == 3
    ensures 8 <= v < 16 ==> BitLength(v) == 4
    ensures 16 <= v < 32 ==> BitLength(v) == 5
    ensures 32 <= v < 64 ==> BitLength(v) == 6
    ensures 64 <= v < 128 ==> BitLength(v) == 7
    ensures 128 <= v ==> BitLength(v) == 8
  {
    if v >= 2 {
      BitLengthOfByte(v / 2);
    }
  }

  /** The writer's table holds the number of digits of its index. */
  lemma WriterTable(v: nat)
    requires 1 <= v < 256
    ensures |SIZE0_255| == 256 && SIZE0_255[v] == BitLength(v)
  {
    BitLengthOfByte(v);
  }

  /** The size table holds the length of the code of its index. */
  lemma SizeTable(v: nat)
    requires v < 255
    ensures |SIZE0_254| == 255 && SIZE0_254[v] == 2 * BitLength(v + 1) - 1 == |UeBits(v)|
  {
    BitLengthOfByte(v + 1);
  }

  /** The digits of v, as the writer finds them: two halvings of the range and a table. */
  method CodeSize(v: nat) returns (size: nat)
    requires 0 < v < 0x1_0000_0000
    ensures size == BitLength(v)
  {
    var tmp := v;
    size := 0;
    Pow2At31();
    if tmp >= 0x1_0000 {
      size := size + 16;
      BitLengthShift(tmp, 16);
      ShrBound(tmp, 16, 16);
      tmp := Shr(tmp, 16);
    }
    if tmp >= 0x100 {
      size := size + 8;
      BitLengthShift(tmp, 8);
      ShrBound(tmp, 8, 8);
      tmp := Shr(tmp, 8);
    }
    WriterTable(tmp);
    size := size + SIZE0_255[tmp];
  }

  lemma Pow2AtBytes()
    ensures Pow2(8) == 256 && Pow2(16) == 0x1_0000 && Pow2(24) == 0x100_0000
  {
    Pow2At31();
    assert Pow2(16) == 65536;
    assert Pow2(24) == 0x100_0000;
  }

  /** Shifting out k bits of a number of at most k + 8 bits takes k bits off the length of its code. */
  lemma CodeShorter(v: nat, k: nat)
    requires Pow2(k) <= v < Pow2(8 + k)
    ensures 1 <= Shr(v, k) < 256 && |UeBits(Shr(v, k) - 1)| + 2 * k == |UeBits(v - 1)|
  {
    BitLengthShift(v, k);
    ShrBound(v, 8, k);
    assert Pow2(8) == 256;
    hide Shr;
  }

  /** bs_size_ue: another split of the range and another table. */
  function SizeUe(v: nat): (size: nat)
    requires v + 1 < 0x100_0000
    ensures size == |UeBits(v)|
  {
    if v < 255 then
      SizeTable(v);
      SIZE0_254[v]
    else
      Pow2AtBytes();
      var s0 := if v + 1 >= 0x1_0000 then 32 else 0;
      var v0 := if v + 1 >= 0x1_0000 then CodeShorter(v + 1, 16); Shr(v + 1, 16) - 1 else v + 1;
      var s1 := if v0 >= 0x100 then s0 + 16 else s0;
      var v1 := if v0 >= 0x100 then CodeShorter(v0, 8); Shr(v0, 8) - 1 else v0;
      SizeTable(v1);
      SIZE0_254[v1] + s1
  }

  function SizeSe(v: int): (size: nat)
    requires -0x7f_ffff <= v <= 0x7f_ffff
    ensures size == |UeBits(SeToUe(v))|
  {
    SizeUe(SeToUe(v))
  }

  /** te(v) for the range x; for the range 1 only the low bit of v counts. */
  function TeBits(x: int, v: int): seq<bool> {
    if x == 1 then [v % 2 == 0] else if x > 1 && v >= 0 then UeBits(v) else []
  }

  function SizeTe(x: int, v: nat): (size: nat)
    requires v + 1 < 0x100_0000
    ensures size == |TeBits(x, v)|
  {
    if x == 1 then 1 else if x > 1 then SizeUe(v) else 0
  }
}
