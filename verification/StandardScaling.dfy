/**
 * The scaling lists as section 7.3.2.1.1.1 of H.264 codes them, with the order and the fall-back
 * rules of Table 7-2, and when the decoder of sps_pps.c makes the same of them.
 */
module StandardScaling {
  import opened Bits
  import opened BitReading
  import opened Golomb
  import opened Scaling
  import opened Wrappers

  // ----- the zigzag ---------------------------------------------------------------

  /**
   * The zigzag of sections 8.5.6 and 8.5.7 of H.264: the place in this row and column comes before the other
   * one when its diagonal does; along an odd diagonal rows grow, along an even one columns grow.
   */
  predicate Earlier(row: nat, column: nat, row': nat, column': nat) {
    var d, e := row + column, row' + column';
    d < e || (d == e && if d % 2 == 1 then row < row' else column < column')
  }

  /** The order on the places of a matrix, which are counted row by row. */
  predicate EarlierPlace(size: nat, p: nat, q: nat) {
    var side := if size == 16 then 4 else 8;
    Earlier(p / side, p % side, q / side, q % side)
  }

  /** How many places lie on diagonal d. */
  function Diagonal(side: nat, d: nat): int {
    if d < side then d + 1 else 2 * side - 1 - d
  }

  /** How many places lie on the diagonals before d. */
  function DiagonalStart(side: nat, d: nat): int {
    if d == 0 then 0 else DiagonalStart(side, d - 1) + Diagonal(side, d - 1)
  }

  /** How many places come before the one in this row and column. */
  function RankAt(side: nat, row: nat, column: nat): int {
    var d := row + column;
    DiagonalStart(side, d) + (if d % 2 == 1 then row else column) - (if d < side then 0 else d - side + 1)
  }

  function Rank(size: nat, p: nat): int {
    var side := if size == 16 then 4 else 8;
    RankAt(side, p / side, p % side)
  }

  lemma {:induction false} DiagonalsGrow(side: nat, d: nat, e: nat)
    requires d < e <= 2 * side - 1
    ensures DiagonalStart(side, d) + Diagonal(side, d) <= DiagonalStart(side, e)
    decreases e
  {
    if d + 1 < e {
      DiagonalsGrow(side, d, e - 1);
    }
  }

  lemma RankOnDiagonal(side: nat, row: nat, column: nat)
    requires row < side && column < side
    ensures var d := row + column;
      DiagonalStart(side, d) <= RankAt(side, row, column) < DiagonalStart(side, d) + Diagonal(side, d)
  {
    hide DiagonalStart;
  }

  /** The rank is that of the order. */
  lemma RankOrders(side: nat, row: nat, column: nat, row': nat, column': nat)
    requires row < side && column < side && row' < side && column' < side
    ensures RankAt(side, row, column) < RankAt(side, row', column') <==> Earlier(row, column, row', column')
    ensures 0 <= RankAt(side, row, column) < DiagonalStart(side, 2 * side - 1)
  {
    hide DiagonalStart, Diagonal;
    var d, e := row + column, row' + column';
    RankOnDiagonal(side, row, column);
    RankOnDiagonal(side, row', column');
    DiagonalsGrow(side, d, 2 * side - 1);
    StartsAtNone(side);
    if d > 0 {
      DiagonalsGrow(side, 0, d);
    }
    if d < e {
      DiagonalsGrow(side, d, e);
    } else if e < d {
      DiagonalsGrow(side, e, d);
    }
  }

  lemma StartsAtNone(side: nat)
    ensures DiagonalStart(side, 0) == 0 && Diagonal(side, 0) == (if side > 0 then 1 else -1)
  {
  }

  lemma Starts4()
    ensures DiagonalStart(4, 0) == 0 && DiagonalStart(4, 1) == 1 && DiagonalStart(4, 2) == 3 && DiagonalStart(4, 3) == 6
    ensures DiagonalStart(4, 4) == 10 && DiagonalStart(4, 5) == 13 && DiagonalStart(4, 6) == 15 && DiagonalStart(4, 7) == 16
  {
  }

  lemma Starts8()
    ensures DiagonalStart(8, 0) == 0 && DiagonalStart(8, 1) == 1 && DiagonalStart(8, 2) == 3 && DiagonalStart(8, 3) == 6
    ensures DiagonalStart(8, 4) == 10 && DiagonalStart(8, 5) == 15 && DiagonalStart(8, 6) == 21 && DiagonalStart(8, 7) == 28
    ensures DiagonalStart(8, 8) == 36 && DiagonalStart(8, 9) == 43 && DiagonalStart(8, 10) == 49 && DiagonalStart(8, 11) == 54
    ensures DiagonalStart(8, 12) == 58 && DiagonalStart(8, 13) == 61 && DiagonalStart(8, 14) == 63 && DiagonalStart(8, 15) == 64
  {
    assert DiagonalStart(8, 2) == 3;
    assert DiagonalStart(8, 4) == 10;
    assert DiagonalStart(8, 6) == 21;
    assert DiagonalStart(8, 8) == 36;
    assert DiagonalStart(8, 10) == 49;
    assert DiagonalStart(8, 12) == 58;
  }

  /** So it numbers the places from 0 to size - 1. */
  lemma RankIsOrder(size: nat, p: nat, q: nat)
    requires (size == 16 || size == 64) && p < size && q < size
    ensures 0 <= Rank(size, p) < size
    ensures Rank(size, p) < Rank(size, q) <==> EarlierPlace(size, p, q)
  {
    hide RankAt, DiagonalStart, Earlier;
    Starts4();
    Starts8();
    if size == 16 {
      RankOrders(4, p / 4, p % 4, q / 4, q % 4);
    } else {
      RankOrders(8, p / 8, p % 8, q / 8, q % 8);
    }
  }

  /** One row of the 8x8 table. */
  lemma RankOfRow(row: nat, column: nat)
    requires row < 8 && column < 8
    ensures PLACE8[8 * row + column] == RankAt(8, row, column)
  {
    Starts8();
    hide DiagonalStart;
    if row == 0 {
    } else if row == 1 {
    } else if row == 2 {
    } else if row == 3 {
    } else if row == 4 {
    } else if row == 5 {
    } else if row == 6 {
    } else {
    }
  }

  /** The place tables hold the ranks. */
  lemma PlaceIsRank(size: nat, k: nat)
    requires (size == 16 || size == 64) && k < size
    ensures PlaceAt(size, k) == Rank(size, k)
  {
    if size == 64 {
      RankOfRow(k / 8, k % 8);
      hide RankAt;
    } else {
      Starts4();
      hide DiagonalStart;
    }
  }

  /** The scan tables of the code visit the places in zigzag order. */
  lemma ScanIsZigzag(size: nat, i: nat, j: nat)
    requires (size == 16 || size == 64) && i < size && j < size
    ensures i < j <==> EarlierPlace(size, ScanAt(size, i), ScanAt(size, j))
  {
    hide ScanAt, PlaceAt, Rank, EarlierPlace;
    ScanIsPermutation(size);
    RankIsOrder(size, ScanAt(size, i), ScanAt(size, j));
    PlaceIsRank(size, ScanAt(size, i));
    PlaceIsRank(size, ScanAt(size, j));
  }

  /** A run put into its places by the zigzag. */
  function Zigzag(run: seq<byte>): (list: seq<byte>)
    requires |run| == 16 || |run| == 64
    ensures |list| == |run|
  {
    seq(|run|, k requires 0 <= k < |run| => RankIsOrder(|run|, k, k); run[Rank(|run|, k)])
  }

  lemma ZigzagIsUnscan(run: seq<byte>)
    requires |run| == 16 || |run| == 64
    ensures Zigzag(run) == Unscan(run)
  {
    hide Rank, PlaceAt;
    forall k | 0 <= k < |run|
      ensures Zigzag(run)[k] == Unscan(run)[k]
    {
      RankIsOrder(|run|, k, k);
      PlaceIsRank(|run|, k);
    }
  }

  // ----- the default lists ----------------------------------------------------------

  /** Tables 7-3 and 7-4 of H.264 are constant along each diagonal, but for one place of each 8x8 list. */
  const DIAGONALS4_INTRA: seq<nat> := [6, 13, 20, 28, 32, 37, 42]
  const DIAGONALS4_INTER: seq<nat> := [10, 14, 20, 24, 27, 30, 34]
  const DIAGONALS8_INTRA: seq<nat> := [6, 10, 13, 16, 18, 23, 25, 27, 29, 31, 33, 36, 38, 40, 42]
  const DIAGONALS8_INTER: seq<nat> := [9, 13, 15, 17, 19, 21, 22, 24, 25, 27, 28, 30, 32, 33, 35]

  /** The tables of the code are the default lists of the standard. */
  lemma PresetsAreDefaults4(row: nat, column: nat)
    requires row < 4 && column < 4
    ensures |PRESET4_INTRA| == |PRESET4_INTER| == 16
    ensures PRESET4_INTRA[4 * row + column] == DIAGONALS4_INTRA[row + column]
    ensures PRESET4_INTER[4 * row + column] == DIAGONALS4_INTER[row + column]
  {
  }

  lemma IntraTop(row: nat, column: nat)
    requires row < 4 && column < 8
    ensures |PRESET8_INTRA| == 64
    ensures PRESET8_INTRA[8 * row + column] == if row == column == 1 then 11 else DIAGONALS8_INTRA[row + column]
  {
    hide PRESET8_INTER;
    if row == 0 {
    } else if row == 1 {
    } else if row == 2 {
    } else {
    }
  }

  lemma IntraBottom(row: nat, column: nat)
    requires 4 <= row < 8 && column < 8
    ensures |PRESET8_INTRA| == 64
    ensures PRESET8_INTRA[8 * row + column] == DIAGONALS8_INTRA[row + column]
  {
    hide PRESET8_INTER;
    if row == 4 {
    } else if row == 5 {
    } else if row == 6 {
    } else {
    }
  }

  lemma InterTop(row: nat, column: nat)
    requires row < 4 && column < 8
    ensures |PRESET8_INTER| == 64
    ensures PRESET8_INTER[8 * row + column] == if row == column == 1 then 13 else DIAGONALS8_INTER[row + column]
  {
    hide PRESET8_INTRA;
    if row == 0 {
    } else if row == 1 {
    } else if row == 2 {
    } else {
    }
  }

  lemma InterBottom(row: nat, column: nat)
    requires 4 <= row < 8 && column < 8
    ensures |PRESET8_INTER| == 64
    ensures PRESET8_INTER[8 * row + column] == DIAGONALS8_INTER[row + column]
  {
    hide PRESET8_INTRA;
    if row == 4 {
    } else if row == 5 {
    } else if row == 6 {
    } else {
    }
  }

  lemma PresetsAreDefaults8(row: nat, column: nat)
    requires row < 8 && column < 8
    ensures |PRESET8_INTRA| == |PRESET8_INTER| == 64
    ensures PRESET8_INTRA[8 * row + column] == if row == column == 1 then 11 else DIAGONALS8_INTRA[row + column]
    ensures PRESET8_INTER[8 * row + column] == if row == column == 1 then 13 else DIAGONALS8_INTER[row + column]
  {
    hide PRESET8_INTRA, PRESET8_INTER, DIAGONALS8_INTRA, DIAGONALS8_INTER;
    if row < 4 {
      IntraTop(row, column);
      InterTop(row, column);
    } else {
      IntraBottom(row, column);
      InterBottom(row, column);
    }
  }

  // ----- one list from its bits --------------------------------------------------

  /** The factor after `last` for a delta, in the standard's own arithmetic (7.3.2.1.1.1). */
  function StandardNextFactor(last: byte, delta: int): byte {
    (last + delta + 256) % 256
  }

  /** The standard reads a delta in -128..127, coded as se(v). */
  predicate IsDelta(code: int) {
    -128 <= UeToSe(code) <= 127 && code == SeToUe(UeToSe(code))
  }

  function StandardStep(rest: seq<bool>, last: byte, next: byte): (byte, seq<bool>) {
    if next == 0 then (0, rest)
    else
      var (delta, r) := ReadSe(rest);
      (StandardNextFactor(last, delta), r)
  }

  function StandardRun(rest: seq<bool>, n: nat, last: byte, next: byte): (r: (seq<byte>, seq<bool>))
    ensures |r.0| == n
    decreases n
  {
    if n == 0 then ([], rest)
    else
      var (next', rest') := StandardStep(rest, last, next);
      var v := if next' == 0 then last else next';
      var (vs, r') := StandardRun(rest', n - 1, v, next');
      ([v] + vs, r')
  }

  function StandardList(rest: seq<bool>, preset: seq<byte>, fallback: seq<byte>): (r: (seq<byte>, seq<bool>))
    requires |preset| == |fallback| && (|preset| == 16 || |preset| == 64)
    ensures |r.0| == |preset|
  {
    var (present, rest1) := Read(rest, 1);
    if present == 0 then (fallback, rest1)
    else
      var (first, rest2) := StandardStep(rest1, 8, 8);
      if first == 0 then (preset, rest2)
      else
        var (run, rest3) := StandardRun(rest1, |preset|, 8, 8);
        (Zigzag(run), rest3)
  }

  /** Every code the standard reads for the list is a delta of its range. */
  predicate Conforms(rest: seq<bool>, n: nat, last: byte, next: byte)
    decreases n
  {
    n > 0 && next != 0 ==>
      && IsDelta(ReadUe(rest).0)
      && var (next', rest') := StandardStep(rest, last, next);
         Conforms(rest', n - 1, if next' == 0 then last else next', next')
  }

  /** The next n deltas are all 0 or 1. */
  predicate OnlySteps(rest: seq<bool>, n: nat)
    decreases n
  {
    n == 0 || (var (delta, r) := ReadSe(rest); (delta == 0 || delta == 1) && OnlySteps(r, n - 1))
  }

  /** The code reads ue(v) for se(v), which gives the standard's factor exactly for the deltas 0 and 1. */
  lemma DeltaReadAsUnsigned(last: byte, code: int)
    requires IsDelta(code)
    ensures NextFactor(last, code) == StandardNextFactor(last, UeToSe(code)) <==> UeToSe(code) == 0 || UeToSe(code) == 1
    ensures last < 128 && UeToSe(code) != 0 && UeToSe(code) != 1 ==>
      var ours, theirs := NextFactor(last, code), StandardNextFactor(last, UeToSe(code));
      (if ours == 0 then last else ours) != (if theirs == 0 then last else theirs)
  {
    var delta := UeToSe(code);
    assert (last + code) % 256 == (last + delta) % 256 ==> (code - delta) % 256 == 0;
  }

  /**
   * The first entry the standard takes from a delta other than 0 and 1 comes out wrong. The bound
   * on last is that of the steps taken so far; at 128 the delta -128 would end the list with the
   * same factor.
   */
  lemma {:induction false} RunIsStandard(rest: seq<bool>, n: nat, last: byte, next: byte)
    requires next != 0 && 0 < last && last + n <= 128
    requires Conforms(rest, n, last, next)
    ensures ScanRun(rest, n, last, next).0 == StandardRun(rest, n, last, next).0 <==> OnlySteps(rest, n)
    ensures OnlySteps(rest, n) ==> ScanRun(rest, n, last, next) == StandardRun(rest, n, last, next)
    decreases n
  {
    hide ReadUe, IsDelta, NextFactor, StandardNextFactor, UeToSe;
    if n > 0 {
      var code := ReadUe(rest).0;
      DeltaReadAsUnsigned(last, code);
      var ours, theirs := ScanStep(rest, last, next).0, StandardStep(rest, last, next).0;
      if UeToSe(code) == 0 || UeToSe(code) == 1 {
        SmallStep(last, code);
        var r := ReadUe(rest).1;
        RunIsStandard(r, n - 1, ours, ours);
        assert ScanRun(rest, n, last, next).0[1..] == ScanRun(r, n - 1, ours, ours).0;
        assert StandardRun(rest, n, last, next).0[1..] == StandardRun(r, n - 1, ours, ours).0;
      } else {
        assert ScanRun(rest, n, last, next).0[0] != StandardRun(rest, n, last, next).0[0];
      }
    }
  }

  lemma SmallStep(last: byte, code: int)
    requires 0 < last < 128 && IsDelta(code) && (UeToSe(code) == 0 || UeToSe(code) == 1)
    ensures last <= NextFactor(last, code) <= last + 1
  {
  }

  lemma UnscanInjective(run: seq<byte>, other: seq<byte>)
    requires |run| == |other| && (|run| == 16 || |run| == 64)
    ensures Unscan(run) == Unscan(other) <==> run == other
  {
    hide Unscan, ScanAt;
    if Unscan(run) == Unscan(other) {
      forall i | 0 <= i < |run|
        ensures run[i] == other[i]
      {
        UnscanAt(run, i);
        UnscanAt(other, i);
      }
    }
  }

  predicate IsPreset(preset: seq<byte>) {
    preset in [PRESET4_INTRA, PRESET4_INTER, PRESET8_INTRA, PRESET8_INTER]
  }

  lemma PresetStart(preset: seq<byte>)
    requires IsPreset(preset)
    ensures (|preset| == 16 || |preset| == 64) && 6 <= preset[0] <= 10
  {
  }

  /** The first factor of a list that is not copied. */
  lemma FirstFactor(rest: seq<bool>, n: nat, last: byte, next: byte)
    requires n == 16 || n == 64
    ensures Unscan(ScanRun(rest, n, last, next).0)[0]
         == (if ScanStep(rest, last, next).0 == 0 then last else ScanStep(rest, last, next).0)
    ensures Zigzag(StandardRun(rest, n, last, next).0)[0]
         == (if StandardStep(rest, last, next).0 == 0 then last else StandardStep(rest, last, next).0)
  {
    hide ScanStep, StandardStep, Unscan, Zigzag;
    ScanStart(n);
    UnscanAt(ScanRun(rest, n, last, next).0, 0);
    UnscanAt(StandardRun(rest, n, last, next).0, 0);
    ZigzagIsUnscan(StandardRun(rest, n, last, next).0);
  }

  lemma ScanStart(size: nat)
    requires size == 16 || size == 64
    ensures ScanAt(size, 0) == 0
  {
  }

  /** A delta that is not 0 or 1 in front: one side copies the preset, which starts in 6..10. */
  lemma FirstDelta(code: int)
    requires IsDelta(code)
    ensures var ours, theirs := NextFactor(8, code), StandardNextFactor(8, UeToSe(code));
      && (UeToSe(code) == 0 || UeToSe(code) == 1 ==> ours != 0 && theirs != 0)
      && (ours == 0 ==> theirs > 10) && (theirs == 0 ==> ours > 10)
  {
  }

  /**
   * A list of the standard comes out as the standard has it exactly when it is not coded at all,
   * or every one of its deltas is 0 or 1.
   */
  lemma ListIsStandardExactly(rest: seq<bool>, preset: seq<byte>, fallback: seq<byte>)
    requires IsPreset(preset) && |fallback| == |preset|
    requires Read(rest, 1).0 != 0 ==> Conforms(Read(rest, 1).1, |preset|, 8, 8)
    ensures (|preset| == 16 || |preset| == 64)
    ensures ReadList(rest, preset, fallback).0 == StandardList(rest, preset, fallback).0
      <==> Read(rest, 1).0 == 0 || OnlySteps(Read(rest, 1).1, |preset|)
    ensures Read(rest, 1).0 == 0 || OnlySteps(Read(rest, 1).1, |preset|)
      ==> ReadList(rest, preset, fallback) == StandardList(rest, preset, fallback)
  {
    hide IsPreset, Read, ReadUe, IsDelta, NextFactor, StandardNextFactor, UeToSe, ScanRun, StandardRun, Unscan, Zigzag;
    PresetStart(preset);
    var (present, rest1) := Read(rest, 1);
    if present != 0 {
      var n := |preset|;
      FirstDelta(ReadUe(rest1).0);
      FirstFactor(rest1, n, 8, 8);
      RunIsStandard(rest1, n, 8, 8);
      UnscanInjective(ScanRun(rest1, n, 8, 8).0, StandardRun(rest1, n, 8, 8).0);
      ZigzagIsUnscan(StandardRun(rest1, n, 8, 8).0);
    }
  }

  // ----- the lists as they are written ---------------------------------------------

  /** A scaling list as it is written: absent, or coded by its deltas. */
  type Coded = Option<seq<int>>

  /** The deltas of n factors behind `last`: one a factor, up to one that makes the next factor 0. */
  predicate DeltasFit(deltas: seq<int>, n: nat, last: byte)
    decreases n
  {
    if n == 0 then deltas == []
    else
      && deltas != [] && -128 <= deltas[0] <= 127
      && var next := StandardNextFactor(last, deltas[0]);
         if next == 0 then |deltas| == 1 else DeltasFit(deltas[1..], n - 1, next)
  }

  /** The factors they stand for, in scan order. */
  function Factors(deltas: seq<int>, n: nat, last: byte): (factors: seq<byte>)
    requires DeltasFit(deltas, n, last)
    ensures |factors| == n
    decreases n
  {
    if n == 0 then []
    else
      var next := StandardNextFactor(last, deltas[0]);
      if next == 0 then Repeat(last, n) else [next] + Factors(deltas[1..], n - 1, next)
  }

  predicate IsStep(delta: int) {
    0 <= delta <= 1
  }

  predicate AreSteps(deltas: seq<int>) {
    forall i :: 0 <= i < |deltas| ==> IsStep(deltas[i])
  }

  lemma {:induction false} StandardTail(rest: seq<bool>, n: nat, last: byte)
    ensures StandardRun(rest, n, last, 0) == (Repeat(last, n), rest)
    decreases n
  {
    if n > 0 {
      StandardTail(rest, n - 1, last);
      assert Repeat(last, n) == [last] + Repeat(last, n - 1);
    }
  }

  lemma DeltaRead(delta: int, tail: seq<bool>)
    requires -128 <= delta <= 127
    ensures ReadSe(SeOf(delta) + tail) == (delta, tail)
    ensures IsDelta(ReadUe(SeOf(delta) + tail).0)
  {
    hide ReadUe, SeOf;
    ReadSeOf(delta, tail);
    ReadUeOf(SeToUe(delta), tail);
    SeOfUe(delta);
    SeInverse(delta);
  }

  /** The standard reads the deltas back and stops behind them. */
  lemma {:induction false} RunReadsBack(deltas: seq<int>, n: nat, last: byte, next: byte, tail: seq<bool>)
    requires DeltasFit(deltas, n, last) && next != 0
    ensures StandardRun(SesBits(deltas, tail), n, last, next) == (Factors(deltas, n, last), tail)
    ensures Conforms(SesBits(deltas, tail), n, last, next)
    decreases n
  {
    hide ReadSe, ReadUe, SeOf, IsDelta, StandardNextFactor;
    if n > 0 {
      var delta, rest := deltas[0], SesBits(deltas[1..], tail);
      DeltaRead(delta, rest);
      assert ReadUe(SesBits(deltas, tail)).1 == rest by {
        SameBehind(SesBits(deltas, tail));
      }
      var f := StandardNextFactor(last, delta);
      if f == 0 {
        assert deltas[1..] == [];
        StandardTail(tail, n - 1, last);
        assert Repeat(last, n) == [last] + Repeat(last, n - 1);
        ConformsTail(tail, n - 1, last);
      } else {
        RunReadsBack(deltas[1..], n - 1, f, f, tail);
      }
    }
  }

  lemma SameBehind(rest: seq<bool>)
    ensures ReadSe(rest).1 == ReadUe(rest).1
  {
  }

  lemma ConformsTail(rest: seq<bool>, n: nat, last: byte)
    ensures Conforms(rest, n, last, 0)
  {
  }

  /** On deltas that fit, the two ways to say that all are 0 or 1 agree. */
  lemma {:induction false} StepsRead(deltas: seq<int>, n: nat, last: byte, tail: seq<bool>)
    requires DeltasFit(deltas, n, last) && 0 < last && last + n <= 128
    ensures OnlySteps(SesBits(deltas, tail), n) <==> AreSteps(deltas)
    decreases n
  {
    hide ReadSe, SeOf;
    if n > 0 {
      var delta := deltas[0];
      DeltaRead(delta, SesBits(deltas[1..], tail));
      if IsStep(delta) {
        assert StandardNextFactor(last, delta) == last + delta;
        StepsRead(deltas[1..], n - 1, last + delta, tail);
        assert deltas == [delta] + deltas[1..];
      }
    }
  }

  predicate ListFits(list: Coded, size: nat) {
    list.Some? ==> DeltasFit(list.value, size, 8)
  }

  function ListBits(list: Coded, tail: seq<bool>): seq<bool> {
    match list case None => [false] + tail case Some(deltas) => [true] + SesBits(deltas, tail)
  }

  /** The list that is meant: absent ones fall back, and a first factor of 0 stands for the preset. */
  function ListOf(list: Coded, preset: seq<byte>, fallback: seq<byte>): (factors: seq<byte>)
    requires |preset| == |fallback| && (|preset| == 16 || |preset| == 64) && ListFits(list, |preset|)
    ensures |factors| == |preset|
  {
    match list
    case None => fallback
    case Some(deltas) =>
      if StandardNextFactor(8, deltas[0]) == 0 then preset else Zigzag(Factors(deltas, |preset|, 8))
  }

  /** Absent, or steps of 0 and 1 only. */
  predicate Steps(list: Coded) {
    list.Some? ==> AreSteps(list.value)
  }

  lemma BitsRead(list: Coded, tail: seq<bool>)
    ensures Read(ListBits(list, tail), 1)
         == match list case None => (0, tail) case Some(deltas) => (1, SesBits(deltas, tail))
  {
    ReadOne(ListBits(list, tail));
    assert [false] + tail != [] && ([false] + tail)[1..] == tail;
  }

  lemma StandardReadsBack(list: Coded, preset: seq<byte>, fallback: seq<byte>, tail: seq<bool>)
    requires |preset| == |fallback| && (|preset| == 16 || |preset| == 64) && ListFits(list, |preset|)
    ensures StandardList(ListBits(list, tail), preset, fallback) == (ListOf(list, preset, fallback), tail)
    ensures list.Some? ==> Conforms(SesBits(list.value, tail), |preset|, 8, 8)
  {
    hide Read, ReadSe, ReadUe, SeOf, Zigzag, StandardRun, SesBits, ListBits;
    BitsRead(list, tail);
    if list.Some? {
      RunReadsBack(list.value, |preset|, 8, 8, tail);
      FirstRead(list.value, |preset|, tail);
    }
  }

  lemma FirstRead(deltas: seq<int>, n: nat, tail: seq<bool>)
    requires DeltasFit(deltas, n, 8) && n > 0
    ensures StandardStep(SesBits(deltas, tail), 8, 8).0 == StandardNextFactor(8, deltas[0])
    ensures StandardNextFactor(8, deltas[0]) == 0 ==> StandardStep(SesBits(deltas, tail), 8, 8).1 == tail
  {
    hide ReadSe, SeOf;
    DeltaRead(deltas[0], SesBits(deltas[1..], tail));
  }

  /** One list comes out right exactly when it is absent or all its deltas are 0 or 1. */
  lemma ListReadsExactly(list: Coded, preset: seq<byte>, fallback: seq<byte>, tail: seq<bool>)
    requires IsPreset(preset) && |preset| == |fallback| && ListFits(list, |preset|)
    ensures |preset| == 16 || |preset| == 64
    ensures ReadList(ListBits(list, tail), preset, fallback).0 == ListOf(list, preset, fallback) <==> Steps(list)
    ensures Steps(list) ==> ReadList(ListBits(list, tail), preset, fallback) == (ListOf(list, preset, fallback), tail)
  {
    hide IsPreset, Read, ReadList, StandardList, OnlySteps, AreSteps, Conforms, ListBits, ListOf, DeltasFit;
    PresetStart(preset);
    BitsRead(list, tail);
    StandardReadsBack(list, preset, fallback, tail);
    if list.Some? {
      StepsRead(list.value, |preset|, 8, tail);
    }
    ListIsStandardExactly(ListBits(list, tail), preset, fallback);
  }

  // ----- several lists ---------------------------------------------------------------

  predicate ListsFit(lists: seq<Coded>, size: nat) {
    forall i :: 0 <= i < |lists| ==> ListFits(lists[i], size)
  }

  predicate AllSteps(lists: seq<Coded>) {
    forall i :: 0 <= i < |lists| ==> Steps(lists[i])
  }

  function ListsBits(lists: seq<Coded>, tail: seq<bool>): seq<bool> {
    if lists == [] then tail else ListBits(lists[0], ListsBits(lists[1..], tail))
  }

  /** Lists of which each falls back to the one before it. */
  function ChainOf(lists: seq<Coded>, preset: seq<byte>, fallback: seq<byte>): (chain: seq<seq<byte>>)
    requires |preset| == |fallback| && (|preset| == 16 || |preset| == 64) && ListsFit(lists, |preset|)
    ensures |chain| == |lists|
  {
    if lists == [] then []
    else
      var list := ListOf(lists[0], preset, fallback);
      [list] + ChainOf(lists[1..], preset, list)
  }

  lemma {:induction false} BitsSplit(xs: seq<Coded>, ys: seq<Coded>, tail: seq<bool>)
    ensures ListsBits(xs + ys, tail) == ListsBits(xs, ListsBits(ys, tail))
  {
    hide ListBits;
    if xs == [] {
      assert xs + ys == ys;
    } else {
      BitsSplit(xs[1..], ys, tail);
      assert (xs + ys)[1..] == xs[1..] + ys;
    }
  }

  lemma StepsFirst(lists: seq<Coded>)
    requires lists != []
    ensures AllSteps(lists) <==> Steps(lists[0]) && AllSteps(lists[1..])
  {
    assert lists == [lists[0]] + lists[1..];
  }

  lemma {:induction false} ChainReadsExactly(lists: seq<Coded>, preset: seq<byte>, fallback: seq<byte>, tail: seq<bool>)
    requires IsPreset(preset) && |preset| == |fallback| && ListsFit(lists, |preset|)
    ensures |preset| == 16 || |preset| == 64
    ensures Chain(ListsBits(lists, tail), |lists|, preset, fallback).0 == ChainOf(lists, preset, fallback) <==> AllSteps(lists)
    ensures AllSteps(lists) ==>
      Chain(ListsBits(lists, tail), |lists|, preset, fallback) == (ChainOf(lists, preset, fallback), tail)
    decreases |lists|
  {
    hide IsPreset, ReadList, ListOf, ListBits, Steps, AllSteps, ListFits;
    PresetStart(preset);
    if lists == [] {
      NoSteps(lists);
    } else {
      var rest := ListsBits(lists[1..], tail);
      ListReadsExactly(lists[0], preset, fallback, rest);
      StepsFirst(lists);
      var whole, meant := Chain(ListsBits(lists, tail), |lists|, preset, fallback).0, ChainOf(lists, preset, fallback);
      if Steps(lists[0]) {
        var list := ListOf(lists[0], preset, fallback);
        ChainReadsExactly(lists[1..], preset, list, tail);
        assert whole[1..] == Chain(rest, |lists| - 1, preset, list).0;
        assert meant[1..] == ChainOf(lists[1..], preset, list);
      } else {
        assert whole[0] != meant[0];
      }
    }
  }

  lemma NoSteps(lists: seq<Coded>)
    ensures lists == [] ==> AllSteps(lists)
  {
  }

  // ----- the matrices of a parameter set -----------------------------------------------

  /** Eight lists, or twelve for 4:4:4, six of them 4x4; in the order in which they are coded. */
  predicate MatricesFit(lists: seq<Coded>) {
    (|lists| == 8 || |lists| == 12) && ListsFit(lists[..6], 16) && ListsFit(lists[6..], 64)
  }

  /**
   * What section 7.3.2.1.1 and Table 7-2 make of them. The 4x4 lists are intra Y, Cb, Cr and inter
   * Y, Cb, Cr; the 8x8 lists go intra and inter in turn. In each group the first falls back to the
   * preset and every other one to the one before it.
   */
  function MatricesOf(lists: seq<Coded>): Matrices
    requires MatricesFit(lists)
  {
    PresetsHaveNoZero();
    var intra := if |lists| == 8 then [lists[6]] else [lists[6], lists[8], lists[10]];
    var inter := if |lists| == 8 then [lists[7]] else [lists[7], lists[9], lists[11]];
    Matrices(ChainOf(lists[..3], PRESET4_INTRA, PRESET4_INTRA), ChainOf(lists[3..6], PRESET4_INTER, PRESET4_INTER),
             ChainOf(intra, PRESET8_INTRA, PRESET8_INTRA), ChainOf(inter, PRESET8_INTER, PRESET8_INTER))
  }

  /** What the decoder makes of them when it reads every list right: all intra lists, then all inter lists. */
  function MatricesInOrder(lists: seq<Coded>): Matrices
    requires MatricesFit(lists)
  {
    PresetsHaveNoZero();
    var k := |lists| / 2 + 3;
    Matrices(ChainOf(lists[..3], PRESET4_INTRA, PRESET4_INTRA), ChainOf(lists[3..6], PRESET4_INTER, PRESET4_INTER),
             ChainOf(lists[6..k], PRESET8_INTRA, PRESET8_INTRA), ChainOf(lists[k..], PRESET8_INTER, PRESET8_INTER))
  }

  lemma StepsSplit(xs: seq<Coded>, ys: seq<Coded>)
    ensures AllSteps(xs + ys) <==> AllSteps(xs) && AllSteps(ys)
  {
    hide Steps;
    if AllSteps(xs + ys) {
      assert forall i :: 0 <= i < |xs| ==> xs[i] == (xs + ys)[i];
      assert forall i :: 0 <= i < |ys| ==> ys[i] == (xs + ys)[|xs| + i];
    }
  }

  /** Two groups of lists, one behind the other. */
  lemma GroupsRead(xs: seq<Coded>, ys: seq<Coded>, p: seq<byte>, q: seq<byte>, tail: seq<bool>)
    requires IsPreset(p) && IsPreset(q) && ListsFit(xs, |p|) && ListsFit(ys, |q|)
    ensures (|p| == 16 || |p| == 64) && (|q| == 16 || |q| == 64)
    ensures var (a, r1) := Chain(ListsBits(xs + ys, tail), |xs|, p, p);
      var (b, r2) := Chain(r1, |ys|, q, q);
      && (a == ChainOf(xs, p, p) <==> AllSteps(xs))
      && (a == ChainOf(xs, p, p) && b == ChainOf(ys, q, q) <==> AllSteps(xs + ys))
      && (AllSteps(xs + ys) ==> r2 == tail)
  {
    hide IsPreset, Chain, ChainOf, ListsBits, AllSteps, ListsFit, PRESET4_INTRA, PRESET4_INTER, PRESET8_INTRA, PRESET8_INTER;
    PresetStart(p);
    PresetStart(q);
    BitsSplit(xs, ys, tail);
    StepsSplit(xs, ys);
    ChainReadsExactly(xs, p, p, ListsBits(ys, tail));
    ChainReadsExactly(ys, q, q, tail);
  }

  lemma FromPresets()
    ensures IsPreset(PRESET4_INTRA) && IsPreset(PRESET4_INTER) && IsPreset(PRESET8_INTRA) && IsPreset(PRESET8_INTER)
    ensures |PRESET4_INTRA| == |PRESET4_INTER| == 16 && |PRESET8_INTRA| == |PRESET8_INTER| == 64
  {
  }

  lemma PartsFit(lists: seq<Coded>)
    requires MatricesFit(lists)
    ensures ListsFit(lists[..3], 16) && ListsFit(lists[3..6], 16)
    ensures var k := |lists| / 2 + 3; ListsFit(lists[6..k], 64) && ListsFit(lists[k..], 64)
    ensures lists[..6] == lists[..3] + lists[3..6] && lists == lists[..6] + lists[6..]
    ensures var k := |lists| / 2 + 3; lists[6..] == lists[6..k] + lists[k..]
    ensures |lists| == 12 ==> ListsFit([lists[6], lists[8], lists[10]], 64) && ListsFit([lists[7], lists[9], lists[11]], 64)
  {
    hide ListFits;
    var k := |lists| / 2 + 3;
    assert forall i :: 0 <= i < 3 ==> lists[3..6][i] == lists[..6][3 + i];
    assert forall i :: 0 <= i < |lists| - k ==> lists[k..][i] == lists[6..][k - 6 + i];
  }

  /** What comes out, group by group. */
  lemma MatricesRead(lists: seq<Coded>, tail: seq<bool>)
    requires MatricesFit(lists)
    ensures var (m, r), order := ReadMatrices(ListsBits(lists, tail), |lists| == 12), MatricesInOrder(lists);
      && (m == order <==> AllSteps(lists)) && (AllSteps(lists) ==> r == tail)
      && (m.intra4 == order.intra4 && m.inter4 == order.inter4 <==> AllSteps(lists[..6]))
      && (AllSteps(lists[..6]) ==> (m.intra8 == order.intra8 <==> AllSteps(lists[6..|lists| / 2 + 3])))
  {
    hide IsPreset, Chain, ChainOf, ListsBits, AllSteps, ListsFit;
    hide PRESET4_INTRA, PRESET4_INTER, PRESET8_INTRA, PRESET8_INTER;
    FromPresets();
    PartsFit(lists);
    var k := |lists| / 2 + 3;
    BitsSplit(lists[..6], lists[6..], tail);
    StepsSplit(lists[..6], lists[6..]);
    GroupsRead(lists[..3], lists[3..6], PRESET4_INTRA, PRESET4_INTER, ListsBits(lists[6..], tail));
    GroupsRead(lists[6..k], lists[k..], PRESET8_INTRA, PRESET8_INTER, tail);
  }

  /** Outside 4:4:4 the matrices come out right exactly when every list is absent or all its deltas are 0 or 1. */
  lemma MatricesAreStandardExactly(lists: seq<Coded>, tail: seq<bool>)
    requires MatricesFit(lists) && |lists| == 8
    ensures ReadMatrices(ListsBits(lists, tail), false).0 == MatricesOf(lists) <==> AllSteps(lists)
    ensures AllSteps(lists) ==> ReadMatrices(ListsBits(lists, tail), false) == (MatricesOf(lists), tail)
  {
    hide ReadMatrices, ListsBits, AllSteps, ChainOf, ListsFit;
    assert lists[6..7] == [lists[6]] && lists[7..] == [lists[7]];
    MatricesRead(lists, tail);
  }

  /**
   * For 4:4:4 the decoder takes the list behind the first 8x8 list, inter Y, for intra Cb, and so on.
   * That does no harm exactly when inter Cb is coded like inter Y, and either neither is coded,
   * intra Cb repeats intra Y if it is coded, and intra Cr is absent; or intra Cb means the same list
   * as inter Y, and so does intra Cr if it is coded.
   */
  predicate InPlace(lists: seq<Coded>)
    requires |lists| == 12
  {
    var intraY, interY, intraCb, interCb, intraCr := lists[6], lists[7], lists[8], lists[9], lists[10];
    && interCb == interY
    && (interY.None? ==> (intraCb.None? || intraCb == intraY) && intraCr.None?)
    && (interY.Some? ==> interY == (if intraCb.Some? then intraCb else intraY) && (intraCr.None? || intraCr == interY))
  }

  lemma {:induction false} StepFactors(deltas: seq<int>, other: seq<int>, n: nat, last: byte)
    requires DeltasFit(deltas, n, last) && DeltasFit(other, n, last) && 0 < last && last + n <= 128
    requires AreSteps(deltas) && AreSteps(other)
    ensures Factors(deltas, n, last) == Factors(other, n, last) ==> deltas == other
    decreases n
  {
    if n > 0 && Factors(deltas, n, last) == Factors(other, n, last) {
      assert IsStep(deltas[0]) && IsStep(other[0]);
      assert Factors(deltas, n, last)[0] == last + deltas[0] && Factors(other, n, last)[0] == last + other[0];
      assert Factors(deltas, n, last)[1..] == Factors(deltas[1..], n - 1, last + deltas[0]);
      assert Factors(other, n, last)[1..] == Factors(other[1..], n - 1, last + other[0]);
      StepFactors(deltas[1..], other[1..], n - 1, last + deltas[0]);
      assert deltas == [deltas[0]] + deltas[1..] && other == [other[0]] + other[1..];
    }
  }

  /** An 8x8 list of steps stands for its own factors, and none of them is a preset. */
  lemma StepList(deltas: seq<int>)
    requires DeltasFit(deltas, 64, 8) && AreSteps(deltas)
    ensures StandardNextFactor(8, deltas[0]) != 0
    ensures Zigzag(Factors(deltas, 64, 8)) != PRESET8_INTRA && Zigzag(Factors(deltas, 64, 8)) != PRESET8_INTER
  {
    assert IsStep(deltas[0]) && IsStep(deltas[1]);
    var run := Factors(deltas, 64, 8);
    FirstTwo(deltas);
    ScanFirstTwo();
    UnscanAt(run, 0);
    UnscanAt(run, 1);
    ZigzagIsUnscan(run);
    PresetsFirstTwo();
    hide Unscan, Zigzag, ScanAt, PRESET8_INTRA, PRESET8_INTER;
  }

  lemma FirstTwo(deltas: seq<int>)
    requires DeltasFit(deltas, 64, 8) && IsStep(deltas[0]) && |deltas| > 1 && IsStep(deltas[1])
    ensures 8 <= Factors(deltas, 64, 8)[0] && Factors(deltas, 64, 8)[1] <= 10
  {
    hide Factors, DeltasFit;
    StepFirst(deltas, 64, 8);
    StepFirst(deltas[1..], 63, 8 + deltas[0]);
  }

  lemma StepFirst(deltas: seq<int>, n: nat, last: byte)
    requires DeltasFit(deltas, n, last) && n > 1 && 0 < last < 128 && IsStep(deltas[0])
    ensures DeltasFit(deltas[1..], n - 1, last + deltas[0])
    ensures Factors(deltas, n, last)[0] == last + deltas[0]
    ensures Factors(deltas, n, last)[1..] == Factors(deltas[1..], n - 1, last + deltas[0])
  {
  }

  lemma ScanFirstTwo()
    ensures ScanAt(64, 0) == 0 && ScanAt(64, 1) == 1
  {
  }

  lemma PresetsFirstTwo()
    ensures |PRESET8_INTRA| == |PRESET8_INTER| == 64 && PRESET8_INTRA[0] == 6 && PRESET8_INTER[1] == 13
  {
  }

  /** The factors an 8x8 list of steps stands for. */
  function Meant(list: Coded): Option<seq<byte>>
    requires ListFits(list, 64)
  {
    match list case None => None case Some(deltas) => Some(Zigzag(Factors(deltas, 64, 8)))
  }

  lemma MeantIs(list: Coded, preset: seq<byte>, fallback: seq<byte>)
    requires ListFits(list, 64) && Steps(list) && |preset| == |fallback| == 64
    ensures ListOf(list, preset, fallback) == if list.None? then fallback else Meant(list).value
    ensures Meant(list) != Some(PRESET8_INTRA) && Meant(list) != Some(PRESET8_INTER)
    ensures Meant(list).Some? <==> list.Some?
  {
    if list.Some? {
      StepList(list.value);
    }
  }

  lemma MeantInjective(list: Coded, other: Coded)
    requires ListFits(list, 64) && ListFits(other, 64) && Steps(list) && Steps(other)
    ensures Meant(list) == Meant(other) <==> list == other
  {
    hide Unscan, Zigzag, AreSteps, DeltasFit;
    if list.Some? && other.Some? {
      StepFactors(list.value, other.value, 64, 8);
      UnscanInjective(Factors(list.value, 64, 8), Factors(other.value, 64, 8));
      ZigzagIsUnscan(Factors(list.value, 64, 8));
      ZigzagIsUnscan(Factors(other.value, 64, 8));
    }
  }

  lemma ChainNext(list: Coded, rest: seq<Coded>, preset: seq<byte>, fallback: seq<byte>)
    requires |preset| == |fallback| == 64 && ListFits(list, 64) && ListsFit(rest, 64)
    ensures ListsFit([list] + rest, 64)
    ensures var x := ListOf(list, preset, fallback);
      ChainOf([list] + rest, preset, fallback) == [x] + ChainOf(rest, preset, x)
    ensures rest == [] ==> ChainOf(rest, preset, fallback) == []
  {
    hide ListOf, ListFits;
    assert ([list] + rest)[1..] == rest;
  }

  lemma NoLists()
    ensures ListsFit([], 64)
  {
  }

  lemma ThreeOf(a: Coded, b: Coded, c: Coded, preset: seq<byte>)
    requires |preset| == 64 && ListFits(a, 64) && ListFits(b, 64) && ListFits(c, 64)
    ensures ListsFit([a, b, c], 64)
    ensures var x := ListOf(a, preset, preset);
      var y := ListOf(b, preset, x);
      ChainOf([a, b, c], preset, preset) == [x, y, ListOf(c, preset, y)]
  {
    hide ListOf, ListFits, ListsFit, ChainOf;
    assert [a] + [b, c] == [a, b, c] && [b] + [c] == [b, c] && [c] + [] == [c];
    NoLists();
    var x := ListOf(a, preset, preset);
    var y := ListOf(b, preset, x);
    ChainNext(c, [], preset, y);
    ChainNext(b, [c], preset, x);
    ChainNext(a, [b, c], preset, preset);
  }

  function OrElse<T>(list: Option<T>, fallback: T): T {
    if list.Some? then list.value else fallback
  }

  /** Three lists, each falling back to the one before. */
  function Thrice<T>(a: Option<T>, b: Option<T>, c: Option<T>, preset: T): seq<T> {
    var x := OrElse(a, preset);
    var y := OrElse(b, x);
    [x, y, OrElse(c, y)]
  }

  lemma ChainMeant(a: Coded, b: Coded, c: Coded, preset: seq<byte>)
    requires |preset| == 64 && ListFits(a, 64) && ListFits(b, 64) && ListFits(c, 64)
    requires Steps(a) && Steps(b) && Steps(c)
    ensures ListsFit([a, b, c], 64)
    ensures ChainOf([a, b, c], preset, preset) == Thrice(Meant(a), Meant(b), Meant(c), preset)
  {
    hide ListOf, ListFits, ListsFit, ChainOf, Meant, Steps;
    ThreeOf(a, b, c, preset);
    var x := ListOf(a, preset, preset);
    MeantIs(a, preset, preset);
    MeantIs(b, preset, x);
    MeantIs(c, preset, ListOf(b, preset, x));
  }

  /** Reading three and three of them in order instead of in turn, when none of them is a preset. */
  lemma InTurnExactly<T>(a: Option<T>, b: Option<T>, c: Option<T>, d: Option<T>, e: Option<T>, f: Option<T>, p: T, q: T)
    requires Some(p) !in [a, b, c, d, e, f] && Some(q) !in [a, b, c, d, e, f]
    ensures Thrice(a, b, c, p) == Thrice(a, c, e, p) && Thrice(d, e, f, q) == Thrice(b, d, f, q)
      <==> && d == b
           && (b.None? ==> (c.None? || c == a) && e.None?)
           && (b.Some? ==> b == (if c.Some? then c else a) && (e.None? || e == b))
  {
  }

  /** The 8x8 lists as they are meant and as the decoder orders them. */
  lemma EightsAre(lists: seq<Coded>)
    requires MatricesFit(lists) && |lists| == 12 && AllSteps(lists)
    ensures forall i :: 6 <= i < 12 ==> ListFits(lists[i], 64) && Steps(lists[i])
    ensures var m, order := MatricesOf(lists), MatricesInOrder(lists);
      && m.intra8 == Thrice(Meant(lists[6]), Meant(lists[8]), Meant(lists[10]), PRESET8_INTRA)
      && m.inter8 == Thrice(Meant(lists[7]), Meant(lists[9]), Meant(lists[11]), PRESET8_INTER)
      && order.intra8 == Thrice(Meant(lists[6]), Meant(lists[7]), Meant(lists[8]), PRESET8_INTRA)
      && order.inter8 == Thrice(Meant(lists[9]), Meant(lists[10]), Meant(lists[11]), PRESET8_INTER)
  {
    hide Meant, Thrice, ListFits, Steps, ChainOf, PRESET4_INTRA, PRESET4_INTER, PRESET8_INTRA, PRESET8_INTER;
    FromPresets();
    forall i | 6 <= i < 12
      ensures ListFits(lists[i], 64) && Steps(lists[i])
    {
      assert lists[i] == lists[6..][i - 6];
    }
    assert lists[6..9] == [lists[6], lists[7], lists[8]] && lists[9..] == [lists[9], lists[10], lists[11]];
    ChainMeant(lists[6], lists[7], lists[8], PRESET8_INTRA);
    ChainMeant(lists[6], lists[8], lists[10], PRESET8_INTRA);
    ChainMeant(lists[9], lists[10], lists[11], PRESET8_INTER);
    ChainMeant(lists[7], lists[9], lists[11], PRESET8_INTER);
  }

  lemma InPlaceExactly(lists: seq<Coded>)
    requires MatricesFit(lists) && |lists| == 12 && AllSteps(lists)
    ensures MatricesInOrder(lists) == MatricesOf(lists) <==> InPlace(lists)
  {
    EightsAre(lists);
    FromPresets();
    hide Meant, Thrice, ListFits, Steps, ChainOf, AllSteps, MatricesFit;
    hide PRESET4_INTRA, PRESET4_INTER, PRESET8_INTRA, PRESET8_INTER;
    forall i | 6 <= i < 12
      ensures Meant(lists[i]) != Some(PRESET8_INTRA) && Meant(lists[i]) != Some(PRESET8_INTER)
      ensures Meant(lists[i]).Some? <==> lists[i].Some?
    {
      MeantIs(lists[i], PRESET8_INTRA, PRESET8_INTRA);
    }
    InTurnExactly(Meant(lists[6]), Meant(lists[7]), Meant(lists[8]), Meant(lists[9]), Meant(lists[10]), Meant(lists[11]),
                  PRESET8_INTRA, PRESET8_INTER);
    MeantInjective(lists[9], lists[7]);
    MeantInjective(lists[8], lists[6]);
    MeantInjective(lists[7], lists[6]);
    MeantInjective(lists[7], lists[8]);
    MeantInjective(lists[10], lists[7]);
  }

  /**
   * For 4:4:4, when the lists behind the first 8x8 list have no other deltas than 0 and 1: the
   * matrices come out right exactly when that holds of all lists and they are in place.
   */
  lemma MatricesOf444Exactly(lists: seq<Coded>, tail: seq<bool>)
    requires MatricesFit(lists) && |lists| == 12 && AllSteps(lists[7..])
    ensures ReadMatrices(ListsBits(lists, tail), true).0 == MatricesOf(lists) <==> AllSteps(lists[..7]) && InPlace(lists)
    ensures AllSteps(lists[..7]) && InPlace(lists) ==> ReadMatrices(ListsBits(lists, tail), true) == (MatricesOf(lists), tail)
  {
    hide ReadMatrices, ListsBits, ListsFit, InPlace, AllSteps, Steps, Chain;
    MatricesRead(lists, tail);
    assert lists[..7] + lists[7..] == lists && lists[..6] + [lists[6]] == lists[..7];
    StepsSplit(lists[..7], lists[7..]);
    StepsSplit(lists[..6], [lists[6]]);
    if AllSteps(lists) {
      InPlaceExactly(lists);
    } else if AllSteps(lists[..6]) {
      FirstEightWrong(lists, tail);
    }
  }

  /** A first 8x8 list with other deltas comes out wrong whatever the decoder takes the others for. */
  lemma FirstEightWrong(lists: seq<Coded>, tail: seq<bool>)
    requires MatricesFit(lists) && |lists| == 12 && AllSteps(lists[..6]) && !AllSteps([lists[6]])
    ensures ReadMatrices(ListsBits(lists, tail), true).0.intra8 != MatricesOf(lists).intra8
  {
    hide IsPreset, Chain, ChainOf, ListsBits, ListBits, AllSteps, ListsFit, ReadList, ListOf, ListFits, Steps;
    hide PRESET4_INTRA, PRESET4_INTER, PRESET8_INTRA, PRESET8_INTER;
    FromPresets();
    PartsFit(lists);
    BitsSplit(lists[..6], lists[6..], tail);
    GroupsRead(lists[..3], lists[3..6], PRESET4_INTRA, PRESET4_INTER, ListsBits(lists[6..], tail));
    assert [lists[6]] + lists[7..] == lists[6..] && [lists[6]] + [lists[8], lists[10]] == [lists[6], lists[8], lists[10]];
    FirstWrong(lists[6], [lists[8], lists[10]], lists[7..], PRESET8_INTRA, tail);
  }

  lemma FirstWrong(list: Coded, meant: seq<Coded>, others: seq<Coded>, preset: seq<byte>, tail: seq<bool>)
    requires IsPreset(preset) && |preset| == 64 && ListsFit([list] + meant, 64) && !AllSteps([list])
    ensures Chain(ListsBits([list] + others, tail), 3, preset, preset).0 != ChainOf([list] + meant, preset, preset)
  {
    hide IsPreset, ListBits, ReadList, ListOf, ListFits;
    assert ([list] + meant)[0] == list && ([list] + others)[0] == list;
    var rest := ListsBits(([list] + others)[1..], tail);
    ListReadsExactly(list, preset, preset, rest);
    assert ChainOf([list] + meant, preset, preset)[0] == ListOf(list, preset, preset);
    assert Chain(ListsBits([list] + others, tail), 3, preset, preset).0[0] == ReadList(ListBits(list, rest), preset, preset).0;
  }

  // ----- two sets of lists that come out wrong -----------------------------------------------

  /** A list that goes down by one and then ends: 7 throughout. The decoder starts it with 10. */
  const FALLING: Coded := Some([-1, -7])

  lemma FallingComesOutWrong(tail: seq<bool>)
    ensures |PRESET4_INTRA| == 16 && ListFits(FALLING, 16)
    ensures ListOf(FALLING, PRESET4_INTRA, PRESET4_INTRA)[0] == 7
    ensures ReadList(ListBits(FALLING, tail), PRESET4_INTRA, PRESET4_INTRA).0[0] == 10
  {
    hide Read, ReadUe, ReadSe, SeOf, ScanRun, Unscan, Zigzag;
    FallingFits();
    BitsRead(FALLING, tail);
    var rest := SesBits([-1, -7], tail);
    FallingRead(tail);
    FirstFactor(rest, 16, 8, 8);
    ScanStart(16);
    UnscanAt(Factors([-1, -7], 16, 8), 0);
    ZigzagIsUnscan(Factors([-1, -7], 16, 8));
  }

  lemma FallingFits()
    ensures DeltasFit([-1, -7], 16, 8) && StandardNextFactor(8, -1) == 7 && Factors([-1, -7], 16, 8)[0] == 7
  {
    assert [-1, -7][1..] == [-7];
    assert StandardNextFactor(7, -7) == 0;
  }

  lemma FallingRead(tail: seq<bool>)
    ensures ReadUe(SesBits([-1, -7], tail)).0 == 2
  {
    hide ReadUe;
    ReadUeOf(2, SesBits([-1, -7][1..], tail));
    SeOfUe(-1);
  }

  /** For 4:4:4, only the 8x8 list for inter Y is coded, with 64 deltas of 0. */
  const LATE: seq<Coded> :=
    [None, None, None, None, None, None] + [None, Some(Repeat<int>(0, 64)), None, None, None, None]

  lemma {:induction false} FlatFits(n: nat)
    ensures DeltasFit(Repeat<int>(0, n), n, 8) && Factors(Repeat<int>(0, n), n, 8) == Repeat<byte>(8, n)
  {
    if n > 0 {
      FlatFits(n - 1);
      assert Repeat<int>(0, n)[1..] == Repeat<int>(0, n - 1);
      assert [8] + Repeat<byte>(8, n - 1) == Repeat<byte>(8, n);
    }
  }

  lemma LateFits()
    ensures |LATE| == 12 && MatricesFit(LATE) && AllSteps(LATE) && LATE[7] == Some(Repeat<int>(0, 64))
    ensures forall i :: 6 <= i < 12 && i != 7 ==> LATE[i] == None
  {
    FlatFits(64);
    assert LATE[..6] == [None, None, None, None, None, None];
    assert LATE[6..] == [None, Some(Repeat<int>(0, 64)), None, None, None, None];
    hide DeltasFit, Repeat;
  }

  lemma FlatMeant()
    ensures ListFits(Some(Repeat<int>(0, 64)), 64)
    ensures Meant(Some(Repeat<int>(0, 64))) == Some(Repeat<byte>(8, 64)) && Meant(None) == None
  {
    FlatFits(64);
    ZigzagIsUnscan(Repeat<byte>(8, 64));
    assert Unscan(Repeat<byte>(8, 64)) == Repeat<byte>(8, 64);
    hide Unscan, Zigzag;
  }

  /** Inter Y is meant to be flat and stays at the preset; intra Cb and Cr come out flat in its place. */
  lemma LateListMisplaced(tail: seq<bool>)
    ensures MatricesFit(LATE) && AllSteps(LATE)
    ensures MatricesOf(LATE).inter8 == [Repeat<byte>(8, 64), Repeat<byte>(8, 64), Repeat<byte>(8, 64)]
    ensures MatricesOf(LATE).intra8 == [PRESET8_INTRA, PRESET8_INTRA, PRESET8_INTRA]
    ensures ReadMatrices(ListsBits(LATE, tail), true).0.inter8 == [PRESET8_INTER, PRESET8_INTER, PRESET8_INTER]
    ensures ReadMatrices(ListsBits(LATE, tail), true).0.intra8 == [PRESET8_INTRA, Repeat<byte>(8, 64), Repeat<byte>(8, 64)]
  {
    hide ReadMatrices, ListsBits, Repeat, Meant, LATE, MatricesFit, MatricesOf, MatricesInOrder, Steps, AllSteps;
    hide PRESET4_INTRA, PRESET4_INTER, PRESET8_INTRA, PRESET8_INTER;
    LateFits();
    FlatMeant();
    EightsAre(LATE);
    MatricesRead(LATE, tail);
    assert LATE[6] == LATE[8] == LATE[9] == LATE[10] == LATE[11] == None;
  }
}
