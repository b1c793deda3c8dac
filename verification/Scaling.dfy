/** The scaling lists of a sequence parameter set, as sps_pps.c decodes them. */
module Scaling {
  import opened Bits
  import opened BitReading
  import opened Golomb
  import opened BitStreams

  const SCAN4: seq<nat> := [
    0, 1, 4, 8, 5, 2, 3, 6, 9, 12, 13, 10, 7, 11, 14, 15
  ]

  const SCAN8: seq<nat> :=
    [0, 1, 8, 16, 9, 2, 3, 10] +
    [17, 24, 32, 25, 18, 11, 4, 5] +
    [12, 19, 26, 33, 40, 48, 41, 34] +
    [27, 20, 13, 6, 7, 14, 21, 28] +
    [35, 42, 49, 56, 57, 50, 43, 36] +
    [29, 22, 15, 23, 30, 37, 44, 51] +
    [58, 59, 52, 45, 38, 31, 39, 46] +
    [53, 60, 61, 54, 47, 55, 62, 63]

  const PLACE4: seq<nat> := [
    0, 1, 5, 6, 2, 4, 7, 12, 3, 8, 11, 13, 9, 10, 14, 15
  ]

  const PLACE8: seq<nat> :=
    [0, 1, 5, 6, 14, 15, 27, 28] +
    [2, 4, 7, 13, 16, 26, 29, 42] +
    [3, 8, 12, 17, 25, 30, 41, 43] +
    [9, 11, 18, 24, 31, 40, 44, 53] +
    [10, 19, 23, 32, 39, 45, 52, 54] +
    [20, 22, 33, 38, 46, 51, 55, 60] +
    [21, 34, 37, 47, 50, 56, 59, 61] +
    [35, 36, 48, 49, 57, 58, 62, 63]

  const PRESET4_INTRA: seq<byte> := [
    6, 13, 20, 28, 13, 20, 28, 32, 20, 28, 32, 37, 28, 32, 37, 42
  ]

  const PRESET4_INTER: seq<byte> := [
    10, 14, 20, 24, 14, 20, 24, 27, 20, 24, 27, 30, 24, 27, 30, 34
  ]

  const PRESET8_INTRA: seq<byte> :=
    [6, 10, 13, 16, 18, 23, 25, 27] +
    [10, 11, 16, 18, 23, 25, 27, 29] +
    [13, 16, 18, 23, 25, 27, 29, 31] +
    [16, 18, 23, 25, 27, 29, 31, 33] +
    [18, 23, 25, 27, 29, 31, 33, 36] +
    [23, 25, 27, 29, 31, 33, 36, 38] +
    [25, 27, 29, 31, 33, 36, 38, 40] +
    [27, 29, 31, 33, 36, 38, 40, 42]

  const PRESET8_INTER: seq<byte> :=
    [9, 13, 15, 17, 19, 21, 22, 24] +
    [13, 13, 17, 19, 21, 22, 24, 25] +
    [15, 17, 19, 21, 22, 24, 25, 27] +
    [17, 19, 21, 22, 24, 25, 27, 28] +
    [19, 21, 22, 24, 25, 27, 28, 30] +
    [21, 22, 24, 25, 27, 28, 30, 32] +
    [22, 24, 25, 27, 28, 30, 32, 33] +
    [24, 25, 27, 28, 30, 32, 33, 35]

  /** Where entry i of a list of this size goes. */
  function ScanAt(size: nat, i: nat): nat
    requires (size == 16 || size == 64) && i < size
    ensures ScanAt(size, i) < size
  {
    TablesInverse();
    if size == 16 then SCAN4[i] else SCAN8[i]
  }

  /** Which entry of the list position k holds. */
  function PlaceAt(size: nat, k: nat): nat
    requires (size == 16 || size == 64) && k < size
    ensures PlaceAt(size, k) < size
  {
    TablesInverse();
    if size == 16 then PLACE4[k] else PLACE8[k]
  }

  lemma Scan8Low(i: nat)
    requires 0 <= i < 32
    ensures SCAN8[i] < 64 && PLACE8[SCAN8[i]] == i
  {
    if i < 8 {
    } else if i < 16 {
    } else if i < 24 {
    } else {
    }
  }

  lemma Scan8High(i: nat)
    requires 32 <= i < 64
    ensures SCAN8[i] < 64 && PLACE8[SCAN8[i]] == i
  {
    if i < 40 {
    } else if i < 48 {
    } else if i < 56 {
    } else {
    }
  }

  lemma Place8Low(k: nat)
    requires 0 <= k < 32
    ensures PLACE8[k] < 64 && SCAN8[PLACE8[k]] == k
  {
    if k < 8 {
    } else if k < 16 {
    } else if k < 24 {
    } else {
    }
  }

  lemma Place8High(k: nat)
    requires 32 <= k < 64
    ensures PLACE8[k] < 64 && SCAN8[PLACE8[k]] == k
  {
    if k < 40 {
    } else if k < 48 {
    } else if k < 56 {
    } else {
    }
  }

  lemma TablesInverse()
    ensures |SCAN4| == |PLACE4| == 16 && |SCAN8| == |PLACE8| == 64
    ensures forall i :: 0 <= i < 16 ==> SCAN4[i] < 16 && PLACE4[SCAN4[i]] == i
    ensures forall i :: 0 <= i < 64 ==> SCAN8[i] < 64 && PLACE8[SCAN8[i]] == i
    ensures forall k :: 0 <= k < 16 ==> PLACE4[k] < 16 && SCAN4[PLACE4[k]] == k
    ensures forall k :: 0 <= k < 64 ==> PLACE8[k] < 64 && SCAN8[PLACE8[k]] == k
  {
    forall i | 0 <= i < 64
      ensures SCAN8[i] < 64 && PLACE8[SCAN8[i]] == i && PLACE8[i] < 64 && SCAN8[PLACE8[i]] == i
    {
      if i < 32 {
        Scan8Low(i);
        Place8Low(i);
      } else {
        Scan8High(i);
        Place8High(i);
      }
    }
  }

  /** Both scan tables are permutations. */
  lemma ScanIsPermutation(size: nat)
    requires size == 16 || size == 64
    ensures forall i :: 0 <= i < size ==> PlaceAt(size, ScanAt(size, i)) == i
    ensures forall k :: 0 <= k < size ==> ScanAt(size, PlaceAt(size, k)) == k
  {
    TablesInverse();
  }

  // ----- one list ------------------------------------------------------------

  /** The factor after `last` when the code read is `code`: the sum, kept to eight bits. */
  function NextFactor(last: byte, code: int): byte {
    (last + code) % 256
  }

  /** The value of next after one turn of the loop: no code is read once it is 0. */
  function ScanStep(rest: seq<bool>, last: byte, next: byte): (byte, seq<bool>) {
    if next == 0 then (0, rest)
    else
      var (code, r) := ReadUe(rest);
      (NextFactor(last, code), r)
  }

  /**
   * The entries of a list in scan order. While next is not 0 every entry reads one code; once it
   * is 0 the list repeats its last entry and reads nothing more.
   */
  function ScanRun(rest: seq<bool>, n: nat, last: byte, next: byte): (r: (seq<byte>, seq<bool>))
    ensures |r.0| == n
    decreases n
  {
    if n == 0 then ([], rest)
    else
      var (next', rest') := ScanStep(rest, last, next);
      var v := if next' == 0 then last else next';
      var (vs, r') := ScanRun(rest', n - 1, v, next');
      ([v] + vs, r')
  }

  lemma ScanRunNext(rest: seq<bool>, n: nat, last: byte, next: byte)
    requires n > 0
    ensures var (next', rest') := ScanStep(rest, last, next);
      var v := if next' == 0 then last else next';
      var later := ScanRun(rest', n - 1, v, next');
      ScanRun(rest, n, last, next) == ([v] + later.0, later.1) && ([v] + later.0)[1..] == later.0
  {
    hide ScanStep;
  }

  lemma ScanRunEnd(rest: seq<bool>, last: byte, next: byte)
    ensures ScanRun(rest, 0, last, next) == ([], rest)
  {
  }

  /** A run in scan order put into its places. */
  function Unscan(run: seq<byte>): (list: seq<byte>)
    requires |run| == 16 || |run| == 64
    ensures |list| == |run|
  {
    seq(|run|, k requires 0 <= k < |run| => run[PlaceAt(|run|, k)])
  }

  /** One scaling list: its fallback, its preset, or a run. */
  function ReadList(rest: seq<bool>, preset: seq<byte>, fallback: seq<byte>): (r: (seq<byte>, seq<bool>))
    requires |preset| == |fallback| && (|preset| == 16 || |preset| == 64)
    ensures |r.0| == |preset|
  {
    var (present, rest1) := Read(rest, 1);
    if present == 0 then (fallback, rest1)
    else
      var (first, rest2) := ScanStep(rest1, 8, 8);
      if first == 0 then (preset, rest2)
      else
        var (run, rest3) := ScanRun(rest1, |preset|, 8, 8);
        (Unscan(run), rest3)
  }

  predicate NoZero(s: seq<byte>) {
    forall k :: 0 <= k < |s| ==> s[k] != 0
  }

  /** No factor of a run is 0, and from the first entry that repeats without reading on it is constant. */
  lemma {:induction false} RunHasNoZero(rest: seq<bool>, n: nat, last: byte, next: byte)
    requires last != 0
    ensures NoZero(ScanRun(rest, n, last, next).0)
    decreases n
  {
    hide ScanStep;
    if n > 0 {
      var (next', rest') := ScanStep(rest, last, next);
      RunHasNoZero(rest', n - 1, if next' == 0 then last else next', next');
    }
  }

  /** Once next is 0 the rest of the run is constant and no bit is read. */
  lemma {:induction false} TailIsConstant(rest: seq<bool>, n: nat, last: byte)
    ensures ScanRun(rest, n, last, 0) == (Repeat(last, n), rest)
    decreases n
  {
    if n > 0 {
      TailIsConstant(rest, n - 1, last);
      assert Repeat(last, n) == [last] + Repeat(last, n - 1);
    }
  }

  /** Every position of a list that is not copied holds exactly one entry of the run. */
  lemma UnscanAt(run: seq<byte>, i: nat)
    requires (|run| == 16 || |run| == 64) && i < |run|
    ensures Unscan(run)[ScanAt(|run|, i)] == run[i]
  {
    ScanIsPermutation(|run|);
  }

  lemma UnscanFrom(list: seq<byte>, run: seq<byte>)
    requires |list| == |run| && (|run| == 16 || |run| == 64)
    requires forall j :: 0 <= j < |run| ==> list[ScanAt(|run|, j)] == run[j]
    ensures list == Unscan(run)
  {
    ScanIsPermutation(|run|);
    hide ScanAt, PlaceAt;
    forall k | 0 <= k < |run|
      ensures list[k] == Unscan(run)[k]
    {
      assert list[ScanAt(|run|, PlaceAt(|run|, k))] == run[PlaceAt(|run|, k)];
    }
  }

  lemma ListHasNoZero(rest: seq<bool>, preset: seq<byte>, fallback: seq<byte>)
    requires |preset| == |fallback| && (|preset| == 16 || |preset| == 64)
    requires NoZero(preset) && NoZero(fallback)
    ensures NoZero(ReadList(rest, preset, fallback).0)
  {
    hide ScanRun, ScanStep, Read;
    RunHasNoZero(Read(rest, 1).1, |preset|, 8, 8);
  }

  method ScanStepAt(s: BitStream, last: byte, next: byte) returns (next': byte)
    requires s.Valid()
    modifies s`p, s`left
    ensures s.Valid() && (next', s.Rest()) == ScanStep(old(s.Rest()), last, next)
  {
    hide ReadUe, BitsFrom;
    next' := next;
    if next' != 0 {
      var code := s.ReadUe();
      next' := (last + code) % 256;
    }
  }

  /** The run decoded so far and the one still to come make up the whole. */
  ghost predicate Joins(run: (seq<byte>, seq<bool>), done: seq<byte>, rest: seq<bool>, n: nat, last: byte, next: byte) {
    run == (done + ScanRun(rest, n, last, next).0, ScanRun(rest, n, last, next).1)
  }

  lemma JoinsFirst(rest: seq<bool>, n: nat, last: byte, next: byte)
    ensures Joins(ScanRun(rest, n, last, next), [], rest, n, last, next)
  {
    assert [] + ScanRun(rest, n, last, next).0 == ScanRun(rest, n, last, next).0;
  }

  lemma JoinsNext(run: (seq<byte>, seq<bool>), done: seq<byte>, rest: seq<bool>, n: nat, last: byte, next: byte)
    requires n > 0 && Joins(run, done, rest, n, last, next)
    ensures var (next', rest') := ScanStep(rest, last, next);
      var v := if next' == 0 then last else next';
      Joins(run, done + [v], rest', n - 1, v, next')
  {
    hide ScanStep;
    var (next', rest') := ScanStep(rest, last, next);
    var v := if next' == 0 then last else next';
    ScanRunNext(rest, n, last, next);
    Assoc(done, [v], ScanRun(rest', n - 1, v, next').0);
  }

  lemma JoinsLast(run: (seq<byte>, seq<bool>), done: seq<byte>, rest: seq<bool>, last: byte, next: byte)
    requires Joins(run, done, rest, 0, last, next)
    ensures run == (done, rest)
  {
    ScanRunEnd(rest, last, next);
    assert done + [] == done;
  }

  /** The entries decoded so far stand in their places. */
  ghost predicate Placed(list: seq<byte>, done: seq<byte>) {
    (|list| == 16 || |list| == 64) && |done| <= |list|
    && forall j :: 0 <= j < |done| ==> list[ScanAt(|list|, j)] == done[j]
  }

  lemma ReadListRun(rest: seq<bool>, preset: seq<byte>, fallback: seq<byte>)
    requires |preset| == |fallback| && (|preset| == 16 || |preset| == 64)
    ensures var (present, rest1) := Read(rest, 1);
      var (first, rest2) := ScanStep(rest1, 8, 8);
      ReadList(rest, preset, fallback) ==
        if present == 0 then (fallback, rest1)
        else if first == 0 then (preset, rest2)
        else (Unscan(ScanRun(rest1, |preset|, 8, 8).0), ScanRun(rest1, |preset|, 8, 8).1)
  {
    hide Read, ScanStep, ScanRun, Unscan;
  }

  method DecodeScalingList(s: BitStream, factors: array<byte>, preset: seq<byte>, fallback: seq<byte>)
    requires s.Valid() && s.data != factors
    requires |preset| == |fallback| == factors.Length && (|preset| == 16 || |preset| == 64)
    modifies s`p, s`left, factors
    ensures s.Valid()
    ensures (factors[..], s.Rest()) == ReadList(old(s.Rest()), preset, fallback)
  {
    hide ScanStep, ScanRun, BitReading.Read, BitsFrom, ScanAt, PlaceAt, Unscan, ReadList, Joins, Placed;
    ReadListRun(s.Rest(), preset, fallback);
    var size := factors.Length;
    var present := s.Read(1);
    if present == 0 {
      CopyInto(factors, fallback);
      return;
    }
    ghost var rest1 := s.Rest();
    ghost var run := ScanRun(rest1, size, 8, 8);
    var last: byte, next: byte := 8, 8;
    ghost var done: seq<byte> := [];
    JoinsFirst(rest1, size, 8, 8);
    NonePlaced(factors[..]);
    for i := 0 to size
      invariant s.Valid() && |done| == i
      invariant i > 0 ==> ScanStep(rest1, 8, 8).0 != 0
      invariant i == 0 ==> next == 8 && last == 8 && s.Rest() == rest1
      invariant Joins(run, done, s.Rest(), size - i, last, next)
      invariant Placed(factors[..], done)
    {
      JoinsNext(run, done, s.Rest(), size - i, last, next);
      next := ScanStepAt(s, last, next);
      if i == 0 && next == 0 {
        CopyInto(factors, preset);
        return;
      }
      last := if next != 0 then next else last;
      StoreAt(factors, i, last, done);
      done := done + [last];
    }
    JoinsLast(run, done, s.Rest(), last, next);
    AllPlaced(factors[..], done);
  }

  lemma NonePlaced(list: seq<byte>)
    requires |list| == 16 || |list| == 64
    ensures Placed(list, [])
  {
  }

  lemma AllPlaced(list: seq<byte>, run: seq<byte>)
    requires Placed(list, run) && |run| == |list|
    ensures list == Unscan(run)
  {
    UnscanFrom(list, run);
  }

  /** Entry i goes to its place and disturbs no earlier entry. */
  method StoreAt(factors: array<byte>, i: nat, v: byte, ghost done: seq<byte>)
    requires (factors.Length == 16 || factors.Length == 64) && i < factors.Length && |done| == i
    requires Placed(factors[..], done)
    modifies factors
    ensures Placed(factors[..], done + [v])
  {
    hide ScanAt, PlaceAt;
    ScanIsPermutation(factors.Length);
    factors[ScanAt(factors.Length, i)] := v;
  }

  method CopyInto(factors: array<byte>, from: seq<byte>)
    requires |from| == factors.Length
    modifies factors
    ensures factors[..] == from
  {
    forall k | 0 <= k < |from| {
      factors[k] := from[k];
    }
  }

  // ----- the lists of a parameter set ----------------------------------------

  /** n lists in a row, each the fallback of the next. */
  function Chain(rest: seq<bool>, n: nat, preset: seq<byte>, fallback: seq<byte>): (r: (seq<seq<byte>>, seq<bool>))
    requires |preset| == |fallback| && (|preset| == 16 || |preset| == 64)
    ensures |r.0| == n && forall i :: 0 <= i < n ==> |r.0[i]| == |preset|
    decreases n
  {
    if n == 0 then ([], rest)
    else
      var (list, r1) := ReadList(rest, preset, fallback);
      var (lists, r2) := Chain(r1, n - 1, preset, list);
      ([list] + lists, r2)
  }

  lemma {:induction false} ChainHasNoZero(rest: seq<bool>, n: nat, preset: seq<byte>, fallback: seq<byte>)
    requires |preset| == |fallback| && (|preset| == 16 || |preset| == 64)
    requires NoZero(preset) && NoZero(fallback)
    ensures forall i :: 0 <= i < n ==> NoZero(Chain(rest, n, preset, fallback).0[i])
    decreases n
  {
    hide ReadList, NoZero;
    if n > 0 {
      var (list, r1) := ReadList(rest, preset, fallback);
      ListHasNoZero(rest, preset, fallback);
      ChainHasNoZero(r1, n - 1, preset, list);
    }
  }

  lemma PresetsHaveNoZero()
    ensures |PRESET4_INTRA| == |PRESET4_INTER| == 16 && |PRESET8_INTRA| == |PRESET8_INTER| == 64
    ensures NoZero(PRESET4_INTRA) && NoZero(PRESET4_INTER) && NoZero(PRESET8_INTRA) && NoZero(PRESET8_INTER)
  {
  }

  datatype Matrices = Matrices(intra4: seq<seq<byte>>, inter4: seq<seq<byte>>, intra8: seq<seq<byte>>, inter8: seq<seq<byte>>)

  /** The lists behind a set matrix-present flag: three 8x8 lists a side for 4:4:4, else one. */
  function ReadMatrices(rest: seq<bool>, chroma444: bool): (r: (Matrices, seq<bool>)) {
    PresetsHaveNoZero();
    var n := if chroma444 then 3 else 1;
    var (intra4, r1) := Chain(rest, 3, PRESET4_INTRA, PRESET4_INTRA);
    var (inter4, r2) := Chain(r1, 3, PRESET4_INTER, PRESET4_INTER);
    var (intra8, r3) := Chain(r2, n, PRESET8_INTRA, PRESET8_INTRA);
    var (inter8, r4) := Chain(r3, n, PRESET8_INTER, PRESET8_INTER);
    (Matrices(intra4, inter4, intra8, inter8), r4)
  }

  predicate AllNoZero(lists: seq<seq<byte>>) {
    forall i :: 0 <= i < |lists| ==> NoZero(lists[i])
  }

  /** Whatever the bits are, no factor the decoder stores is 0. */
  lemma MatricesHaveNoZero(rest: seq<bool>, chroma444: bool)
    ensures var m := ReadMatrices(rest, chroma444).0;
      AllNoZero(m.intra4) && AllNoZero(m.inter4) && AllNoZero(m.intra8) && AllNoZero(m.inter8)
  {
    hide Chain, NoZero, PRESET4_INTRA, PRESET4_INTER, PRESET8_INTRA, PRESET8_INTER;
    PresetsHaveNoZero();
    var n := if chroma444 then 3 else 1;
    var (intra4, r1) := Chain(rest, 3, PRESET4_INTRA, PRESET4_INTRA);
    var (inter4, r2) := Chain(r1, 3, PRESET4_INTER, PRESET4_INTER);
    var (intra8, r3) := Chain(r2, n, PRESET8_INTRA, PRESET8_INTRA);
    ChainHasNoZero(rest, 3, PRESET4_INTRA, PRESET4_INTRA);
    ChainHasNoZero(r1, 3, PRESET4_INTER, PRESET4_INTER);
    ChainHasNoZero(r2, n, PRESET8_INTRA, PRESET8_INTRA);
    ChainHasNoZero(r3, n, PRESET8_INTER, PRESET8_INTER);
  }

  method DecodeThree(s: BitStream, a: array<byte>, b: array<byte>, c: array<byte>, preset: seq<byte>)
    requires s.Valid() && s.data != a && s.data != b && s.data != c && a != b && a != c && b != c
    requires |preset| == a.Length == b.Length == c.Length && (|preset| == 16 || |preset| == 64)
    modifies s`p, s`left, a, b, c
    ensures s.Valid()
    ensures ([a[..], b[..], c[..]], s.Rest()) == Chain(old(s.Rest()), 3, preset, preset)
  {
    hide ReadList, BitsFrom, Chain;
    ghost var rest := s.Rest();
    DecodeScalingList(s, a, preset, preset);
    ghost var rest1 := s.Rest();
    DecodeScalingList(s, b, preset, a[..]);
    ghost var rest2 := s.Rest();
    DecodeScalingList(s, c, preset, b[..]);
    ChainOfThree(rest, preset, preset);
  }

  lemma ChainOfThree(rest: seq<bool>, preset: seq<byte>, fallback: seq<byte>)
    requires |preset| == |fallback| && (|preset| == 16 || |preset| == 64)
    ensures var (a, r1) := ReadList(rest, preset, fallback);
      var (b, r2) := ReadList(r1, preset, a);
      var (c, r3) := ReadList(r2, preset, b);
      Chain(rest, 3, preset, fallback) == ([a, b, c], r3)
    ensures Chain(rest, 1, preset, fallback)
         == ([ReadList(rest, preset, fallback).0], ReadList(rest, preset, fallback).1)
  {
    hide ReadList;
    var (a, r1) := ReadList(rest, preset, fallback);
    var (b, r2) := ReadList(r1, preset, a);
    var (c, r3) := ReadList(r2, preset, b);
    assert Chain(r3, 0, preset, c) == ([], r3);
    assert [c] + [] == [c] && [b] + [c] == [b, c] && [a] + [b, c] == [a, b, c];
    assert Chain(r2, 1, preset, b) == ([c], r3);
    assert Chain(r1, 2, preset, a) == ([b, c], r3);
    assert [a] + [] == [a];
  }
}
