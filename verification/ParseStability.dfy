/**
 * What the SPS parser has read does not depend on the bits it has not reached: a parse that
 * completes stays as it is whatever follows, so no set that is cut off completes.
 */
module ParseStability {
  import opened Bits
  import opened BitReading
  import opened Golomb
  import opened Scaling
  import opened SpsSyntax
  import opened SpsLayout
  import opened Wrappers

  /** With bits left over, more bits behind them change nothing; with none to start with, none are left. */
  predicate On<T(==)>(rest: seq<bool>, p: (T, seq<bool>), q: (T, seq<bool>), x: seq<bool>) {
    && (p.1 != [] ==> q == (p.0, p.1 + x))
    && (rest == [] ==> p.1 == [])
  }

  predicate RestOn(rest: seq<bool>, p: seq<bool>, q: seq<bool>, x: seq<bool>) {
    (p != [] ==> q == p + x) && (rest == [] ==> p == [])
  }

  lemma ReadOn(rest: seq<bool>, n: nat, x: seq<bool>)
    ensures On(rest, Read(rest, n), Read(rest + x, n), x)
  {
    hide Value, Shl;
    if n < |rest| {
      assert (rest + x)[..n] == rest[..n] && (rest + x)[n..] == rest[n..] + x;
    }
  }

  lemma {:induction false} ZerosOn(rest: seq<bool>, i: nat, x: seq<bool>)
    requires i <= 32
    ensures On(rest, Zeros(rest, i), Zeros(rest + x, i), x)
    decreases |rest|
  {
    if |rest| > 1 {
      assert (rest + x)[1..] == rest[1..] + x;
      if !rest[0] && i < 32 {
        ZerosOn(rest[1..], i + 1, x);
      }
    }
  }

  lemma UeOn(rest: seq<bool>, x: seq<bool>)
    ensures On(rest, ReadUe(rest), ReadUe(rest + x), x)
  {
    hide Zeros, Read, ToInt32, Pow2;
    var (i, r) := Zeros(rest, 0);
    ZerosOn(rest, 0, x);
    ReadOn(r, i, x);
  }

  lemma SeOn(rest: seq<bool>, x: seq<bool>)
    ensures On(rest, ReadSe(rest), ReadSe(rest + x), x)
  {
    hide ReadUe, UeToSe;
    UeOn(rest, x);
  }

  lemma {:induction false} SesOn(rest: seq<bool>, n: int, x: seq<bool>)
    ensures On(rest, ReadSes(rest, n), ReadSes(rest + x, n), x)
    decreases n
  {
    hide ReadSe;
    if n > 0 {
      SeOn(rest, x);
      SesOn(ReadSe(rest).1, n - 1, x);
    }
  }

  lemma HeaderOn(rest: seq<bool>, x: seq<bool>)
    ensures On(rest, ReadHeader(rest), ReadHeader(rest + x), x)
  {
    hide Read, ReadUe;
    var r1 := Read(rest, 8).1;
    var r2 := Read(r1, 1).1;
    var r3 := Read(r2, 1).1;
    var r4 := Read(r3, 1).1;
    var r5 := Read(r4, 5).1;
    ReadOn(rest, 8, x);
    ReadOn(r1, 1, x);
    ReadOn(r2, 1, x);
    ReadOn(r3, 1, x);
    ReadOn(r4, 5, x);
    ReadOn(r5, 8, x);
    UeOn(Read(r5, 8).1, x);
  }

  // ----- the scaling lists -----------------------------------------------------------

  lemma StepOn(rest: seq<bool>, last: byte, next: byte, x: seq<bool>)
    ensures On(rest, ScanStep(rest, last, next), ScanStep(rest + x, last, next), x)
  {
    hide ReadUe, NextFactor;
    UeOn(rest, x);
  }

  lemma {:induction false} ScanOn(rest: seq<bool>, n: nat, last: byte, next: byte, x: seq<bool>)
    ensures On(rest, ScanRun(rest, n, last, next), ScanRun(rest + x, n, last, next), x)
    decreases n
  {
    hide ScanStep;
    if n > 0 {
      var (next', rest') := ScanStep(rest, last, next);
      StepOn(rest, last, next, x);
      ScanOn(rest', n - 1, if next' == 0 then last else next', next', x);
    }
  }

  lemma ListOn(rest: seq<bool>, preset: seq<byte>, fallback: seq<byte>, x: seq<bool>)
    requires |preset| == |fallback| && (|preset| == 16 || |preset| == 64)
    ensures On(rest, ReadList(rest, preset, fallback), ReadList(rest + x, preset, fallback), x)
  {
    hide Read, ScanStep, ScanRun, Unscan;
    var rest1 := Read(rest, 1).1;
    ReadOn(rest, 1, x);
    StepOn(rest1, 8, 8, x);
    ScanOn(rest1, |preset|, 8, 8, x);
    if ScanRun(rest1, |preset|, 8, 8).1 != [] {
      RunBehindStep(rest1, |preset|);
    }
  }

  /** A run stops no earlier than its first step. */
  lemma RunBehindStep(rest: seq<bool>, n: nat)
    requires n > 0 && ScanRun(rest, n, 8, 8).1 != []
    ensures ScanStep(rest, 8, 8).1 != []
  {
    hide ScanStep;
    var (next', rest') := ScanStep(rest, 8, 8);
    ScanOn(rest', n - 1, if next' == 0 then 8 else next', next', []);
  }

  lemma {:induction false} ChainOn(rest: seq<bool>, n: nat, preset: seq<byte>, fallback: seq<byte>, x: seq<bool>)
    requires |preset| == |fallback| && (|preset| == 16 || |preset| == 64)
    ensures On(rest, Chain(rest, n, preset, fallback), Chain(rest + x, n, preset, fallback), x)
    decreases n
  {
    hide ReadList;
    if n > 0 {
      ListOn(rest, preset, fallback, x);
      ChainOn(ReadList(rest, preset, fallback).1, n - 1, preset, ReadList(rest, preset, fallback).0, x);
    }
  }

  lemma MatricesOn(rest: seq<bool>, chroma444: bool, x: seq<bool>)
    ensures On(rest, ReadMatrices(rest, chroma444), ReadMatrices(rest + x, chroma444), x)
  {
    hide Chain, PRESET4_INTRA, PRESET4_INTER, PRESET8_INTRA, PRESET8_INTER;
    PresetsHaveNoZero();
    var n := if chroma444 then 3 else 1;
    var r1 := Chain(rest, 3, PRESET4_INTRA, PRESET4_INTRA).1;
    var r2 := Chain(r1, 3, PRESET4_INTER, PRESET4_INTER).1;
    var r3 := Chain(r2, n, PRESET8_INTRA, PRESET8_INTRA).1;
    ChainOn(rest, 3, PRESET4_INTRA, PRESET4_INTRA, x);
    ChainOn(r1, 3, PRESET4_INTER, PRESET4_INTER, x);
    ChainOn(r2, n, PRESET8_INTRA, PRESET8_INTRA, x);
    ChainOn(r3, n, PRESET8_INTER, PRESET8_INTER, x);
  }

  lemma HighOn(rest: seq<bool>, chroma: int, x: seq<bool>)
    ensures On(rest, ReadHigh(rest, chroma), ReadHigh(rest + x, chroma), x)
  {
    hide Read, ReadUe, ReadMatrices;
    var r0 := if chroma == 3 then Read(rest, 1).1 else rest;
    var r1 := ReadUe(r0).1;
    var r2 := ReadUe(r1).1;
    var r3 := Read(r2, 1).1;
    ReadOn(rest, 1, x);
    UeOn(r0, x);
    UeOn(r1, x);
    ReadOn(r2, 1, x);
    ReadOn(r3, 1, x);
    MatricesOn(Read(r3, 1).1, chroma == 3, x);
  }

  // ----- the fields behind them --------------------------------------------------------

  lemma PocOn(rest: seq<bool>, pocType: int, x: seq<bool>)
    ensures On(rest, ReadPoc(rest, pocType), ReadPoc(rest + x, pocType), x)
  {
    hide Read, ReadUe, ReadSe, ReadSes;
    UeOn(rest, x);
    var r1 := Read(rest, 1).1;
    var r2 := ReadSe(r1).1;
    var r3 := ReadSe(r2).1;
    var (count, r4) := ReadUe(r3);
    ReadOn(rest, 1, x);
    SeOn(r1, x);
    SeOn(r2, x);
    UeOn(r3, x);
    SesOn(r4, if count > 256 then 256 else count, x);
  }

  lemma SizeOn(rest: seq<bool>, x: seq<bool>)
    ensures On(rest, ReadSize(rest), ReadSize(rest + x), x)
  {
    hide Read, ReadUe;
    var r1 := ReadUe(rest).1;
    var r2 := Read(r1, 1).1;
    UeOn(rest, x);
    ReadOn(r1, 1, x);
    UeOn(r2, x);
    UeOn(ReadUe(r2).1, x);
  }

  lemma FlagsOn(rest: seq<bool>, x: seq<bool>)
    ensures On(rest, ReadFlags(rest), ReadFlags(rest + x), x)
  {
    hide Read;
    var (frameOnly, r1) := Read(rest, 1);
    var r2 := if frameOnly == 0 then Read(r1, 1).1 else r1;
    ReadOn(rest, 1, x);
    ReadOn(r1, 1, x);
    ReadOn(r2, 1, x);
    ReadOn(Read(r2, 1).1, 1, x);
  }

  lemma CropOn(rest: seq<bool>, x: seq<bool>)
    ensures On(rest, ReadCrop(rest), ReadCrop(rest + x), x)
  {
    hide ReadUe;
    var r1 := ReadUe(rest).1;
    var r2 := ReadUe(r1).1;
    UeOn(rest, x);
    UeOn(r1, x);
    UeOn(r2, x);
    UeOn(ReadUe(r2).1, x);
  }

  lemma PictureOn(rest: seq<bool>, x: seq<bool>)
    ensures On(rest, ReadPicture(rest), ReadPicture(rest + x), x)
  {
    hide Read, ReadSize, ReadFlags, ReadCrop;
    var r1 := ReadSize(rest).1;
    var (flags, r2) := ReadFlags(r1);
    SizeOn(rest, x);
    FlagsOn(r1, x);
    CropOn(r2, x);
    ReadOn(if flags.3 != 0 then ReadCrop(r2).1 else r2, 1, x);
  }

  // ----- video usability information ------------------------------------------------------

  lemma AspectOn(rest: seq<bool>, x: seq<bool>)
    ensures On(rest, VuiAspect(rest), VuiAspect(rest + x), x)
  {
    hide Read;
    var r1 := Read(rest, 1).1;
    var r2 := Read(r1, 8).1;
    ReadOn(rest, 1, x);
    ReadOn(r1, 8, x);
    ReadOn(r2, 16, x);
    ReadOn(Read(r2, 16).1, 16, x);
  }

  lemma SignalOn(rest: seq<bool>, x: seq<bool>)
    ensures RestOn(rest, VuiSignal(rest), VuiSignal(rest + x), x)
  {
    hide Read;
    var (overscan, r1) := Read(rest, 1);
    var r2 := if overscan != 0 then Read(r1, 1).1 else r1;
    var r3 := Read(r2, 1).1;
    var r4 := Read(r3, 3).1;
    var r5 := Read(r4, 1).1;
    var r6 := Read(r5, 1).1;
    var r7 := Read(r6, 8).1;
    ReadOn(rest, 1, x);
    ReadOn(r1, 1, x);
    ReadOn(r2, 1, x);
    ReadOn(r3, 3, x);
    ReadOn(r4, 1, x);
    ReadOn(r5, 1, x);
    ReadOn(r6, 8, x);
    ReadOn(r7, 8, x);
    ReadOn(Read(r7, 8).1, 8, x);
  }

  lemma TimingOn(rest: seq<bool>, x: seq<bool>)
    ensures On(rest, VuiTiming(rest), VuiTiming(rest + x), x)
  {
    hide Read, ReadUe;
    var (location, r1) := Read(rest, 1);
    var r2 := if location != 0 then ReadUe(ReadUe(r1).1).1 else r1;
    var r3 := Read(r2, 1).1;
    var r4 := Read(r3, 32).1;
    ReadOn(rest, 1, x);
    UeOn(r1, x);
    UeOn(ReadUe(r1).1, x);
    ReadOn(r2, 1, x);
    ReadOn(r3, 32, x);
    ReadOn(r4, 32, x);
    ReadOn(Read(r4, 32).1, 1, x);
  }

  lemma RestrictionOn(rest: seq<bool>, x: seq<bool>)
    ensures RestOn(rest, VuiRestriction(rest), VuiRestriction(rest + x), x)
  {
    hide Read, ReadUe;
    var (nalHrd, r1) := Read(rest, 1);
    var (vclHrd, r2) := Read(r1, 1);
    var r3 := if nalHrd != 0 || vclHrd != 0 then Read(r2, 1).1 else r2;
    var r4 := Read(r3, 1).1;
    var r5 := Read(r4, 1).1;
    ReadOn(rest, 1, x);
    ReadOn(r1, 1, x);
    ReadOn(r2, 1, x);
    ReadOn(r3, 1, x);
    ReadOn(r4, 1, x);
    ReadOn(r5, 1, x);
    var u0 := Read(r5, 1).1;
    var u1 := ReadUe(u0).1;
    var u2 := ReadUe(u1).1;
    var u3 := ReadUe(u2).1;
    var u4 := ReadUe(u3).1;
    UeOn(u0, x);
    UeOn(u1, x);
    UeOn(u2, x);
    UeOn(u3, x);
    UeOn(u4, x);
    UeOn(ReadUe(u4).1, x);
  }

  lemma VuiOn(rest: seq<bool>, x: seq<bool>)
    ensures RestOn(rest, VuiRest(rest), VuiRest(rest + x), x)
  {
    hide VuiAspect, VuiSignal, VuiTiming, VuiRestriction;
    var r1 := VuiAspect(rest).1;
    var r2 := VuiSignal(r1);
    AspectOn(rest, x);
    SignalOn(r1, x);
    TimingOn(r2, x);
    RestrictionOn(VuiTiming(r2).1, x);
  }

  // ----- the whole set --------------------------------------------------------------------

  lemma BodyOn(rest: seq<bool>, h: Header, high: Option<High>, x: seq<bool>)
    ensures ReadBody(rest, h, high).Complete? ==> ReadBody(rest + x, h, high) == ReadBody(rest, h, high) && rest != []
  {
    hide ReadUe, ReadPoc, ReadPicture, VuiRest;
    var r1 := ReadUe(rest).1;
    var (pocType, r2) := ReadUe(r1);
    var r3 := ReadPoc(r2, pocType).1;
    UeOn(rest, x);
    UeOn(r1, x);
    PocOn(r2, pocType, x);
    PictureOn(r3, x);
    VuiOn(ReadPicture(r3).1, x);
  }

  lemma AfterHeaderOn(rest: seq<bool>, h: Header, x: seq<bool>)
    ensures ReadAfterHeader(rest, h).Complete? ==> ReadAfterHeader(rest + x, h) == ReadAfterHeader(rest, h) && rest != []
  {
    hide ReadUe, ReadHigh, ReadBody;
    if h.profile >= 100 {
      var (chroma, r1) := ReadUe(rest);
      var (high, r2) := ReadHigh(r1, chroma);
      UeOn(rest, x);
      HighOn(r1, chroma, x);
      BodyOn(r2, h, Some(high), x);
    } else {
      BodyOn(rest, h, None, x);
    }
  }

  /** A parse that completes does not depend on the bits behind the set. */
  lemma CompleteStays(rest: seq<bool>, x: seq<bool>)
    ensures ParseSps(rest).Complete? ==> ParseSps(rest + x) == ParseSps(rest)
  {
    hide ReadHeader, ReadAfterHeader;
    var (h, r1) := ReadHeader(rest);
    HeaderOn(rest, x);
    AfterHeaderOn(r1, h, x);
  }

  lemma BodyCutOff(v: Sps, high: Option<High>)
    requires InRange(v)
    ensures ReadBody(BodyBits(v, []), v.header, high) == Incomplete(v.header)
  {
    hide ReadUe, UeOf, ReadPoc, PocBits, ReadPicture, PictureBits, VuiRest, VuiBits, VuiInRange;
    var t3 := AfterPicture(v, []);
    var t2 := PictureBits(v.picture, t3);
    var t1 := PocBits(v.poc, t2);
    ReadUeOf(v.log2MaxFrameNum - 4, UeOf(v.pocType) + t1);
    ReadUeOf(v.pocType, t1);
    PocInverse(v.pocType, v.poc, t2);
    PictureInverse(v.picture, t3);
    if v.vui.Some? {
      VuiInverse(v.vui.value, []);
    }
  }

  /** A set that ends in front of its trailing bits is incomplete and returns -1000. */
  lemma SpsCutOff(v: Sps)
    requires InRange(v) && (v.high.Some? <==> v.header.profile >= 100) && (v.high.Some? ==> Readable(v.high.value))
    ensures ParseSps(SpsBits(v, [])) == Incomplete(v.header) && ReturnCode(ParseSps(SpsBits(v, []))) == -1000
  {
    hide ReadHeader, HeaderBits, ReadUe, ReadHigh, HighBits, ReadBody, BodyBits;
    var body := BodyBits(v, []);
    BodyCutOff(v, HighOf(v));
    BodyNonEmpty(v, []);
    match v.high
    case None =>
      HeaderInverse(v.header, v.reserved, body);
    case Some(x) =>
      HeaderInverse(v.header, v.reserved, HighBits(x, body));
      HighInverse(x, body);
      HighNonEmpty(x, body);
  }

  /** Cut off anywhere, no set completes. */
  lemma NothingCutOffCompletes(v: Sps, n: nat)
    requires InRange(v) && (v.high.Some? <==> v.header.profile >= 100) && (v.high.Some? ==> Readable(v.high.value))
    requires n <= |SpsBits(v, [])|
    ensures !ParseSps(SpsBits(v, [])[..n]).Complete? && ReturnCode(ParseSps(SpsBits(v, [])[..n])) < 0
  {
    hide ParseSps, SpsBits, Readable;
    var bits := SpsBits(v, []);
    SpsCutOff(v);
    CompleteStays(bits[..n], bits[n..]);
    assert bits[..n] + bits[n..] == bits;
  }
}
