/** h264_sps_read: the parser over the bit cursor, filling a parameter set in place. */
module Sps {
  import opened Bits
  import opened BitReading
  import opened Golomb
  import opened BitStreams
  import opened Scaling
  import opened SpsSyntax
  import opened Wrappers

  class H264Sps {
    var id: int
    var profileIdc: int
    var levelIdc: int
    var constraintSet0: int
    var constraintSet1: int
    var constraintSet2: int
    var chromaFormatIdc: int
    var log2MaxFrameNum: int
    var pocType: int
    var log2MaxPocLsb: int
    var deltaPicOrderAlwaysZero: int
    var offsetForNonRefPic: int
    var offsetForTopToBottomField: int
    var numRefFramesInPocCycle: int
    const offsetForRefFrame: array<int>
    var numRefFrames: int
    var gapsInFrameNumAllowed: int
    var mbWidth: int
    var mbHeight: int
    var frameMbsOnly: int
    var mbAdaptiveFrameField: int
    var direct8x8Inference: int
    var crop: int
    var cropLeft: int
    var cropRight: int
    var cropTop: int
    var cropBottom: int
    var vui: int
    var scalingMatrixPresent: bool
    const intra4: seq<array<byte>>
    const inter4: seq<array<byte>>
    const intra8: seq<array<byte>>
    const inter8: seq<array<byte>>

    ghost predicate Valid() {
      && offsetForRefFrame.Length == 256
      && ThreeOf(intra4, 16) && ThreeOf(inter4, 16) && ThreeOf(intra8, 64) && ThreeOf(inter8, 64)
      && (forall i, j :: 0 <= i < 3 && 0 <= j < 3 ==> intra4[i] != inter4[j] && intra8[i] != inter8[j])
    }

    static ghost predicate ThreeOf(lists: seq<array<byte>>, size: nat) {
      && |lists| == 3
      && lists[0].Length == lists[1].Length == lists[2].Length == size
      && lists[0] != lists[1] && lists[0] != lists[2] && lists[1] != lists[2]
    }

    ghost function Lists(): set<array<byte>> {
      (set a <- intra4) + (set a <- inter4) + (set a <- intra8) + (set a <- inter8)
    }

    ghost function HeaderOf(): Header
      reads `profileIdc, `levelIdc, `constraintSet0, `constraintSet1, `constraintSet2, `id
    {
      Header(profileIdc, levelIdc, constraintSet0, constraintSet1, constraintSet2, id)
    }

    ghost function PocOf(kind: int): Poc
      requires Valid()
      reads `log2MaxPocLsb, `deltaPicOrderAlwaysZero, `offsetForNonRefPic, `offsetForTopToBottomField, `numRefFramesInPocCycle
      reads offsetForRefFrame
    {
      if kind == 0 then Poc0(log2MaxPocLsb)
      else if kind == 1 then
        var n := if numRefFramesInPocCycle < 0 then 0 else if numRefFramesInPocCycle > 256 then 256 else numRefFramesInPocCycle;
        Poc1(deltaPicOrderAlwaysZero, offsetForNonRefPic, offsetForTopToBottomField, numRefFramesInPocCycle,
             offsetForRefFrame[..n])
      else PocOther
    }

    ghost function PictureOf(): Picture
      reads `numRefFrames, `gapsInFrameNumAllowed, `mbWidth, `mbHeight, `frameMbsOnly, `mbAdaptiveFrameField
      reads `direct8x8Inference, `crop, `vui, `cropLeft, `cropRight, `cropTop, `cropBottom
    {
      Picture(numRefFrames, gapsInFrameNumAllowed, mbWidth, mbHeight, frameMbsOnly, mbAdaptiveFrameField,
              direct8x8Inference, crop, Crop(cropLeft, cropRight, cropTop, cropBottom), vui)
    }

    /** The lists hold these matrices; of the 8x8 lists only as many as were decoded. */
    ghost predicate HoldsMatrices(m: Matrices)
      requires Valid()
      reads Lists()
    {
      && m.intra4 == [intra4[0][..], intra4[1][..], intra4[2][..]]
      && m.inter4 == [inter4[0][..], inter4[1][..], inter4[2][..]]
      && m.intra8 <= [intra8[0][..], intra8[1][..], intra8[2][..]]
      && m.inter8 <= [inter8[0][..], inter8[1][..], inter8[2][..]]
    }

    ghost predicate HoldsHigh(high: Option<High>)
      requires Valid()
      reads `chromaFormatIdc, `scalingMatrixPresent, Lists()
    {
      high.Some? ==>
        && chromaFormatIdc == high.value.chroma
        && (scalingMatrixPresent <==> high.value.matrices.Some?)
        && (high.value.matrices.Some? ==> HoldsMatrices(high.value.matrices.value))
    }

    /** Every field that a complete parse assigns holds what was parsed. */
    ghost predicate Holds(o: Outcome)
      requires Valid() && o.Complete?
      reads this, offsetForRefFrame, Lists()
    {
      && HeaderOf() == o.header && HoldsHigh(o.high) && HoldsBody(o)
    }

    ghost predicate HoldsBody(o: Outcome)
      requires Valid() && o.Complete?
      reads this, offsetForRefFrame
    {
      && log2MaxFrameNum == o.log2MaxFrameNum && pocType == o.pocType
      && PocOf(o.pocType) == o.poc && PictureOf() == o.picture
    }
  }

  method ReadHeaderAt(s: BitStream) returns (h: Header)
    requires s.Valid()
    modifies s`p, s`left
    ensures s.Valid() && (h, s.Rest()) == ReadHeader(old(s.Rest()))
  {
    hide BitReading.Read, Golomb.ReadUe, BitsFrom;
    var profile := s.Read(8);
    var set0 := s.Read(1);
    var set1 := s.Read(1);
    var set2 := s.Read(1);
    s.Skip(5);
    var level := s.Read(8);
    var id := s.ReadUe();
    h := Header(profile, level, set0, set1, set2, id);
  }

  method DecodeScalingMatrices(s: BitStream, sps: H264Sps)
    requires s.Valid() && sps.Valid() && s.data !in sps.Lists()
    modifies s`p, s`left, sps`scalingMatrixPresent, sps.Lists()
    ensures s.Valid()
    ensures var (present, r) := BitReading.Read(old(s.Rest()), 1);
      && (present == 0 ==> s.Rest() == r && sps.scalingMatrixPresent == old(sps.scalingMatrixPresent))
      && (present != 0 ==>
            && sps.scalingMatrixPresent && s.Rest() == ReadMatrices(r, sps.chromaFormatIdc == 3).1
            && sps.HoldsMatrices(ReadMatrices(r, sps.chromaFormatIdc == 3).0))
  {
    hide BitReading.Read, BitsFrom, Chain, ReadList, PRESET4_INTRA, PRESET4_INTER, PRESET8_INTRA, PRESET8_INTER;
    PresetsHaveNoZero();
    var present := s.Read(1);
    if present != 0 {
      sps.scalingMatrixPresent := true;
      ghost var r0 := s.Rest();
      DecodeThree(s, sps.intra4[0], sps.intra4[1], sps.intra4[2], PRESET4_INTRA);
      ghost var r1 := s.Rest();
      DecodeThree(s, sps.inter4[0], sps.inter4[1], sps.inter4[2], PRESET4_INTER);
      ghost var r2 := s.Rest();
      DecodeEights(s, sps.intra8[0], sps.intra8[1], sps.intra8[2], PRESET8_INTRA, sps.chromaFormatIdc == 3);
      ghost var r3 := s.Rest();
      DecodeEights(s, sps.inter8[0], sps.inter8[1], sps.inter8[2], PRESET8_INTER, sps.chromaFormatIdc == 3);
    }
  }

  /** One side's 8x8 lists: all three for 4:4:4, else only the first. */
  method DecodeEights(s: BitStream, a: array<byte>, b: array<byte>, c: array<byte>, preset: seq<byte>, all: bool)
    requires s.Valid() && s.data != a && s.data != b && s.data != c && a != b && a != c && b != c
    requires |preset| == a.Length == b.Length == c.Length == 64
    modifies s`p, s`left, a, b, c
    ensures s.Valid()
    ensures s.Rest() == Chain(old(s.Rest()), if all then 3 else 1, preset, preset).1
    ensures Chain(old(s.Rest()), if all then 3 else 1, preset, preset).0 <= [a[..], b[..], c[..]]
  {
    hide ReadList, BitsFrom, Chain;
    if all {
      DecodeThree(s, a, b, c, preset);
    } else {
      ChainOfThree(s.Rest(), preset, preset);
      DecodeScalingList(s, a, preset, preset);
    }
  }

  /** The fields of order count type 1. */
  method ReadCycleAt(s: BitStream, sps: H264Sps)
    requires s.Valid() && sps.Valid()
    modifies s`p, s`left, sps.offsetForRefFrame
    modifies sps`deltaPicOrderAlwaysZero, sps`offsetForNonRefPic
    modifies sps`offsetForTopToBottomField, sps`numRefFramesInPocCycle
    ensures s.Valid() && (sps.PocOf(1), s.Rest()) == ReadPoc(old(s.Rest()), 1)
  {
    hide BitReading.Read, Golomb.ReadUe, Golomb.ReadSe, ReadSes, BitsFrom;
    var zero := s.Read(1);
    var nonRef := s.ReadSe();
    var topToBottom := s.ReadSe();
    var count := s.ReadUe();
    if count > 256 {
      count := 256;
    }
    ReadOffsets(s, sps.offsetForRefFrame, count);
    sps.deltaPicOrderAlwaysZero := zero;
    sps.offsetForNonRefPic := nonRef;
    sps.offsetForTopToBottomField := topToBottom;
    sps.numRefFramesInPocCycle := count;
  }

  method ReadPocAt(s: BitStream, sps: H264Sps, kind: int)
    requires s.Valid() && sps.Valid()
    modifies s`p, s`left, sps.offsetForRefFrame
    modifies sps`log2MaxPocLsb, sps`deltaPicOrderAlwaysZero, sps`offsetForNonRefPic
    modifies sps`offsetForTopToBottomField, sps`numRefFramesInPocCycle
    ensures s.Valid() && (sps.PocOf(kind), s.Rest()) == ReadPoc(old(s.Rest()), kind)
  {
    hide BitReading.Read, Golomb.ReadUe, Golomb.ReadSe, ReadSes, BitsFrom;
    if kind == 0 {
      var lsb := s.ReadUe();
      sps.log2MaxPocLsb := lsb + 4;
    } else if kind == 1 {
      ReadCycleAt(s, sps);
    }
  }

  lemma NextSe(rest: seq<bool>, n: int)
    requires n > 0
    ensures var (v, r) := ReadSe(rest);
      && ReadSes(rest, n) == ([v] + ReadSes(r, n - 1).0, ReadSes(r, n - 1).1)
      && ReadSes(rest, n).0[1..] == ReadSes(r, n - 1).0
  {
    hide Golomb.ReadSe;
  }

  lemma NoSes(rest: seq<bool>, n: int)
    ensures n <= 0 ==> ReadSes(rest, n) == ([], rest)
  {
  }

  method ReadOffsets(s: BitStream, a: array<int>, n: int)
    requires s.Valid() && n <= 256 && a.Length == 256
    modifies s`p, s`left, a
    ensures s.Valid() && (a[..if n < 0 then 0 else n], s.Rest()) == ReadSes(old(s.Rest()), n)
  {
    hide Golomb.ReadSe, BitsFrom, ReadSes;
    var i := 0;
    ghost var whole := ReadSes(s.Rest(), n);
    assert a[..0] + whole.0 == whole.0;
    NoSes(s.Rest(), n);
    while i < n
      invariant s.Valid() && 0 <= i && (n >= 0 ==> i <= n) && (n < 0 ==> i == 0)
      invariant whole.0 == a[..i] + ReadSes(s.Rest(), n - i).0
      invariant whole.1 == ReadSes(s.Rest(), n - i).1
    {
      ghost var done, later := a[..i], ReadSes(s.Rest(), n - i).0;
      NextSe(s.Rest(), n - i);
      a[i] := s.ReadSe();
      assert a[..i + 1] == done + [a[i]];
      Assoc(done, [a[i]], later[1..]);
      i := i + 1;
    }
    NoSes(s.Rest(), n - i);
    Assoc(a[..i], [], []);
  }

  method ReadPictureAt(s: BitStream, sps: H264Sps)
    requires s.Valid()
    modifies s`p, s`left
    modifies sps`numRefFrames, sps`gapsInFrameNumAllowed, sps`mbWidth, sps`mbHeight, sps`frameMbsOnly
    modifies sps`mbAdaptiveFrameField, sps`direct8x8Inference, sps`crop, sps`vui
    modifies sps`cropLeft, sps`cropRight, sps`cropTop, sps`cropBottom
    ensures s.Valid() && (sps.PictureOf(), s.Rest()) == ReadPicture(old(s.Rest()))
    ensures sps.vui == sps.PictureOf().vui
  {
    hide ReadSize, ReadFlags, ReadCrop, BitReading.Read, BitsFrom;
    ReadSizeAt(s, sps);
    ReadFlagsAt(s, sps);
    if sps.crop != 0 {
      ReadCropAt(s, sps);
    } else {
      sps.cropLeft := 0;
      sps.cropRight := 0;
      sps.cropTop := 0;
      sps.cropBottom := 0;
    }
    sps.vui := s.Read(1);
  }

  method ReadSizeAt(s: BitStream, sps: H264Sps)
    requires s.Valid()
    modifies s`p, s`left, sps`numRefFrames, sps`gapsInFrameNumAllowed, sps`mbWidth, sps`mbHeight
    ensures s.Valid()
    ensures ((sps.numRefFrames, sps.gapsInFrameNumAllowed, sps.mbWidth, sps.mbHeight), s.Rest()) == ReadSize(old(s.Rest()))
  {
    hide BitReading.Read, Golomb.ReadUe, BitsFrom;
    sps.numRefFrames := s.ReadUe();
    sps.gapsInFrameNumAllowed := s.Read(1);
    var w := s.ReadUe();
    sps.mbWidth := w + 1;
    var h := s.ReadUe();
    sps.mbHeight := h + 1;
  }

  method ReadFlagsAt(s: BitStream, sps: H264Sps)
    requires s.Valid()
    modifies s`p, s`left, sps`frameMbsOnly, sps`mbAdaptiveFrameField, sps`direct8x8Inference, sps`crop
    ensures s.Valid()
    ensures ((sps.frameMbsOnly, sps.mbAdaptiveFrameField, sps.direct8x8Inference, sps.crop), s.Rest())
         == ReadFlags(old(s.Rest()))
  {
    hide BitReading.Read, BitsFrom;
    sps.frameMbsOnly := s.Read(1);
    if sps.frameMbsOnly == 0 {
      sps.mbAdaptiveFrameField := s.Read(1);
    } else {
      sps.mbAdaptiveFrameField := 0;
    }
    sps.direct8x8Inference := s.Read(1);
    sps.crop := s.Read(1);
  }

  method ReadCropAt(s: BitStream, sps: H264Sps)
    requires s.Valid()
    modifies s`p, s`left, sps`cropLeft, sps`cropRight, sps`cropTop, sps`cropBottom
    ensures s.Valid()
    ensures (Crop(sps.cropLeft, sps.cropRight, sps.cropTop, sps.cropBottom), s.Rest()) == ReadCrop(old(s.Rest()))
  {
    hide Golomb.ReadUe, BitsFrom;
    sps.cropLeft := s.ReadUe();
    sps.cropRight := s.ReadUe();
    sps.cropTop := s.ReadUe();
    sps.cropBottom := s.ReadUe();
  }

  /** decode_vui_parameters: where it leaves the cursor; its fields are not kept. */
  method DecodeVui(s: BitStream)
    requires s.Valid()
    modifies s`p, s`left
    ensures s.Valid() && s.Rest() == VuiRest(old(s.Rest()))
  {
    hide VuiAspect, VuiSignal, VuiTiming, VuiRestriction, BitsFrom;
    var go := DecodeVuiAspect(s);
    if !go {
      return;
    }
    DecodeVuiSignal(s);
    go := DecodeVuiTiming(s);
    if !go {
      return;
    }
    DecodeVuiRestriction(s);
  }

  method DecodeVuiAspect(s: BitStream) returns (go: bool)
    requires s.Valid()
    modifies s`p, s`left
    ensures s.Valid() && (go, s.Rest()) == VuiAspect(old(s.Rest()))
  {
    hide BitReading.Read, BitsFrom;
    go := true;
    var present := s.Read(1);
    if present != 0 {
      var idc := s.Read(8);
      if idc == 255 {
        var _ := s.Read(16);
        var _ := s.Read(16);
      } else {
        go := idc < 17;
      }
    }
  }

  method DecodeVuiSignal(s: BitStream)
    requires s.Valid()
    modifies s`p, s`left
    ensures s.Valid() && s.Rest() == VuiSignal(old(s.Rest()))
  {
    hide BitReading.Read, BitsFrom;
    var overscan := s.Read(1);
    if overscan != 0 {
      var _ := s.Read(1);
    }
    var signal := s.Read(1);
    if signal != 0 {
      var _ := s.Read(3);
      var _ := s.Read(1);
      var colour := s.Read(1);
      if colour != 0 {
        var _ := s.Read(8);
        var _ := s.Read(8);
        var _ := s.Read(8);
      }
    }
  }

  method DecodeVuiTiming(s: BitStream) returns (go: bool)
    requires s.Valid()
    modifies s`p, s`left
    ensures s.Valid() && (go, s.Rest()) == VuiTiming(old(s.Rest()))
  {
    hide BitReading.Read, Golomb.ReadUe, BitsFrom;
    go := true;
    var location := s.Read(1);
    if location != 0 {
      var _ := s.ReadUe();
      var _ := s.ReadUe();
    }
    var timing := s.Read(1);
    if timing != 0 {
      var units := s.Read(32);
      var scale := s.Read(32);
      if units == 0 || scale == 0 {
        return false;
      }
      var _ := s.Read(1);
    }
  }

  method DecodeVuiRestriction(s: BitStream)
    requires s.Valid()
    modifies s`p, s`left
    ensures s.Valid() && s.Rest() == VuiRestriction(old(s.Rest()))
  {
    hide BitReading.Read, Golomb.ReadUe, BitsFrom;
    var nalHrd := s.Read(1);
    var vclHrd := s.Read(1);
    if nalHrd != 0 || vclHrd != 0 {
      var _ := s.Read(1);
    }
    var _ := s.Read(1);
    if s.Eof() {
      return;
    }
    var restricted := s.Read(1);
    if restricted != 0 {
      var _ := s.Read(1);
      var _ := s.ReadUe();
      var _ := s.ReadUe();
      var _ := s.ReadUe();
      var _ := s.ReadUe();
      var _ := s.ReadUe();
      var _ := s.ReadUe();
    }
  }

  /** The bits behind the NAL header byte. */
  ghost function RbspBits(nal: array<byte>, len: int): seq<bool>
    requires len <= nal.Length
    reads nal
  {
    if len > 1 then Flatten(nal[1..len]) else []
  }

  method H264SpsRead(nal: array<byte>, len: int, sps: H264Sps) returns (r: int)
    requires len <= nal.Length && sps.Valid()
    requires nal !in sps.Lists() && nal as object != sps.offsetForRefFrame
    modifies sps, sps.offsetForRefFrame, sps.Lists()
    ensures var o := ParseSps(old(RbspBits(nal, len)));
      && r == ReturnCode(o)
      && (o.Complete? ==> sps.Holds(o))
      && (o.BadPocType? || o.Incomplete? ==> sps.id == -1)
  {
    hide ReadHeader, ReadAfterHeader, BitsFrom, Flatten, H264Sps.Holds, H264Sps.Valid;
    sps.scalingMatrixPresent := false;
    var s := new BitStream(nal, 1, len - 1);
    var h := ReadHeaderAt(s);
    var eof := s.Eof();
    if eof || h.id >= 32 {
      return -1;
    }
    sps.id := h.id;
    sps.profileIdc := h.profile;
    sps.levelIdc := h.level;
    sps.constraintSet0 := h.set0;
    sps.constraintSet1 := h.set1;
    sps.constraintSet2 := h.set2;
    r := ReadAfterHeaderAt(s, sps, h);
  }

  method ReadAfterHeaderAt(s: BitStream, sps: H264Sps, h: Header) returns (r: int)
    requires s.Valid() && sps.Valid() && s.data !in sps.Lists() && !sps.scalingMatrixPresent
    requires sps.HeaderOf() == h
    modifies s`p, s`left, sps, sps.offsetForRefFrame, sps.Lists()
    ensures var o := ReadAfterHeader(old(s.Rest()), h);
      && r == ReturnCode(o)
      && (o.Complete? ==> sps.Holds(o))
      && (o.BadPocType? || o.Incomplete? ==> sps.id == -1)
  {
    hide ReadAfterHeader, ReadBody, BitsFrom, H264Sps.PocOf, H264Sps.PictureOf, H264Sps.HoldsHigh, H264Sps.HoldsBody;
    hide H264Sps.HeaderOf, H264Sps.Holds, H264Sps.Valid;
    var ok; ghost var high;
    ok, high := ReadHighBlock(s, sps, h);
    if !ok {
      return -1;
    }
    BodyKeeps(s.Rest(), h, high);
    ghost var o := ReadBody(s.Rest(), h, high);
    r := ReadBodyAt(s, sps, h, high);
    if o.Complete? {
      HoldsAll(sps, o);
    }
  }

  lemma IdOf(sps: H264Sps)
    ensures sps.HeaderOf().id == sps.id
  {
  }

  lemma HoldsAll(sps: H264Sps, o: Outcome)
    requires sps.Valid() && o.Complete?
    requires sps.HeaderOf() == o.header && sps.HoldsHigh(o.high) && sps.HoldsBody(o)
    ensures sps.Holds(o)
  {
  }

  /** The high-profile block if there is one; false when its chroma format is rejected. */
  method ReadHighBlock(s: BitStream, sps: H264Sps, h: Header) returns (ok: bool, ghost high: Option<High>)
    requires s.Valid() && sps.Valid() && s.data !in sps.Lists() && !sps.scalingMatrixPresent
    requires sps.HeaderOf() == h
    modifies s`p, s`left, sps`chromaFormatIdc, sps`scalingMatrixPresent, sps.Lists()
    ensures s.Valid() && sps.HoldsHigh(high)
    ensures ReadAfterHeader(old(s.Rest()), h) == if ok then ReadBody(s.Rest(), h, high) else BadChroma(h)
  {
    hide Golomb.ReadUe, ReadHigh, ReadBody, BitsFrom, H264Sps.HoldsMatrices;
    ok := true;
    high := None;
    if sps.profileIdc >= 100 {
      var chroma := s.ReadUe();
      sps.chromaFormatIdc := chroma;
      if chroma >= 32 {
        ok := false;
      } else {
        high := Some(ReadHigh(s.Rest(), chroma).0);
        ReadHighAt(s, sps);
      }
    }
  }

  method ReadHighAt(s: BitStream, sps: H264Sps)
    requires s.Valid() && sps.Valid() && s.data !in sps.Lists() && !sps.scalingMatrixPresent
    modifies s`p, s`left, sps`scalingMatrixPresent, sps.Lists()
    ensures s.Valid() && s.Rest() == ReadHigh(old(s.Rest()), sps.chromaFormatIdc).1
    ensures sps.HoldsHigh(Some(ReadHigh(old(s.Rest()), sps.chromaFormatIdc).0))
  {
    hide BitReading.Read, Golomb.ReadUe, ReadMatrices, BitsFrom;
    if sps.chromaFormatIdc == 3 {
      var _ := s.Read(1);
    }
    var _ := s.ReadUe();
    var _ := s.ReadUe();
    var _ := s.Read(1);
    DecodeScalingMatrices(s, sps);
  }

  /** The fields behind the picture order count type. */
  method ReadFieldsAt(s: BitStream, sps: H264Sps, kind: int)
    requires s.Valid() && sps.Valid()
    modifies s`p, s`left, sps.offsetForRefFrame
    modifies sps`log2MaxPocLsb, sps`deltaPicOrderAlwaysZero, sps`offsetForNonRefPic
    modifies sps`offsetForTopToBottomField, sps`numRefFramesInPocCycle
    modifies sps`numRefFrames, sps`gapsInFrameNumAllowed, sps`mbWidth, sps`mbHeight, sps`frameMbsOnly
    modifies sps`mbAdaptiveFrameField, sps`direct8x8Inference, sps`crop, sps`vui
    modifies sps`cropLeft, sps`cropRight, sps`cropTop, sps`cropBottom
    ensures s.Valid()
    ensures var (poc, r3) := ReadPoc(old(s.Rest()), kind);
      var (picture, r4) := ReadPicture(r3);
      && sps.PocOf(kind) == poc && sps.PictureOf() == picture
      && s.Rest() == if picture.vui != 0 then VuiRest(r4) else r4
  {
    hide ReadPoc, ReadPicture, VuiRest, BitsFrom, H264Sps.PocOf, H264Sps.PictureOf;
    ReadPocAt(s, sps, kind);
    ReadPictureAt(s, sps);
    if sps.vui != 0 {
      DecodeVui(s);
    }
  }

  method ReadBodyAt(s: BitStream, sps: H264Sps, ghost h: Header, ghost high: Option<High>) returns (r: int)
    requires s.Valid() && sps.Valid() && sps.HeaderOf() == h
    modifies s`p, s`left, sps.offsetForRefFrame
    modifies sps`id, sps`log2MaxFrameNum, sps`pocType
    modifies sps`log2MaxPocLsb, sps`deltaPicOrderAlwaysZero, sps`offsetForNonRefPic
    modifies sps`offsetForTopToBottomField, sps`numRefFramesInPocCycle
    modifies sps`numRefFrames, sps`gapsInFrameNumAllowed, sps`mbWidth, sps`mbHeight, sps`frameMbsOnly
    modifies sps`mbAdaptiveFrameField, sps`direct8x8Inference, sps`crop, sps`vui
    modifies sps`cropLeft, sps`cropRight, sps`cropTop, sps`cropBottom
    ensures var o := ReadBody(old(s.Rest()), h, high);
      && r == ReturnCode(o)
      && (if o.Complete? then sps.HeaderOf() == h && sps.HoldsBody(o) else sps.id == -1)
  {
    hide Golomb.ReadUe, ReadPoc, ReadPicture, VuiRest, BitsFrom, H264Sps.PocOf, H264Sps.PictureOf, H264Sps.HeaderOf, H264Sps.Valid;
    IdOf(sps);
    ghost var o := ReadBody(s.Rest(), h, high);
    var frameNum := s.ReadUe();
    sps.log2MaxFrameNum := frameNum + 4;
    sps.pocType := s.ReadUe();
    if sps.pocType > 2 {
      sps.id := -1;
      assert o == BadPocType(h);
      return -1;
    }
    ReadFieldsAt(s, sps, sps.pocType);
    var eof := s.Eof();
    if eof {
      assert o == Incomplete(h);
      sps.id := -1;
      return -1000;
    }
    r := sps.id;
  }
}
