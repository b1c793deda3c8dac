/** What h264_sps_read makes of the bits behind the NAL header byte. */
module SpsSyntax {
  import opened Bits
  import opened BitReading
  import opened Golomb
  import opened Scaling
  import opened Wrappers

  datatype Header = Header(profile: int, level: int, set0: int, set1: int, set2: int, id: int)

  datatype High = High(chroma: int, matrices: Option<Matrices>)

  datatype Poc =
    | Poc0(log2MaxLsb: int)
    | Poc1(alwaysZero: int, nonRef: int, topToBottom: int, count: int, offsets: seq<int>)
    | PocOther

  datatype Crop = Crop(left: int, right: int, top: int, bottom: int)

  datatype Picture = Picture(
    numRef: int, gaps: int, width: int, height: int, frameOnly: int, adaptive: int, direct: int,
    cropped: int, crop: Crop, vui: int)

  datatype Outcome =
    | BadId
    | BadChroma(header: Header)
    | BadPocType(header: Header)
    | Incomplete(header: Header)
    | Complete(header: Header, high: Option<High>, log2MaxFrameNum: int, pocType: int, poc: Poc, picture: Picture)

  /** The value h264_sps_read returns. */
  function ReturnCode(o: Outcome): int {
    match o
    case BadId => -1
    case BadChroma(_) => -1
    case BadPocType(_) => -1
    case Incomplete(_) => -1000
    case Complete(h, _, _, _, _, _) => h.id
  }

  function ReadHeader(rest: seq<bool>): (Header, seq<bool>) {
    var (profile, r1) := Read(rest, 8);
    var (set0, r2) := Read(r1, 1);
    var (set1, r3) := Read(r2, 1);
    var (set2, r4) := Read(r3, 1);
    var (_, r5) := Read(r4, 5);
    var (level, r6) := Read(r5, 8);
    var (id, r7) := ReadUe(r6);
    (Header(profile, level, set0, set1, set2, id), r7)
  }

  /** The block for profile_idc >= 100 behind its chroma format; bit depths and bypass are dropped. */
  function ReadHigh(rest: seq<bool>, chroma: int): (High, seq<bool>) {
    var r0 := if chroma == 3 then Read(rest, 1).1 else rest;
    var (_, r1) := ReadUe(r0);
    var (_, r2) := ReadUe(r1);
    var (_, r3) := Read(r2, 1);
    var (present, r4) := Read(r3, 1);
    if present == 0 then (High(chroma, None), r4)
    else
      var (m, r5) := ReadMatrices(r4, chroma == 3);
      (High(chroma, Some(m)), r5)
  }

  function ReadSes(rest: seq<bool>, n: int): (r: (seq<int>, seq<bool>))
    ensures |r.0| == if n > 0 then n else 0
    decreases n
  {
    if n <= 0 then ([], rest)
    else
      var (v, r1) := ReadSe(rest);
      var (vs, r2) := ReadSes(r1, n - 1);
      ([v] + vs, r2)
  }

  function ReadPoc(rest: seq<bool>, pocType: int): (Poc, seq<bool>) {
    if pocType == 0 then
      var (lsb, r1) := ReadUe(rest);
      (Poc0(lsb + 4), r1)
    else if pocType == 1 then
      var (zero, r1) := Read(rest, 1);
      var (nonRef, r2) := ReadSe(r1);
      var (topToBottom, r3) := ReadSe(r2);
      var (count, r4) := ReadUe(r3);
      var n := if count > 256 then 256 else count;
      var (offsets, r5) := ReadSes(r4, n);
      (Poc1(zero, nonRef, topToBottom, n, offsets), r5)
    else (PocOther, rest)
  }

  function ReadCrop(rest: seq<bool>): (Crop, seq<bool>) {
    var (left, r1) := ReadUe(rest);
    var (right, r2) := ReadUe(r1);
    var (top, r3) := ReadUe(r2);
    var (bottom, r4) := ReadUe(r3);
    (Crop(left, right, top, bottom), r4)
  }

  function ReadSize(rest: seq<bool>): ((int, int, int, int), seq<bool>) {
    var (numRef, r1) := ReadUe(rest);
    var (gaps, r2) := Read(r1, 1);
    var (width, r3) := ReadUe(r2);
    var (height, r4) := ReadUe(r3);
    ((numRef, gaps, width + 1, height + 1), r4)
  }

  function ReadFlags(rest: seq<bool>): ((int, int, int, int), seq<bool>) {
    var (frameOnly, r1) := Read(rest, 1);
    var (adaptive, r2) := if frameOnly == 0 then Read(r1, 1) else (0, r1);
    var (direct, r3) := Read(r2, 1);
    var (cropped, r4) := Read(r3, 1);
    ((frameOnly, adaptive, direct, cropped), r4)
  }

  function ReadPicture(rest: seq<bool>): (Picture, seq<bool>) {
    var (size, r1) := ReadSize(rest);
    var (flags, r2) := ReadFlags(r1);
    var (crop, r3) := if flags.3 != 0 then ReadCrop(r2) else (Crop(0, 0, 0, 0), r2);
    var (vui, r4) := Read(r3, 1);
    (Picture(size.0, size.1, size.2, size.3, flags.0, flags.1, flags.2, flags.3, crop, vui), r4)
  }

  // ----- video usability information: only where the cursor ends up ----------

  /** Behind the aspect ratio; false when decoding stops there. */
  function VuiAspect(rest: seq<bool>): (bool, seq<bool>) {
    var (present, r1) := Read(rest, 1);
    if present == 0 then (true, r1)
    else
      var (idc, r2) := Read(r1, 8);
      if idc == 255 then (true, Read(Read(r2, 16).1, 16).1) else (idc < 17, r2)
  }

  function VuiSignal(rest: seq<bool>): seq<bool> {
    var (overscan, r1) := Read(rest, 1);
    var r2 := if overscan != 0 then Read(r1, 1).1 else r1;
    var (signal, r3) := Read(r2, 1);
    if signal == 0 then r3
    else
      var (colour, r4) := Read(Read(Read(r3, 3).1, 1).1, 1);
      if colour == 0 then r4 else Read(Read(Read(r4, 8).1, 8).1, 8).1
  }

  /** Chroma location and timing; false when decoding stops there. */
  function VuiTiming(rest: seq<bool>): (bool, seq<bool>) {
    var (location, r1) := Read(rest, 1);
    var r2 := if location != 0 then ReadUe(ReadUe(r1).1).1 else r1;
    var (timing, r3) := Read(r2, 1);
    if timing == 0 then (true, r3)
    else
      var (units, r4) := Read(r3, 32);
      var (scale, r5) := Read(r4, 32);
      if units == 0 || scale == 0 then (false, r5) else (true, Read(r5, 1).1)
  }

  function VuiRestriction(rest: seq<bool>): seq<bool> {
    var (nalHrd, r1) := Read(rest, 1);
    var (vclHrd, r2) := Read(r1, 1);
    var r3 := if nalHrd != 0 || vclHrd != 0 then Read(r2, 1).1 else r2;
    var (_, r4) := Read(r3, 1);
    if r4 == [] then []
    else
      var (restricted, r5) := Read(r4, 1);
      if restricted == 0 then r5
      else ReadUe(ReadUe(ReadUe(ReadUe(ReadUe(ReadUe(Read(r5, 1).1).1).1).1).1).1).1
  }

  function VuiRest(rest: seq<bool>): seq<bool> {
    var (go1, r1) := VuiAspect(rest);
    if !go1 then r1
    else
      var (go2, r2) := VuiTiming(VuiSignal(r1));
      if !go2 then r2 else VuiRestriction(r2)
  }

  // ----- the whole set -------------------------------------------------------

  /** From the frame number on. */
  function ReadBody(rest: seq<bool>, h: Header, high: Option<High>): Outcome {
    var (frameNum, r1) := ReadUe(rest);
    var (pocType, r2) := ReadUe(r1);
    if pocType > 2 then BadPocType(h)
    else
      var (poc, r3) := ReadPoc(r2, pocType);
      var (picture, r4) := ReadPicture(r3);
      var r5 := if picture.vui != 0 then VuiRest(r4) else r4;
      if r5 == [] then Incomplete(h)
      else Complete(h, high, frameNum + 4, pocType, poc, picture)
  }

  function ReadAfterHeader(rest: seq<bool>, h: Header): Outcome {
    if h.profile >= 100 then
      var (chroma, r1) := ReadUe(rest);
      if chroma >= 32 then BadChroma(h)
      else
        var (high, r2) := ReadHigh(r1, chroma);
        ReadBody(r2, h, Some(high))
    else ReadBody(rest, h, None)
  }

  function ParseSps(rest: seq<bool>): Outcome {
    var (h, r1) := ReadHeader(rest);
    if r1 == [] || h.id >= 32 then BadId else ReadAfterHeader(r1, h)
  }

  lemma BodyKeeps(rest: seq<bool>, h: Header, high: Option<High>)
    ensures var o := ReadBody(rest, h, high);
      && !o.BadId? && !o.BadChroma? && o.header == h
      && (o.Complete? ==> o.high == high)
  {
    hide ReadUe, ReadPoc, ReadPicture, VuiRest;
  }
}

/**
 * The syntax table of section 7.3.2.1.1 of H.264, as bits, and the proof that the parser
 * inverts it. `tail` is whatever follows: the RBSP trailing bits.
 */
module SpsLayout {
  import opened Bits
  import opened BitReading
  import opened Golomb
  import opened Scaling
  import opened SpsSyntax
  import opened StandardScaling
  import opened Wrappers

  /** What the table has for the high profiles; without lists the scaling matrix flag is 0. */
  datatype HighSyntax = HighSyntax(
    chroma: nat, separate: bool, depthLuma: nat, depthChroma: nat, bypass: bool, lists: Option<seq<Coded>>)

  /** The VUI of Annex E without HRD parameters. */
  datatype Vui = Vui(
    aspect: Option<Aspect>, overscan: Option<bool>, signal: Option<Signal>, location: Option<(nat, nat)>,
    timing: Option<Timing>, pictureStructure: bool, restriction: Option<(bool, seq<nat>)>)

  datatype Aspect = Listed(idc: nat) | Extended(width: nat, height: nat)

  datatype Signal = Signal(format: nat, fullRange: bool, colour: Option<(nat, nat, nat)>)

  datatype Timing = Timing(units: nat, scale: nat, fixedRate: bool)

  datatype Sps = Sps(
    header: Header, reserved: nat, high: Option<HighSyntax>,
    log2MaxFrameNum: int, pocType: int, poc: Poc, picture: Picture, vui: Option<Vui>)

  predicate IsBit(v: int) {
    0 <= v <= 1
  }

  predicate HeaderInRange(h: Header) {
    && 0 <= h.profile < 256 && 0 <= h.level < 256
    && IsBit(h.set0) && IsBit(h.set1) && IsBit(h.set2)
    && 0 <= h.id < 32
  }

  predicate PocInRange(pocType: int, poc: Poc) {
    match poc
    case Poc0(lsb) => pocType == 0 && IsUe(lsb - 4)
    case Poc1(zero, nonRef, topToBottom, count, offsets) =>
      && pocType == 1 && IsBit(zero) && IsSe(nonRef) && IsSe(topToBottom)
      && count == |offsets| <= 256
      && forall i :: 0 <= i < |offsets| ==> IsSe(offsets[i])
    case PocOther => pocType == 2
  }

  predicate PictureInRange(p: Picture) {
    && IsUe(p.numRef) && IsBit(p.gaps) && IsUe(p.width - 1) && IsUe(p.height - 1)
    && IsBit(p.frameOnly) && IsBit(p.adaptive) && IsBit(p.direct)
    && (p.frameOnly == 1 ==> p.adaptive == 0)
    && IsBit(p.cropped)
    && IsUe(p.crop.left) && IsUe(p.crop.right) && IsUe(p.crop.top) && IsUe(p.crop.bottom)
    && (p.cropped == 0 ==> p.crop == Crop(0, 0, 0, 0))
    && IsBit(p.vui)
  }

  predicate VuiInRange(v: Vui) {
    && (v.aspect.Some? ==> match v.aspect.value
                           case Listed(idc) => idc < 17
                           case Extended(width, height) => width < 0x1_0000 && height < 0x1_0000)
    && (v.signal.Some? ==>
          && v.signal.value.format < 8
          && (v.signal.value.colour.Some? ==>
                var (primaries, transfer, matrix) := v.signal.value.colour.value;
                primaries < 256 && transfer < 256 && matrix < 256))
    && (v.location.Some? ==> IsUe(v.location.value.0) && IsUe(v.location.value.1))
    && (v.timing.Some? ==> 0 < v.timing.value.units < 0x1_0000_0000 && 0 < v.timing.value.scale < 0x1_0000_0000)
    && (v.restriction.Some? ==> |v.restriction.value.1| == 6 && AllUe(v.restriction.value.1))
  }

  predicate AllUe(s: seq<nat>) {
    forall i :: 0 <= i < |s| ==> IsUe(s[i])
  }

  predicate HighInRange(x: HighSyntax) {
    && IsUe(x.depthLuma) && IsUe(x.depthChroma) && x.chroma < 32
    && (x.lists.Some? ==> MatricesFit(x.lists.value) && (x.chroma == 3 <==> |x.lists.value| == 12))
  }

  /** The lists that come out as they are meant: only steps of 0 and 1, and for 4:4:4 in place. */
  predicate Readable(x: HighSyntax)
    requires HighInRange(x)
  {
    x.lists.Some? ==> AllSteps(x.lists.value) && (x.chroma == 3 ==> InPlace(x.lists.value))
  }

  /** The values the table can carry. */
  predicate InRange(v: Sps) {
    && HeaderInRange(v.header) && v.reserved < 32 && (v.high.Some? ==> HighInRange(v.high.value))
    && IsUe(v.log2MaxFrameNum - 4) && 0 <= v.pocType <= 2
    && PocInRange(v.pocType, v.poc) && PictureInRange(v.picture)
    && (v.vui.Some? <==> v.picture.vui == 1) && (v.vui.Some? ==> VuiInRange(v.vui.value))
  }

  function Bit(v: int): seq<bool> {
    [v == 1]
  }

  function HeaderBits(h: Header, reserved: nat, tail: seq<bool>): seq<bool>
    requires HeaderInRange(h)
  {
    ToBits(h.profile, 8) + (Bit(h.set0) + (Bit(h.set1) + (Bit(h.set2) +
    (ToBits(reserved, 5) + (ToBits(h.level, 8) + (UeOf(h.id) + tail))))))
  }

  function MatrixBits(lists: Option<seq<Coded>>, tail: seq<bool>): seq<bool> {
    match lists case None => [false] + tail case Some(ls) => [true] + ListsBits(ls, tail)
  }

  function HighBits(x: HighSyntax, tail: seq<bool>): seq<bool> {
    var rest := UeOf(x.depthLuma) + (UeOf(x.depthChroma) + ([x.bypass] + MatrixBits(x.lists, tail)));
    UeOf(x.chroma) + (if x.chroma == 3 then [x.separate] + rest else rest)
  }

  function PocBits(poc: Poc, tail: seq<bool>): seq<bool> {
    match poc
    case Poc0(lsb) => UeOf(lsb - 4) + tail
    case Poc1(zero, nonRef, topToBottom, count, offsets) =>
      Bit(zero) + (SeOf(nonRef) + (SeOf(topToBottom) + (UeOf(count) + SesBits(offsets, tail))))
    case PocOther => tail
  }

  function CropBits(c: Crop, tail: seq<bool>): seq<bool> {
    UeOf(c.left) + (UeOf(c.right) + (UeOf(c.top) + (UeOf(c.bottom) + tail)))
  }

  function SizeBits(p: Picture, tail: seq<bool>): seq<bool> {
    UeOf(p.numRef) + (Bit(p.gaps) + (UeOf(p.width - 1) + (UeOf(p.height - 1) + tail)))
  }

  function FlagBits(p: Picture, tail: seq<bool>): seq<bool> {
    var rest := Bit(p.direct) + (Bit(p.cropped) + tail);
    Bit(p.frameOnly) + (if p.frameOnly == 0 then Bit(p.adaptive) + rest else rest)
  }

  function PictureBits(p: Picture, tail: seq<bool>): seq<bool> {
    var last := Bit(p.vui) + tail;
    SizeBits(p, FlagBits(p, if p.cropped == 1 then CropBits(p.crop, last) else last))
  }

  function AspectBits(a: Option<Aspect>, tail: seq<bool>): seq<bool> {
    match a
    case None => [false] + tail
    case Some(Listed(idc)) => [true] + (ToBits(idc, 8) + tail)
    case Some(Extended(width, height)) => [true] + (ToBits(255, 8) + (ToBits(width, 16) + (ToBits(height, 16) + tail)))
  }

  function OverscanBits(o: Option<bool>, tail: seq<bool>): seq<bool> {
    match o case None => [false] + tail case Some(b) => [true] + ([b] + tail)
  }

  function ColourBits(c: Option<(nat, nat, nat)>, tail: seq<bool>): seq<bool> {
    match c
    case None => [false] + tail
    case Some((primaries, transfer, matrix)) =>
      [true] + (ToBits(primaries, 8) + (ToBits(transfer, 8) + (ToBits(matrix, 8) + tail)))
  }

  function SignalBits(s: Option<Signal>, tail: seq<bool>): seq<bool> {
    match s
    case None => [false] + tail
    case Some(Signal(format, fullRange, colour)) => [true] + (ToBits(format, 3) + ([fullRange] + ColourBits(colour, tail)))
  }

  function LocationBits(l: Option<(nat, nat)>, tail: seq<bool>): seq<bool> {
    match l case None => [false] + tail case Some((top, bottom)) => [true] + (UeOf(top) + (UeOf(bottom) + tail))
  }

  function TimingBits(t: Option<Timing>, tail: seq<bool>): seq<bool> {
    match t
    case None => [false] + tail
    case Some(Timing(units, scale, fixedRate)) => [true] + (ToBits(units, 32) + (ToBits(scale, 32) + ([fixedRate] + tail)))
  }

  function UesBits(s: seq<nat>, tail: seq<bool>): seq<bool> {
    if s == [] then tail else UeOf(s[0]) + UesBits(s[1..], tail)
  }

  function RestrictionBits(r: Option<(bool, seq<nat>)>, tail: seq<bool>): seq<bool> {
    match r case None => [false] + tail case Some((over, numbers)) => [true] + ([over] + UesBits(numbers, tail))
  }

  /** vui_parameters of section E.1.1 with both HRD flags 0. */
  function VuiBits(v: Vui, tail: seq<bool>): seq<bool> {
    AspectBits(v.aspect, OverscanBits(v.overscan, SignalBits(v.signal, LocationBits(v.location, TimingBits(v.timing,
    [false] + ([false] + ([v.pictureStructure] + RestrictionBits(v.restriction, tail))))))))
  }

  /** What follows the picture fields. */
  function AfterPicture(v: Sps, tail: seq<bool>): seq<bool> {
    match v.vui case None => tail case Some(vui) => VuiBits(vui, tail)
  }

  function BodyBits(v: Sps, tail: seq<bool>): seq<bool> {
    UeOf(v.log2MaxFrameNum - 4) + (UeOf(v.pocType) + PocBits(v.poc, PictureBits(v.picture, AfterPicture(v, tail))))
  }

  /** The whole table. */
  function SpsBits(v: Sps, tail: seq<bool>): seq<bool>
    requires InRange(v)
  {
    var body := BodyBits(v, tail);
    HeaderBits(v.header, v.reserved, match v.high case None => body case Some(x) => HighBits(x, body))
  }

  // ----- the inverse, block by block -----------------------------------------

  lemma ReadBit(v: int, tail: seq<bool>)
    requires IsBit(v)
    ensures Read(Bit(v) + tail, 1) == (v, tail)
  {
    ReadOne(Bit(v) + tail);
    assert (Bit(v) + tail)[1..] == tail;
  }

  lemma ReadByteOf(v: int, tail: seq<bool>)
    requires 0 <= v < 256
    ensures Read(ToBits(v, 8) + tail, 8) == (v, tail)
  {
    assert Pow2(8) == 256;
    ReadInverse(v, 8, tail);
  }

  lemma ReadReserved(v: nat, tail: seq<bool>)
    requires v < 32
    ensures Read(ToBits(v, 5) + tail, 5).1 == tail
  {
    assert Pow2(5) == 32;
    ReadInverse(v, 5, tail);
  }

  lemma HeaderInverse(h: Header, reserved: nat, tail: seq<bool>)
    requires HeaderInRange(h) && reserved < 32
    ensures ReadHeader(HeaderBits(h, reserved, tail)) == (h, tail)
  {
    hide Read, ReadUe, ToBits, Bit, UeOf;
    var t6 := UeOf(h.id) + tail;
    var t5 := ToBits(h.level, 8) + t6;
    var t4 := ToBits(reserved, 5) + t5;
    var t3 := Bit(h.set2) + t4;
    var t2 := Bit(h.set1) + t3;
    var t1 := Bit(h.set0) + t2;
    ReadByteOf(h.profile, t1);
    ReadBit(h.set0, t2);
    ReadBit(h.set1, t3);
    ReadBit(h.set2, t4);
    ReadReserved(reserved, t5);
    ReadByteOf(h.level, t6);
    ReadUeOf(h.id, tail);
  }

  /** What the block says, with the matrices as the standard means them. */
  function MeantHigh(x: HighSyntax): High
    requires HighInRange(x)
  {
    High(x.chroma, match x.lists case None => None case Some(ls) => Some(MatricesOf(ls)))
  }

  lemma HighFirst(x: HighSyntax, tail: seq<bool>)
    requires HighInRange(x)
    ensures ReadUe(HighBits(x, tail)).0 == x.chroma
  {
    hide ReadUe, UeOf, MatrixBits;
    var t0 := UeOf(x.depthLuma) + (UeOf(x.depthChroma) + ([x.bypass] + MatrixBits(x.lists, tail)));
    ReadUeOf(x.chroma, if x.chroma == 3 then [x.separate] + t0 else t0);
  }

  /** The fields in front of the lists read back. */
  lemma HighReads(x: HighSyntax, tail: seq<bool>)
    requires HighInRange(x)
    ensures ReadHigh(ReadUe(HighBits(x, tail)).1, x.chroma) ==
      match x.lists
      case None => (High(x.chroma, None), tail)
      case Some(ls) =>
        var (m, r) := ReadMatrices(ListsBits(ls, tail), x.chroma == 3);
        (High(x.chroma, Some(m)), r)
  {
    hide Read, ReadUe, UeOf, ReadMatrices, ListsBits, MatricesFit;
    var bypass := if x.bypass then 1 else 0;
    assert Bit(bypass) == [x.bypass];
    var t3 := MatrixBits(x.lists, tail);
    var t2 := [x.bypass] + t3;
    var t1 := UeOf(x.depthChroma) + t2;
    var t0 := UeOf(x.depthLuma) + t1;
    ReadUeOf(x.chroma, if x.chroma == 3 then [x.separate] + t0 else t0);
    if x.chroma == 3 {
      ReadFlag(x.separate, t0);
    }
    ReadUeOf(x.depthLuma, t1);
    ReadUeOf(x.depthChroma, t2);
    ReadBit(bypass, t3);
    match x.lists
    case None => ReadFlag(false, tail);
    case Some(ls) => ReadFlag(true, ListsBits(ls, tail));
  }

  /** Readable lists come back, and the block is consumed. */
  lemma HighInverse(x: HighSyntax, tail: seq<bool>)
    requires HighInRange(x) && Readable(x)
    ensures ReadUe(HighBits(x, tail)).0 == x.chroma
    ensures ReadHigh(ReadUe(HighBits(x, tail)).1, x.chroma) == (MeantHigh(x), tail)
  {
    hide ReadUe, ReadHigh, HighBits, ReadMatrices, ListsBits, MatricesOf, MatricesFit, InPlace, Steps;
    HighFirst(x, tail);
    HighReads(x, tail);
    if x.lists.Some? {
      ListsRead(x.lists.value, tail);
    }
  }

  lemma ListsRead(lists: seq<Coded>, tail: seq<bool>)
    requires MatricesFit(lists) && (|lists| == 12 ==> AllSteps(lists[7..]))
    ensures var (m, r) := ReadMatrices(ListsBits(lists, tail), |lists| == 12);
      && (m == MatricesOf(lists) <==> AllSteps(lists) && (|lists| == 12 ==> InPlace(lists)))
      && (m == MatricesOf(lists) ==> r == tail)
  {
    hide ReadMatrices, ListsBits, MatricesOf, InPlace, Steps;
    if |lists| == 8 {
      MatricesAreStandardExactly(lists, tail);
    } else {
      assert lists[..7] + lists[7..] == lists;
      StepsSplit(lists[..7], lists[7..]);
      MatricesOf444Exactly(lists, tail);
    }
  }

  /** Other lists do not. */
  lemma UnreadableHigh(x: HighSyntax, tail: seq<bool>)
    requires HighInRange(x) && !Readable(x)
    requires x.chroma == 3 && x.lists.Some? ==> AllSteps(x.lists.value[7..])
    ensures ReadHigh(ReadUe(HighBits(x, tail)).1, x.chroma).0 != MeantHigh(x)
  {
    hide ReadUe, ReadHigh, HighBits, ReadMatrices, ListsBits, MatricesOf, InPlace, Steps;
    HighReads(x, tail);
    ListsRead(x.lists.value, tail);
  }

  lemma {:induction false} SesInverse(s: seq<int>, tail: seq<bool>)
    requires forall i :: 0 <= i < |s| ==> IsSe(s[i])
    ensures ReadSes(SesBits(s, tail), |s|) == (s, tail)
    decreases |s|
  {
    hide ReadSe, SeOf;
    if s != [] {
      ReadSeOf(s[0], SesBits(s[1..], tail));
      SesInverse(s[1..], tail);
      assert s == [s[0]] + s[1..];
    }
  }

  lemma PocInverse(pocType: int, poc: Poc, tail: seq<bool>)
    requires PocInRange(pocType, poc)
    ensures ReadPoc(PocBits(poc, tail), pocType) == (poc, tail)
  {
    hide Read, ReadUe, ReadSe, UeOf, SeOf, Bit, ReadSes, SesBits;
    match poc
    case Poc0(lsb) => ReadUeOf(lsb - 4, tail);
    case Poc1(zero, nonRef, topToBottom, count, offsets) =>
      var t3 := SesBits(offsets, tail);
      var t2 := UeOf(count) + t3;
      var t1 := SeOf(topToBottom) + t2;
      ReadBit(zero, SeOf(nonRef) + t1);
      ReadSeOf(nonRef, t1);
      ReadSeOf(topToBottom, t2);
      ReadUeOf(count, t3);
      SesInverse(offsets, tail);
    case PocOther =>
  }

  lemma SizeInverse(p: Picture, tail: seq<bool>)
    requires PictureInRange(p)
    ensures ReadSize(SizeBits(p, tail)) == ((p.numRef, p.gaps, p.width, p.height), tail)
  {
    hide Read, ReadUe, UeOf, Bit;
    var t2 := UeOf(p.height - 1) + tail;
    var t1 := UeOf(p.width - 1) + t2;
    ReadUeOf(p.numRef, Bit(p.gaps) + t1);
    ReadBit(p.gaps, t1);
    ReadUeOf(p.width - 1, t2);
    ReadUeOf(p.height - 1, tail);
  }

  lemma FlagsInverse(p: Picture, tail: seq<bool>)
    requires PictureInRange(p)
    ensures ReadFlags(FlagBits(p, tail)) == ((p.frameOnly, p.adaptive, p.direct, p.cropped), tail)
  {
    hide Read, Bit;
    var t1 := Bit(p.cropped) + tail;
    var t0 := Bit(p.direct) + t1;
    ReadBit(p.frameOnly, if p.frameOnly == 0 then Bit(p.adaptive) + t0 else t0);
    if p.frameOnly == 0 {
      ReadBit(p.adaptive, t0);
    }
    ReadBit(p.direct, t1);
    ReadBit(p.cropped, tail);
  }

  lemma CropInverse(c: Crop, tail: seq<bool>)
    requires IsUe(c.left) && IsUe(c.right) && IsUe(c.top) && IsUe(c.bottom)
    ensures ReadCrop(CropBits(c, tail)) == (c, tail)
  {
    hide ReadUe, UeOf;
    var t2 := UeOf(c.bottom) + tail;
    var t1 := UeOf(c.top) + t2;
    var t0 := UeOf(c.right) + t1;
    ReadUeOf(c.left, t0);
    ReadUeOf(c.right, t1);
    ReadUeOf(c.top, t2);
    ReadUeOf(c.bottom, tail);
  }

  lemma PictureInverse(p: Picture, tail: seq<bool>)
    requires PictureInRange(p)
    ensures ReadPicture(PictureBits(p, tail)) == (p, tail)
  {
    hide Read, ReadSize, ReadFlags, ReadCrop, SizeBits, FlagBits, CropBits, Bit;
    var last := Bit(p.vui) + tail;
    var t1 := if p.cropped == 1 then CropBits(p.crop, last) else last;
    SizeInverse(p, FlagBits(p, t1));
    FlagsInverse(p, t1);
    CropInverse(p.crop, last);
    ReadBit(p.vui, tail);
  }

  lemma ReadFlag(b: bool, tail: seq<bool>)
    ensures Read([b] + tail, 1) == (if b then 1 else 0, tail)
  {
    ReadBit(if b then 1 else 0, tail);
    assert Bit(if b then 1 else 0) == [b];
  }

  lemma ReadField(v: nat, n: nat, tail: seq<bool>)
    requires (n == 3 && v < 8) || (n == 8 && v < 256) || (n == 16 && v < 0x1_0000) || (n == 32 && v < 0x1_0000_0000)
    ensures Read(ToBits(v, n) + tail, n) == (v, tail)
  {
    assert Pow2(3) == 8 && Pow2(8) == 256;
    Pow2At31();
    ReadInverse(v, n, tail);
  }

  lemma AspectInverse(a: Option<Aspect>, tail: seq<bool>)
    requires a.Some? ==> match a.value
                         case Listed(idc) => idc < 17
                         case Extended(width, height) => width < 0x1_0000 && height < 0x1_0000
    ensures VuiAspect(AspectBits(a, tail)) == (true, tail)
  {
    hide Read, ToBits;
    match a
    case None => ReadFlag(false, tail);
    case Some(Listed(idc)) =>
      ReadFlag(true, ToBits(idc, 8) + tail);
      ReadField(idc, 8, tail);
    case Some(Extended(width, height)) =>
      var t1 := ToBits(height, 16) + tail;
      ReadFlag(true, ToBits(255, 8) + (ToBits(width, 16) + t1));
      ReadField(255, 8, ToBits(width, 16) + t1);
      ReadField(width, 16, t1);
      ReadField(height, 16, tail);
  }

  lemma ColourInverse(c: Option<(nat, nat, nat)>, tail: seq<bool>)
    requires c.Some? ==> c.value.0 < 256 && c.value.1 < 256 && c.value.2 < 256
    ensures var (present, r) := Read(ColourBits(c, tail), 1);
      (if present == 0 then r else Read(Read(Read(r, 8).1, 8).1, 8).1) == tail
  {
    hide Read, ToBits;
    match c
    case None => ReadFlag(false, tail);
    case Some((primaries, transfer, matrix)) =>
      var t1 := ToBits(matrix, 8) + tail;
      ReadFlag(true, ToBits(primaries, 8) + (ToBits(transfer, 8) + t1));
      ReadField(primaries, 8, ToBits(transfer, 8) + t1);
      ReadField(transfer, 8, t1);
      ReadField(matrix, 8, tail);
  }

  lemma SignalInverse(o: Option<bool>, s: Option<Signal>, tail: seq<bool>)
    requires s.Some? ==>
      s.value.format < 8 && (s.value.colour.Some? ==>
        s.value.colour.value.0 < 256 && s.value.colour.value.1 < 256 && s.value.colour.value.2 < 256)
    ensures VuiSignal(OverscanBits(o, SignalBits(s, tail))) == tail
  {
    hide Read, ToBits, ColourBits;
    var t0 := SignalBits(s, tail);
    match o {
      case None => ReadFlag(false, t0);
      case Some(b) =>
        ReadFlag(true, [b] + t0);
        ReadFlag(b, t0);
    }
    match s
    case None => ReadFlag(false, tail);
    case Some(Signal(format, fullRange, colour)) =>
      var t1 := ColourBits(colour, tail);
      ReadFlag(true, ToBits(format, 3) + ([fullRange] + t1));
      ReadField(format, 3, [fullRange] + t1);
      ReadFlag(fullRange, t1);
      ColourInverse(colour, tail);
  }

  lemma TimingInverse(l: Option<(nat, nat)>, t: Option<Timing>, tail: seq<bool>)
    requires l.Some? ==> IsUe(l.value.0) && IsUe(l.value.1)
    requires t.Some? ==> 0 < t.value.units < 0x1_0000_0000 && 0 < t.value.scale < 0x1_0000_0000
    ensures VuiTiming(LocationBits(l, TimingBits(t, tail))) == (true, tail)
  {
    hide Read, ReadUe, ToBits, UeOf;
    var t0 := TimingBits(t, tail);
    match l {
      case None => ReadFlag(false, t0);
      case Some((top, bottom)) =>
        ReadFlag(true, UeOf(top) + (UeOf(bottom) + t0));
        ReadUeOf(top, UeOf(bottom) + t0);
        ReadUeOf(bottom, t0);
    }
    match t
    case None => ReadFlag(false, tail);
    case Some(Timing(units, scale, fixedRate)) =>
      var t1 := ToBits(scale, 32) + ([fixedRate] + tail);
      ReadFlag(true, ToBits(units, 32) + t1);
      ReadField(units, 32, t1);
      ReadField(scale, 32, [fixedRate] + tail);
      ReadFlag(fixedRate, tail);
  }

  function SkipUes(rest: seq<bool>, n: nat): seq<bool>
    decreases n
  {
    if n == 0 then rest else SkipUes(ReadUe(rest).1, n - 1)
  }

  lemma {:induction false} UesInverse(s: seq<nat>, tail: seq<bool>)
    requires AllUe(s)
    ensures SkipUes(UesBits(s, tail), |s|) == tail
    decreases |s|
  {
    hide ReadUe, UeOf;
    if s == [] {
    } else {
      ReadUeOf(s[0], UesBits(s[1..], tail));
      UesInverse(s[1..], tail);
    }
  }

  lemma SkipSix(rest: seq<bool>)
    ensures SkipUes(rest, 6) == ReadUe(ReadUe(ReadUe(ReadUe(ReadUe(ReadUe(rest).1).1).1).1).1).1
  {
    hide ReadUe;
    var r2 := ReadUe(ReadUe(rest).1).1;
    var r4 := ReadUe(ReadUe(r2).1).1;
    assert SkipUes(rest, 6) == SkipUes(r2, 4);
    assert SkipUes(r2, 4) == SkipUes(r4, 2);
    assert SkipUes(r4, 2) == ReadUe(ReadUe(r4).1).1;
  }

  lemma RestrictionInverse(structure: bool, r: Option<(bool, seq<nat>)>, tail: seq<bool>)
    requires r.Some? ==> |r.value.1| == 6 && AllUe(r.value.1)
    ensures VuiRestriction([false] + ([false] + ([structure] + RestrictionBits(r, tail)))) == tail
  {
    hide Read, ReadUe, UeOf, UesBits, SkipUes;
    var t0 := RestrictionBits(r, tail);
    ReadFlag(false, [false] + ([structure] + t0));
    ReadFlag(false, [structure] + t0);
    ReadFlag(structure, t0);
    assert t0 != [];
    match r
    case None => ReadFlag(false, tail);
    case Some((over, numbers)) =>
      ReadFlag(true, [over] + UesBits(numbers, tail));
      ReadFlag(over, UesBits(numbers, tail));
      UesInverse(numbers, tail);
      SkipSix(UesBits(numbers, tail));
  }

  /** A reserved aspect ratio ends the VUI behind it. */
  lemma ReservedAspectEnds(idc: nat, tail: seq<bool>)
    requires 17 <= idc < 255
    ensures VuiRest([true] + (ToBits(idc, 8) + tail)) == tail
  {
    hide Read, ToBits, VuiSignal, VuiTiming, VuiRestriction;
    ReadFlag(true, ToBits(idc, 8) + tail);
    ReadField(idc, 8, tail);
  }

  /** So does a timing with no units or no time scale. */
  lemma NoTimingEnds(a: Option<Aspect>, o: Option<bool>, s: Option<Signal>, l: Option<(nat, nat)>, units: nat, scale: nat,
                     tail: seq<bool>)
    requires VuiInRange(Vui(a, o, s, l, None, false, None))
    requires units < 0x1_0000_0000 && scale < 0x1_0000_0000 && (units == 0 || scale == 0)
    ensures var timing := [true] + (ToBits(units, 32) + (ToBits(scale, 32) + tail));
      VuiRest(AspectBits(a, OverscanBits(o, SignalBits(s, LocationBits(l, timing))))) == tail
  {
    hide Read, ReadUe, ToBits, UeOf, VuiAspect, VuiSignal, VuiRestriction, AspectBits, OverscanBits, SignalBits;
    var t1 := ToBits(scale, 32) + tail;
    var t0 := [true] + (ToBits(units, 32) + t1);
    AspectInverse(a, OverscanBits(o, SignalBits(s, LocationBits(l, t0))));
    SignalInverse(o, s, LocationBits(l, t0));
    match l {
      case None => ReadFlag(false, t0);
      case Some((top, bottom)) =>
        ReadFlag(true, UeOf(top) + (UeOf(bottom) + t0));
        ReadUeOf(top, UeOf(bottom) + t0);
        ReadUeOf(bottom, t0);
    }
    ReadFlag(true, ToBits(units, 32) + t1);
    ReadField(units, 32, t1);
    ReadField(scale, 32, tail);
  }

  /** The VUI parser consumes exactly the VUI of Annex E, as long as there are no HRD parameters. */
  lemma VuiInverse(v: Vui, tail: seq<bool>)
    requires VuiInRange(v)
    ensures VuiRest(VuiBits(v, tail)) == tail
  {
    hide VuiAspect, VuiSignal, VuiTiming, VuiRestriction, AspectBits, OverscanBits, SignalBits, LocationBits, TimingBits,
      RestrictionBits;
    var t3 := [false] + ([false] + ([v.pictureStructure] + RestrictionBits(v.restriction, tail)));
    var t2 := LocationBits(v.location, TimingBits(v.timing, t3));
    AspectInverse(v.aspect, OverscanBits(v.overscan, SignalBits(v.signal, t2)));
    SignalInverse(v.overscan, v.signal, t2);
    TimingInverse(v.location, v.timing, t3);
    RestrictionInverse(v.pictureStructure, v.restriction, tail);
  }

  lemma BodyInverse(v: Sps, high: Option<High>, tail: seq<bool>)
    requires InRange(v) && tail != []
    ensures ReadBody(BodyBits(v, tail), v.header, high)
         == Complete(v.header, high, v.log2MaxFrameNum, v.pocType, v.poc, v.picture)
  {
    hide ReadUe, UeOf, ReadPoc, PocBits, ReadPicture, PictureBits, VuiRest, VuiBits, VuiInRange;
    var t3 := AfterPicture(v, tail);
    var t2 := PictureBits(v.picture, t3);
    var t1 := PocBits(v.poc, t2);
    ReadUeOf(v.log2MaxFrameNum - 4, UeOf(v.pocType) + t1);
    ReadUeOf(v.pocType, t1);
    PocInverse(v.pocType, v.poc, t2);
    PictureInverse(v.picture, t3);
    if v.vui.Some? {
      VuiInverse(v.vui.value, tail);
    }
  }

  function HighOf(v: Sps): Option<High>
    requires v.high.Some? ==> HighInRange(v.high.value)
  {
    match v.high case None => None case Some(x) => Some(MeantHigh(x))
  }

  /**
   * Parsing inverts the table: every field comes back, whatever the trailing bits are. The
   * parser takes the high profiles to be those from 100 on, so the table must agree with that, and
   * it reads scaling lists in another code and order than the table has them.
   */
  lemma SpsInverse(v: Sps, tail: seq<bool>)
    requires InRange(v) && tail != []
    requires v.high.Some? <==> v.header.profile >= 100
    requires v.high.Some? ==> Readable(v.high.value)
    ensures ParseSps(SpsBits(v, tail))
         == Complete(v.header, HighOf(v), v.log2MaxFrameNum, v.pocType, v.poc, v.picture)
    ensures ReturnCode(ParseSps(SpsBits(v, tail))) == v.header.id
  {
    hide ReadHeader, HeaderBits, ReadUe, ReadHigh, HighBits, ReadBody, BodyBits;
    var body := BodyBits(v, tail);
    BodyInverse(v, HighOf(v), tail);
    match v.high
    case None =>
      HeaderInverse(v.header, v.reserved, body);
      BodyNonEmpty(v, tail);
    case Some(x) =>
      HeaderInverse(v.header, v.reserved, HighBits(x, body));
      HighInverse(x, body);
      HighNonEmpty(x, body);
  }

  /**
   * The parser inverts the table exactly when the table has the high block from profile 100 on and
   * its lists are readable. For 4:4:4 the lists behind the first 8x8 list have no other deltas than
   * 0 and 1 here.
   */
  lemma SpsInverseExactly(v: Sps, tail: seq<bool>)
    requires InRange(v) && tail != []
    requires v.high.Some? && v.high.value.chroma == 3 && v.high.value.lists.Some? ==> AllSteps(v.high.value.lists.value[7..])
    ensures ParseSps(SpsBits(v, tail)) == Complete(v.header, HighOf(v), v.log2MaxFrameNum, v.pocType, v.poc, v.picture)
      <==> (v.high.Some? <==> v.header.profile >= 100) && (v.high.Some? ==> Readable(v.high.value))
  {
    hide ParseSps, SpsBits, Readable, HighOf;
    if !(v.high.Some? <==> v.header.profile >= 100) {
      SpsMisread(v, tail);
    } else if v.high.Some? && !Readable(v.high.value) {
      ListsMisread(v, tail);
    } else {
      SpsInverse(v, tail);
    }
  }

  lemma ListsMisread(v: Sps, tail: seq<bool>)
    requires InRange(v) && v.high.Some? && v.header.profile >= 100 && !Readable(v.high.value)
    requires v.high.value.chroma == 3 && v.high.value.lists.Some? ==> AllSteps(v.high.value.lists.value[7..])
    ensures ParseSps(SpsBits(v, tail)).Complete? ==> ParseSps(SpsBits(v, tail)).high != HighOf(v)
  {
    hide ReadHeader, HeaderBits, ReadUe, ReadHigh, ReadBody, HighBits, BodyBits, Readable, MeantHigh;
    var x, body := v.high.value, BodyBits(v, tail);
    HeaderInverse(v.header, v.reserved, HighBits(x, body));
    HighFirst(x, body);
    UnreadableHigh(x, body);
    var (high, r) := ReadHigh(ReadUe(HighBits(x, body)).1, x.chroma);
    BodyKeeps(r, v.header, Some(high));
  }

  lemma SpsMisread(v: Sps, tail: seq<bool>)
    requires InRange(v)
    requires v.high.Some? <==> v.header.profile < 100
    ensures ParseSps(SpsBits(v, tail)).Complete? ==> ParseSps(SpsBits(v, tail)).high.Some? != HighOf(v).Some?
  {
    hide ReadHeader, HeaderBits, ReadUe, ReadHigh, ReadBody, HighBits, BodyBits;
    var body := BodyBits(v, tail);
    var bits := match v.high case None => body case Some(x) => HighBits(x, body);
    HeaderInverse(v.header, v.reserved, bits);
    var (chroma, r) := ReadUe(bits);
    BodyKeeps(ReadHigh(r, chroma).1, v.header, Some(ReadHigh(r, chroma).0));
    BodyKeeps(bits, v.header, None);
  }

  lemma BodyNonEmpty(v: Sps, tail: seq<bool>)
    requires InRange(v)
    ensures BodyBits(v, tail) != []
  {
    UeBitsBinary(v.log2MaxFrameNum - 4);
  }

  lemma HighNonEmpty(x: HighSyntax, tail: seq<bool>)
    ensures HighBits(x, tail) != []
  {
    UeBitsBinary(x.chroma);
  }

  /** The profiles below 100 that the standard gives the high syntax to (CAVLC 4:4:4 and scalable). */
  predicate MissedHighProfile(profile: int) {
    profile == 44 || profile == 83 || profile == 86
  }

  /**
   * For a high-profile block in a profile below 100, as in those, the parser reads the block as the
   * fields behind it: the frame number length becomes chroma_format_idc + 4 whatever was written,
   * and outside 4:4:4 the picture order count type becomes the luma bit depth, which rejects the
   * whole set when that is above 10 bits.
   */
  lemma HighBlockMisread(v: Sps, tail: seq<bool>)
    requires InRange(v) && v.header.profile < 100 && v.high.Some?
    ensures var o, x := ParseSps(SpsBits(v, tail)), v.high.value;
      && !o.BadId? && !o.BadChroma?
      && (o.Complete? ==> o.high == None && o.log2MaxFrameNum == x.chroma + 4)
      && (x.chroma != 3 && x.depthLuma > 2 ==> o.BadPocType?)
      && (x.chroma != 3 && o.Complete? ==> o.pocType == x.depthLuma)
  {
    hide ReadHeader, HeaderBits, ReadUe, ReadBody, HighBits, BodyBits, ReadHigh;
    var x := v.high.value;
    var bits := HighBits(x, BodyBits(v, tail));
    HeaderInverse(v.header, v.reserved, bits);
    HighFirst(x, BodyBits(v, tail));
    HighNonEmpty(x, BodyBits(v, tail));
    BodyKeeps(bits, v.header, None);
    FirstCodes(bits, v.header, None);
    if x.chroma != 3 {
      SecondCode(x, BodyBits(v, tail));
    }
  }

  lemma SecondCode(x: HighSyntax, tail: seq<bool>)
    requires HighInRange(x) && x.chroma != 3
    ensures ReadUe(ReadUe(HighBits(x, tail)).1).0 == x.depthLuma
  {
    hide ReadUe, UeOf;
    var t1 := UeOf(x.depthChroma) + ([x.bypass] + MatrixBits(x.lists, tail));
    ReadUeOf(x.chroma, UeOf(x.depthLuma) + t1);
    ReadUeOf(x.depthLuma, t1);
  }

  /** Without the block from profile 100 on, the frame number length is taken for the chroma format. */
  lemma MissingBlockMisread(v: Sps, tail: seq<bool>)
    requires InRange(v) && v.header.profile >= 100 && v.high.None?
    ensures var o := ParseSps(SpsBits(v, tail));
      && (v.log2MaxFrameNum - 4 >= 32 ==> o.BadChroma?)
      && (o.Complete? ==> o.high.Some? && o.high.value.chroma == v.log2MaxFrameNum - 4)
  {
    hide ReadHeader, HeaderBits, ReadUe, ReadBody, BodyBits;
    var bits := BodyBits(v, tail);
    HeaderInverse(v.header, v.reserved, bits);
    BodyNonEmpty(v, tail);
    BodyFirst(v, tail);
    var (chroma, r) := ReadUe(bits);
    BodyKeeps(ReadHigh(r, chroma).1, v.header, Some(ReadHigh(r, chroma).0));
  }

  lemma BodyFirst(v: Sps, tail: seq<bool>)
    requires InRange(v)
    ensures ReadUe(BodyBits(v, tail)).0 == v.log2MaxFrameNum - 4
  {
    hide ReadUe, UeOf;
    ReadUeOf(v.log2MaxFrameNum - 4, UeOf(v.pocType) + PocBits(v.poc, PictureBits(v.picture, AfterPicture(v, tail))));
  }

  // ----- a set that is misread from end to end ---------------------------------------------

  const CAVLC444: Header := Header(44, 30, 0, 0, 0, 0)

  /** 16 by 16 pixels, 4:2:0, one reference frame. */
  const WRITTEN: Sps := Sps(CAVLC444, 0, Some(HighSyntax(1, false, 0, 0, false, None)), 4, 2, PocOther,
                            Picture(1, 0, 1, 1, 1, 0, 1, 0, Crop(0, 0, 0, 0), 0), None)

  /** What comes out: 32 by 48 pixels and four reference frames. */
  const MISREAD: Sps := Sps(CAVLC444, 0, None, 5, 0, Poc0(4), Picture(4, 1, 2, 3, 1, 0, 1, 0, Crop(0, 0, 0, 0), 0), None)

  lemma SmallCodes()
    ensures UeOf(0) == [true] && UeOf(1) == [false, true, false] && UeOf(2) == [false, true, true]
    ensures UeOf(4) == [false, false, true, false, true]
  {
    SmallDigits();
    SmallLengths();
    hide ToBits, Repeat, BitLength;
  }

  lemma SmallLengths()
    ensures BitLength(1) == 1 && BitLength(2) == 2 && BitLength(3) == 2 && BitLength(5) == 3
  {
  }

  lemma SmallDigits()
    ensures Repeat(false, 0) == [] && Repeat(false, 1) == [false] && Repeat(false, 2) == [false, false]
    ensures ToBits(1, 0) == [] && ToBits(2, 1) == [false] && ToBits(3, 1) == [true] && ToBits(5, 2) == [false, true]
  {
  }

  lemma SameBits()
    ensures HighBits(WRITTEN.high.value, BodyBits(WRITTEN, [true])) == BodyBits(MISREAD, [true])
  {
    SmallCodes();
    hide UeOf;
  }

  lemma BothInRange()
    ensures InRange(WRITTEN) && InRange(MISREAD)
  {
  }

  /** So for these profiles a parse can complete with wrong sizes. */
  lemma MisreadCompletes()
    ensures InRange(WRITTEN) && MissedHighProfile(WRITTEN.header.profile)
    ensures ParseSps(SpsBits(WRITTEN, [true]))
      == Complete(CAVLC444, None, MISREAD.log2MaxFrameNum, MISREAD.pocType, MISREAD.poc, MISREAD.picture)
  {
    hide ReadHeader, HeaderBits, ReadBody, HighBits, BodyBits;
    SameBits();
    BothInRange();
    BodyInverse(MISREAD, None, [true]);
    HeaderInverse(CAVLC444, 0, BodyBits(MISREAD, [true]));
    BodyNonEmpty(MISREAD, [true]);
  }

  /** The frame number length and the picture order count type are the first two codes of the body. */
  lemma FirstCodes(bits: seq<bool>, h: Header, high: Option<High>)
    ensures var o, (frameNum, r) := ReadBody(bits, h, high), ReadUe(bits);
      && (o.Complete? ==> o.log2MaxFrameNum == frameNum + 4 && o.pocType == ReadUe(r).0)
      && (ReadUe(r).0 > 2 ==> o.BadPocType?)
  {
    hide ReadUe, ReadPoc, ReadPicture, VuiRest;
  }
}
