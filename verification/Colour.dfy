/** The 4:2:0 conversion of VirtualCameraService.cpp and the plane layouts it is used with. */
module Colour {
  import opened Bits
  import opened Strides

  /** Where the planes lie in one image: starts, the step between chroma cells, and the strides. */
  datatype Layout = Layout(y: nat, cr: nat, cb: nat, chromaStep: nat, yStride: nat, chromaStride: nat)

  /** What is written: luma for every pixel, chroma for every second pixel of every second row. */
  datatype Cell = Luma(row: nat, column: nat) | Cb(row: nat, column: nat) | Cr(row: nat, column: nat)

  function Address(l: Layout, c: Cell): nat {
    match c
    case Luma(j, i) => At(l.y, l.yStride, j) + i
    case Cb(j, i) => At(At(l.cb, l.chromaStride, j), l.chromaStep, i)
    case Cr(j, i) => At(At(l.cr, l.chromaStride, j), l.chromaStep, i)
  }

  predicate InFrame(c: Cell, width: nat, height: nat) {
    if c.Luma? then c.row < height && c.column < width
    else 2 * c.row < height && 2 * c.column < width
  }

  // ----- values -------------------------------------------------------------

  function LumaOf(r: byte, g: byte, b: byte): (v: int)
    ensures 0 <= v < 256
  {
    (77 * r + 150 * g + 29 * b) / 256
  }

  function CbOf(r: byte, g: byte, b: byte): (v: int)
    ensures 0 <= v < 256
  {
    (-43 * r - 85 * g + 128 * b) / 256 + 128
  }

  function CrOf(r: byte, g: byte, b: byte): (v: int)
    ensures 0 <= v < 256
  {
    (128 * r - 107 * g - 21 * b) / 256 + 128
  }

  /** A grey pixel keeps its brightness and has no colour. */
  lemma GreyStaysGrey(v: byte)
    ensures LumaOf(v, v, v) == v && CbOf(v, v, v) == 128 && CrOf(v, v, v) == 128
  {
  }

  /** Brightness lies between the darkest and the brightest component. */
  lemma LumaBetween(r: byte, g: byte, b: byte, low: byte, high: byte)
    requires low <= r <= high && low <= g <= high && low <= b <= high
    ensures low <= LumaOf(r, g, b) <= high
  {
  }

  /** v is a value given in thousandths cut off, but for a slack in thousandths. */
  predicate CutOff(v: int, thousandths: int, slack: nat) {
    -1000 - slack < 1000 * v - thousandths <= slack
  }

  /** Luma is that of BT.601, 0.299 R + 0.587 G + 0.114 B, cut off and not rounded. */
  lemma LumaIsBT601(r: byte, g: byte, b: byte)
    ensures CutOff(LumaOf(r, g, b), 299 * r + 587 * g + 114 * b, 455)
  {
  }

  /** So is chroma around 128: -0.169 R - 0.331 G + 0.5 B and 0.5 R - 0.419 G - 0.081 B. */
  lemma ChromaIsBT601(r: byte, g: byte, b: byte)
    ensures CutOff(CbOf(r, g, b) - 128, -169 * r - 331 * g + 500 * b, 263)
    ensures CutOff(CrOf(r, g, b) - 128, 500 * r - 419 * g - 81 * b, 263)
  {
  }

  /** Where pixel (row, column) starts in an RGBA image. */
  function PixelIndex(width: nat, row: nat, column: nat): nat {
    At(0, 4 * width, row) + 4 * column
  }

  ghost predicate HasPixels(rgb: seq<byte>, width: nat, height: nat) {
    At(0, 4 * width, height) <= |rgb|
  }

  lemma PixelInside(rgb: seq<byte>, width: nat, height: nat, row: nat, column: nat)
    requires HasPixels(rgb, width, height) && row < height && column < width
    ensures PixelIndex(width, row, column) + 4 <= |rgb|
  {
    AtApart(0, 4 * width, row, height);
  }

  /** What belongs in a cell: chroma is that of the top left pixel of its block. */
  function ValueOf(rgb: seq<byte>, width: nat, height: nat, c: Cell): byte
    requires HasPixels(rgb, width, height) && InFrame(c, width, height)
  {
    var row, column := if c.Luma? then c.row else 2 * c.row, if c.Luma? then c.column else 2 * c.column;
    PixelInside(rgb, width, height, row, column);
    var p := PixelIndex(width, row, column);
    match c
    case Luma(_, _) => LumaOf(rgb[p], rgb[p + 1], rgb[p + 2])
    case Cb(_, _) => CbOf(rgb[p], rgb[p + 1], rgb[p + 2])
    case Cr(_, _) => CrOf(rgb[p], rgb[p + 1], rgb[p + 2])
  }

  /** Where the pixel of a cell starts: four bytes a pixel, row by row. */
  function PixelStart(width: nat, c: Cell): int {
    if c.Luma? then 4 * (width * c.row + c.column) else 4 * (width * (2 * c.row) + 2 * c.column)
  }

  /** What BT.601 makes of a pixel, in thousandths; byte 0 of a pixel is red, 1 green and 2 blue. */
  function BT601(rgb: seq<byte>, p: int, c: Cell): int
    requires 0 <= p && p + 4 <= |rgb|
  {
    var r: int, g: int, b: int := rgb[p], rgb[p + 1], rgb[p + 2];
    match c
    case Luma(_, _) => 299 * r + 587 * g + 114 * b
    case Cb(_, _) => 128000 - 169 * r - 331 * g + 500 * b
    case Cr(_, _) => 128000 + 500 * r - 419 * g - 81 * b
  }

  /** Every cell of a frame gets what BT.601 makes of its pixel. */
  lemma CellIsBT601(rgb: seq<byte>, width: nat, height: nat, c: Cell)
    requires HasPixels(rgb, width, height) && InFrame(c, width, height)
    ensures var p := PixelStart(width, c);
      && 0 <= p && p + 4 <= |rgb|
      && CutOff(ValueOf(rgb, width, height, c), BT601(rgb, p, c), if c.Luma? then 455 else 263)
  {
    hide LumaOf, CbOf, CrOf, PixelStart, PixelIndex, HasPixels;
    var row, column := if c.Luma? then c.row else 2 * c.row, if c.Luma? then c.column else 2 * c.column;
    PixelInside(rgb, width, height, row, column);
    PixelAt(width, c);
    var p := PixelIndex(width, row, column);
    LumaIsBT601(rgb[p], rgb[p + 1], rgb[p + 2]);
    ChromaIsBT601(rgb[p], rgb[p + 1], rgb[p + 2]);
  }

  lemma PixelAt(width: nat, c: Cell)
    ensures PixelStart(width, c)
      == PixelIndex(width, if c.Luma? then c.row else 2 * c.row, if c.Luma? then c.column else 2 * c.column)
  {
    hide At;
    var row := if c.Luma? then c.row else 2 * c.row;
    AtIs(0, 4 * width, row);
    Fourfold(width, row);
  }

  lemma Fourfold(width: nat, row: nat)
    ensures 4 * width * row == 4 * (width * row)
  {
  }

  // ----- the order of the writes -----------------------------------------------

  function PixelCells(row: nat, column: nat): seq<Cell> {
    [Luma(row, column)] + if row % 2 == 0 && column % 2 == 0 then [Cb(row / 2, column / 2), Cr(row / 2, column / 2)] else []
  }

  /** The cells of a row from a column on. */
  function RowCells(width: nat, row: nat, column: nat): seq<Cell>
    decreases width - column
  {
    if column < width then PixelCells(row, column) + RowCells(width, row, column + 1) else []
  }

  /** The cells from a row on. */
  function FrameCells(width: nat, height: nat, row: nat): seq<Cell>
    decreases height - row
  {
    if row < height then RowCells(width, row, 0) + FrameCells(width, height, row + 1) else []
  }

  ghost predicate AllInFrame(cells: seq<Cell>, width: nat, height: nat) {
    forall k :: 0 <= k < |cells| ==> InFrame(cells[k], width, height)
  }

  /** The image after writing the cells one after the other. */
  ghost function Paint(image: seq<byte>, cells: seq<Cell>, l: Layout, rgb: seq<byte>, width: nat, height: nat): seq<byte>
    requires HasPixels(rgb, width, height) && AllInFrame(cells, width, height)
    decreases |cells|
  {
    if cells == [] then image
    else
      var a := Address(l, cells[0]);
      var image' := if a < |image| then image[a := ValueOf(rgb, width, height, cells[0])] else image;
      Paint(image', cells[1..], l, rgb, width, height)
  }

  lemma {:induction false} PaintSize(image: seq<byte>, cells: seq<Cell>, l: Layout, rgb: seq<byte>, width: nat, height: nat)
    requires HasPixels(rgb, width, height) && AllInFrame(cells, width, height)
    ensures |Paint(image, cells, l, rgb, width, height)| == |image|
    decreases |cells|
  {
    hide ValueOf, Address, InFrame, HasPixels;
    if cells != [] {
      var a := Address(l, cells[0]);
      var image' := if a < |image| then image[a := ValueOf(rgb, width, height, cells[0])] else image;
      PaintSize(image', cells[1..], l, rgb, width, height);
    }
  }

  lemma {:induction false} PaintConcat(image: seq<byte>, xs: seq<Cell>, ys: seq<Cell>, l: Layout, rgb: seq<byte>, width: nat, height: nat)
    requires HasPixels(rgb, width, height) && AllInFrame(xs, width, height) && AllInFrame(ys, width, height)
    ensures AllInFrame(xs + ys, width, height)
    ensures Paint(image, xs + ys, l, rgb, width, height)
      == Paint(Paint(image, xs, l, rgb, width, height), ys, l, rgb, width, height)
    decreases |xs|
  {
    hide ValueOf, Address, InFrame, HasPixels;
    if xs == [] {
      assert xs + ys == ys;
    } else {
      assert (xs + ys)[1..] == xs[1..] + ys;
      var a := Address(l, xs[0]);
      var image' := if a < |image| then image[a := ValueOf(rgb, width, height, xs[0])] else image;
      PaintConcat(image', xs[1..], ys, l, rgb, width, height);
    }
  }

  // ----- every cell once --------------------------------------------------------------

  function RowOf(c: Cell): nat {
    if c.Luma? then c.row else 2 * c.row
  }

  function ColumnOf(c: Cell): nat {
    if c.Luma? then c.column else 2 * c.column
  }

  ghost predicate NoRepeats(cells: seq<Cell>) {
    forall i, j :: 0 <= i < j < |cells| ==> cells[i] != cells[j]
  }

  lemma NoRepeatsConcat(xs: seq<Cell>, ys: seq<Cell>)
    requires NoRepeats(xs) && NoRepeats(ys) && forall c :: c in xs ==> c !in ys
    ensures NoRepeats(xs + ys)
  {
    var zs := xs + ys;
    forall i, j | 0 <= i < j < |zs|
      ensures zs[i] != zs[j]
    {
      if i < |xs| <= j {
        assert zs[i] in xs && zs[j] in ys;
      }
    }
  }

  lemma {:induction false} RowCellsExactly(width: nat, row: nat, column: nat)
    ensures forall c :: c in RowCells(width, row, column) <==> RowOf(c) == row && column <= ColumnOf(c) < width
    ensures NoRepeats(RowCells(width, row, column))
    decreases width - column
  {
    if column < width {
      RowCellsExactly(width, row, column + 1);
      var p := PixelCells(row, column);
      assert forall c :: c in p <==> RowOf(c) == row && ColumnOf(c) == column;
      NoRepeatsConcat(p, RowCells(width, row, column + 1));
    }
  }

  /** Each cell of the frame is written, nothing else is, and no cell twice. */
  lemma {:induction false} FrameCellsExactly(width: nat, height: nat, row: nat)
    ensures forall c :: c in FrameCells(width, height, row) <==> InFrame(c, width, height) && row <= RowOf(c)
    ensures NoRepeats(FrameCells(width, height, row))
    decreases height - row
  {
    if row < height {
      FrameCellsExactly(width, height, row + 1);
      RowCellsExactly(width, row, 0);
      NoRepeatsConcat(RowCells(width, row, 0), FrameCells(width, height, row + 1));
    }
  }

  lemma FrameCellsInFrame(width: nat, height: nat, row: nat)
    ensures AllInFrame(FrameCells(width, height, row), width, height)
  {
    FrameCellsExactly(width, height, row);
    var cells := FrameCells(width, height, row);
    forall k | 0 <= k < |cells|
      ensures InFrame(cells[k], width, height)
    {
      assert cells[k] in cells;
    }
  }

  lemma RowCellsInFrame(width: nat, height: nat, row: nat, column: nat)
    requires row < height
    ensures AllInFrame(RowCells(width, row, column), width, height)
  {
    RowCellsExactly(width, row, column);
    var cells := RowCells(width, row, column);
    forall k | 0 <= k < |cells|
      ensures InFrame(cells[k], width, height)
    {
      assert cells[k] in cells;
    }
  }

  // ----- what the conversion leaves ------------------------------------------------------

  ghost predicate Inside(l: Layout, width: nat, height: nat, size: nat) {
    forall c :: InFrame(c, width, height) ==> Address(l, c) < size
  }

  /** No two cells share a byte. */
  ghost predicate Disjoint(l: Layout, width: nat, height: nat) {
    forall c, d :: InFrame(c, width, height) && InFrame(d, width, height) && Address(l, c) == Address(l, d) ==> c == d
  }

  lemma {:induction false} PaintKeeps(image: seq<byte>, cells: seq<Cell>, c: Cell, l: Layout, rgb: seq<byte>, width: nat, height: nat)
    requires HasPixels(rgb, width, height) && AllInFrame(cells, width, height) && Disjoint(l, width, height)
    requires InFrame(c, width, height) && Address(l, c) < |image|
    requires c in cells || image[Address(l, c)] == ValueOf(rgb, width, height, c)
    ensures |Paint(image, cells, l, rgb, width, height)| == |image|
    ensures Paint(image, cells, l, rgb, width, height)[Address(l, c)] == ValueOf(rgb, width, height, c)
    decreases |cells|
  {
    hide ValueOf, Address, InFrame, HasPixels;
    if cells != [] {
      var a := Address(l, cells[0]);
      var image' := if a < |image| then image[a := ValueOf(rgb, width, height, cells[0])] else image;
      PaintKeeps(image', cells[1..], c, l, rgb, width, height);
    }
  }

  lemma {:induction false} PaintSpares(image: seq<byte>, cells: seq<Cell>, k: nat, l: Layout, rgb: seq<byte>, width: nat, height: nat)
    requires HasPixels(rgb, width, height) && AllInFrame(cells, width, height)
    requires k < |image| && forall c :: c in cells ==> Address(l, c) != k
    ensures |Paint(image, cells, l, rgb, width, height)| == |image|
    ensures Paint(image, cells, l, rgb, width, height)[k] == image[k]
    decreases |cells|
  {
    hide ValueOf, Address, InFrame, HasPixels;
    if cells != [] {
      var a := Address(l, cells[0]);
      var image' := if a < |image| then image[a := ValueOf(rgb, width, height, cells[0])] else image;
      PaintSpares(image', cells[1..], k, l, rgb, width, height);
    }
  }

  /** The image after the whole conversion. */
  ghost function Converted(image: seq<byte>, l: Layout, rgb: seq<byte>, width: nat, height: nat): seq<byte>
    requires HasPixels(rgb, width, height)
  {
    FrameCellsInFrame(width, height, 0);
    Paint(image, FrameCells(width, height, 0), l, rgb, width, height)
  }

  /**
   * With planes that do not overlap, every pixel's luma and every block's chroma stand at their
   * strided places and no other byte has changed.
   */
  lemma ConversionPlaces(image: seq<byte>, l: Layout, rgb: seq<byte>, width: nat, height: nat)
    requires HasPixels(rgb, width, height) && Disjoint(l, width, height) && Inside(l, width, height, |image|)
    ensures var image' := Converted(image, l, rgb, width, height);
      && |image'| == |image|
      && (forall c :: InFrame(c, width, height) ==> image'[Address(l, c)] == ValueOf(rgb, width, height, c))
      && (forall k :: 0 <= k < |image| && (forall c :: InFrame(c, width, height) ==> Address(l, c) != k) ==> image'[k] == image[k])
  {
    var cells := FrameCells(width, height, 0);
    var image' := Converted(image, l, rgb, width, height);
    FrameCellsExactly(width, height, 0);
    FrameCellsInFrame(width, height, 0);
    PaintSize(image, cells, l, rgb, width, height);
    hide FrameCells, Paint, Address, ValueOf, InFrame, HasPixels;
    forall c | InFrame(c, width, height)
      ensures image'[Address(l, c)] == ValueOf(rgb, width, height, c)
    {
      PaintKeeps(image, cells, c, l, rgb, width, height);
    }
    forall k | 0 <= k < |image| && (forall c :: InFrame(c, width, height) ==> Address(l, c) != k)
      ensures image'[k] == image[k]
    {
      PaintSpares(image, cells, k, l, rgb, width, height);
    }
  }

  // ----- the loops ---------------------------------------------------------------------------

  lemma PaintNothing(image: seq<byte>, l: Layout, rgb: seq<byte>, width: nat, height: nat)
    requires HasPixels(rgb, width, height)
    ensures Paint(image, [], l, rgb, width, height) == image
  {
  }

  lemma PaintOne(image: seq<byte>, c: Cell, l: Layout, rgb: seq<byte>, width: nat, height: nat)
    requires HasPixels(rgb, width, height) && InFrame(c, width, height) && Address(l, c) < |image|
    ensures Paint(image, [c], l, rgb, width, height) == image[Address(l, c) := ValueOf(rgb, width, height, c)]
  {
    assert [c][1..] == [];
  }

  lemma PaintChroma(image: seq<byte>, x: Cell, y: Cell, z: Cell, l: Layout, rgb: seq<byte>, width: nat, height: nat)
    requires HasPixels(rgb, width, height)
    requires InFrame(x, width, height) && InFrame(y, width, height) && InFrame(z, width, height)
    requires Address(l, x) < |image| && Address(l, y) < |image| && Address(l, z) < |image|
    ensures Paint(image, [x] + [y, z], l, rgb, width, height)
      == image[Address(l, x) := ValueOf(rgb, width, height, x)][Address(l, y) := ValueOf(rgb, width, height, y)]
              [Address(l, z) := ValueOf(rgb, width, height, z)]
  {
    hide Address, ValueOf, InFrame, HasPixels;
    PaintOne(image, x, l, rgb, width, height);
    var image' := image[Address(l, x) := ValueOf(rgb, width, height, x)];
    PaintOne(image', y, l, rgb, width, height);
    PaintOne(image'[Address(l, y) := ValueOf(rgb, width, height, y)], z, l, rgb, width, height);
    PaintConcat(image, [x], [y, z], l, rgb, width, height);
    PaintConcat(image', [y], [z], l, rgb, width, height);
    assert [y] + [z] == [y, z];
  }

  /** What the bytes at PixelIndex mean for the pixel's cells. */
  lemma PixelValues(rgb: seq<byte>, width: nat, height: nat, row: nat, column: nat)
    requires HasPixels(rgb, width, height) && row < height && column < width
    ensures var p := PixelIndex(width, row, column);
      && p + 4 <= |rgb|
      && InFrame(Luma(row, column), width, height)
      && ValueOf(rgb, width, height, Luma(row, column)) == LumaOf(rgb[p], rgb[p + 1], rgb[p + 2])
      && (row % 2 == 0 && column % 2 == 0 ==>
            && InFrame(Cb(row / 2, column / 2), width, height) && InFrame(Cr(row / 2, column / 2), width, height)
            && ValueOf(rgb, width, height, Cb(row / 2, column / 2)) == CbOf(rgb[p], rgb[p + 1], rgb[p + 2])
            && ValueOf(rgb, width, height, Cr(row / 2, column / 2)) == CrOf(rgb[p], rgb[p + 1], rgb[p + 2]))
  {
    PixelInside(rgb, width, height, row, column);
    hide HasPixels, LumaOf, CbOf, CrOf, At;
  }

  lemma NextColumn(l: Layout, width: nat, row: nat, column: nat)
    ensures PixelIndex(width, row, column + 1) == PixelIndex(width, row, column) + 4
    ensures Address(l, Luma(row, column + 1)) == Address(l, Luma(row, column)) + 1
    ensures column % 2 == 0 ==>
      && Address(l, Cb(row / 2, (column + 2) / 2)) == Address(l, Cb(row / 2, (column + 1) / 2)) + l.chromaStep
      && Address(l, Cr(row / 2, (column + 2) / 2)) == Address(l, Cr(row / 2, (column + 1) / 2)) + l.chromaStep
  {
    hide At;
    AtNext(At(l.cb, l.chromaStride, row / 2), l.chromaStep, (column + 1) / 2);
    AtNext(At(l.cr, l.chromaStride, row / 2), l.chromaStep, (column + 1) / 2);
  }

  lemma FirstCells(l: Layout, width: nat)
    ensures PixelIndex(width, 0, 0) == 0 && Address(l, Luma(0, 0)) == l.y
    ensures Address(l, Cb(0, 0)) == l.cb && Address(l, Cr(0, 0)) == l.cr
  {
  }

  lemma NextRow(l: Layout, width: nat, row: nat)
    ensures PixelIndex(width, row + 1, 0) == PixelIndex(width, row, 0) + 4 * width
    ensures Address(l, Luma(row + 1, 0)) == Address(l, Luma(row, 0)) + l.yStride
    ensures row % 2 == 0 ==>
      && Address(l, Cb((row + 2) / 2, 0)) == Address(l, Cb((row + 1) / 2, 0)) + l.chromaStride
      && Address(l, Cr((row + 2) / 2, 0)) == Address(l, Cr((row + 1) / 2, 0)) + l.chromaStride
  {
    hide At;
    AtNext(0, 4 * width, row);
    AtNext(l.y, l.yStride, row);
    AtNext(l.cb, l.chromaStride, (row + 1) / 2);
    AtNext(l.cr, l.chromaStride, (row + 1) / 2);
    AtNext(At(l.cb, l.chromaStride, (row + 1) / 2), l.chromaStep, 0);
    AtNext(At(l.cb, l.chromaStride, (row + 2) / 2), l.chromaStep, 0);
    AtNext(At(l.cr, l.chromaStride, (row + 1) / 2), l.chromaStep, 0);
    AtNext(At(l.cr, l.chromaStride, (row + 2) / 2), l.chromaStep, 0);
  }

  method StoreLuma(image: array<byte>, y: nat, r: byte, g: byte, b: byte)
    requires y < image.Length
    modifies image
    ensures image[..] == old(image[..])[y := LumaOf(r, g, b)]
  {
    image[y] := LumaOf(r, g, b);
  }

  method StoreChroma(image: array<byte>, cb: nat, cr: nat, r: byte, g: byte, b: byte)
    requires cb < image.Length && cr < image.Length
    modifies image
    ensures image[..] == old(image[..])[cb := CbOf(r, g, b)][cr := CrOf(r, g, b)]
  {
    image[cb] := CbOf(r, g, b);
    image[cr] := CrOf(r, g, b);
  }

  /** The image after the stores of one pixel. */
  ghost function PixelStored(image: seq<byte>, l: Layout, rgb: seq<byte>, width: nat, height: nat, row: nat, column: nat): seq<byte>
    requires HasPixels(rgb, width, height) && Inside(l, width, height, |image|)
    requires row < height && column < width
  {
    PixelValues(rgb, width, height, row, column);
    var c, d, e := Luma(row, column), Cb(row / 2, column / 2), Cr(row / 2, column / 2);
    var image' := image[Address(l, c) := ValueOf(rgb, width, height, c)];
    if row % 2 == 0 && column % 2 == 0 then
      image'[Address(l, d) := ValueOf(rgb, width, height, d)][Address(l, e) := ValueOf(rgb, width, height, e)]
    else image'
  }

  lemma PixelPainted(image: seq<byte>, l: Layout, rgb: seq<byte>, width: nat, height: nat, row: nat, column: nat)
    requires HasPixels(rgb, width, height) && Inside(l, width, height, |image|)
    requires row < height && column < width
    ensures AllInFrame(PixelCells(row, column), width, height)
    ensures PixelStored(image, l, rgb, width, height, row, column) == Paint(image, PixelCells(row, column), l, rgb, width, height)
  {
    PixelValues(rgb, width, height, row, column);
    hide HasPixels, Address, ValueOf, InFrame, LumaOf, CbOf, CrOf, PixelIndex, Paint;
    var c, d, e := Luma(row, column), Cb(row / 2, column / 2), Cr(row / 2, column / 2);
    if row % 2 == 0 && column % 2 == 0 {
      PaintChroma(image, c, d, e, l, rgb, width, height);
    } else {
      PaintOne(image, c, l, rgb, width, height);
      assert [c] + [] == [c];
    }
  }

  /** The turn of one pixel: its luma and, for the first of a block, the chroma. */
  method ConvertPixel(rgb: seq<byte>, width: nat, height: nat, image: array<byte>, l: Layout, row: nat, column: nat,
                      index: nat, y: nat, cb: nat, cr: nat)
    requires HasPixels(rgb, width, height) && Inside(l, width, height, image.Length)
    requires row < height && column < width
    requires index == PixelIndex(width, row, column) && y == Address(l, Luma(row, column))
    requires row % 2 == 0 ==>
      cb == Address(l, Cb(row / 2, (column + 1) / 2)) && cr == Address(l, Cr(row / 2, (column + 1) / 2))
    modifies image
    ensures image[..] == PixelStored(old(image[..]), l, rgb, width, height, row, column)
  {
    hide Address, PixelIndex, ValueOf, InFrame, HasPixels, LumaOf, CbOf, CrOf, At;
    PixelValues(rgb, width, height, row, column);
    var r, g, b := rgb[index], rgb[index + 1], rgb[index + 2];
    StoreLuma(image, y, r, g, b);
    if row % 2 == 0 && column % 2 == 0 {
      StoreChroma(image, cb, cr, r, g, b);
    }
  }

  method ConvertRow(rgb: seq<byte>, width: nat, height: nat, image: array<byte>, l: Layout, row: nat,
                    index: nat, yPlane: nat, cbPlane: nat, crPlane: nat)
    requires HasPixels(rgb, width, height) && Inside(l, width, height, image.Length) && row < height
    requires index == PixelIndex(width, row, 0) && yPlane == Address(l, Luma(row, 0))
    requires cbPlane == Address(l, Cb((row + 1) / 2, 0)) && crPlane == Address(l, Cr((row + 1) / 2, 0))
    modifies image
    ensures AllInFrame(RowCells(width, row, 0), width, height)
    ensures image[..] == Paint(old(image[..]), RowCells(width, row, 0), l, rgb, width, height)
  {
    hide Paint, HasPixels, Inside, ValueOf, Address, PixelIndex, PixelCells, PixelStored, AllInFrame;
    var even := row % 2 == 0;
    var index: nat, y: nat, cb: nat, cr: nat := index, yPlane, cbPlane, crPlane;
    var column: nat := 0;
    RowCellsInFrame(width, height, row, 0);
    ghost var all := Paint(image[..], RowCells(width, row, 0), l, rgb, width, height);
    while column < width
      invariant column <= width
      invariant index == PixelIndex(width, row, column) && y == Address(l, Luma(row, column))
      invariant even ==>
        cb == Address(l, Cb(row / 2, (column + 1) / 2)) && cr == Address(l, Cr(row / 2, (column + 1) / 2))
      invariant AllInFrame(RowCells(width, row, column), width, height)
      invariant Paint(image[..], RowCells(width, row, column), l, rgb, width, height) == all
    {
      RowCellsInFrame(width, height, row, column + 1);
      NextColumn(l, width, row, column);
      ghost var before := image[..];
      ConvertPixel(rgb, width, height, image, l, row, column, index, y, cb, cr);
      PixelPainted(before, l, rgb, width, height, row, column);
      PaintConcat(before, PixelCells(row, column), RowCells(width, row, column + 1), l, rgb, width, height);
      if even && column % 2 == 0 {
        cr := cr + l.chromaStep;
        cb := cb + l.chromaStep;
      }
      index, y, column := index + 4, y + 1, column + 1;
    }
    assert RowCells(width, row, column) == [];
    PaintNothing(image[..], l, rgb, width, height);
  }

  method RgbToYuv420(rgb: seq<byte>, width: nat, height: nat, image: array<byte>, l: Layout)
    requires HasPixels(rgb, width, height) && Inside(l, width, height, image.Length)
    modifies image
    ensures image[..] == Converted(old(image[..]), l, rgb, width, height)
  {
    hide Paint, HasPixels, Inside, ValueOf, Address, PixelIndex, AllInFrame;
    var index: nat, yPlane: nat, crPlane: nat, cbPlane: nat := 0, l.y, l.cr, l.cb;
    var row: nat := 0;
    ghost var all := Converted(image[..], l, rgb, width, height);
    FrameCellsInFrame(width, height, 0);
    FirstCells(l, width);
    while row < height
      invariant row <= height
      invariant index == PixelIndex(width, row, 0) && yPlane == Address(l, Luma(row, 0))
      invariant cbPlane == Address(l, Cb((row + 1) / 2, 0)) && crPlane == Address(l, Cr((row + 1) / 2, 0))
      invariant AllInFrame(FrameCells(width, height, row), width, height)
      invariant Paint(image[..], FrameCells(width, height, row), l, rgb, width, height) == all
    {
      FrameCellsInFrame(width, height, row + 1);
      NextRow(l, width, row);
      ghost var before := image[..];
      ConvertRow(rgb, width, height, image, l, row, index, yPlane, cbPlane, crPlane);
      PaintConcat(before, RowCells(width, row, 0), FrameCells(width, height, row + 1), l, rgb, width, height);
      index, yPlane := index + 4 * width, yPlane + l.yStride;
      if row % 2 == 0 {
        crPlane := crPlane + l.chromaStride;
        cbPlane := cbPlane + l.chromaStride;
      }
      row := row + 1;
    }
    assert FrameCells(width, height, row) == [];
    PaintNothing(image[..], l, rgb, width, height);
  }
}

/** The two plane layouts produceFrame computes itself. */
module ColourLayouts {
  import opened Bits
  import opened Colour
  import opened Strides

  /** Cells of different rows of a plane differ when the cells of a row fit its stride. */
  lemma SameRow(step: nat, j: nat, i: nat, j': nat, i': nat)
    requires i < step && i' < step && At(0, step, j) + i == At(0, step, j') + i'
    ensures j == j' && i == i'
  {
    if j < j' {
      AtApart(0, step, j, j');
    } else if j' < j {
      AtApart(0, step, j', j);
    }
  }

  /** Every position below n rows lies in one of them. */
  lemma {:induction false} FindRow(step: nat, n: nat, k: nat) returns (j: nat)
    requires k < At(0, step, n)
    ensures j < n && At(0, step, j) <= k < At(0, step, j) + step
  {
    if At(0, step, n - 1) <= k {
      j := n - 1;
    } else {
      j := FindRow(step, n - 1, k);
    }
  }

  // ----- NV21: the chroma planes interleaved behind the luma -----------------------

  function Nv21(width: nat, height: nat): Layout {
    Layout(0, height * width, height * width + 1, 2, width, width)
  }

  lemma CellAt(base: nat, stride: nat, j: nat, step: nat, i: nat)
    ensures At(At(base, stride, j), step, i) == base + At(0, stride, j) + step * i
  {
    hide At;
    AtShift(base, stride, j);
    AtIs(At(base, stride, j), step, i);
  }

  /** Where the cells of an NV21 image are. */
  lemma Nv21Address(width: nat, height: nat, c: Cell)
    ensures Address(Nv21(width, height), c)
      == At(0, width, c.row) + (if c.Luma? then c.column
                                else At(0, width, height) + 2 * c.column + if c.Cb? then 1 else 0)
  {
    hide At;
    AtIs(0, width, height);
    match c
    case Luma(j, i) =>
    case Cr(j, i) => CellAt(height * width, width, j, 2, i);
    case Cb(j, i) => CellAt(height * width + 1, width, j, 2, i);
  }

  function Nv21Size(width: nat, height: nat): nat {
    3 * (width * height) / 2
  }

  lemma {:induction false} AtEven(step: nat, half: nat)
    ensures At(0, step, 2 * half) == 2 * At(0, step, half)
  {
    if half > 0 {
      AtEven(step, half - 1);
      assert At(0, step, 2 * half) == At(0, step, 2 * half - 1) + step;
    }
  }

  lemma Nv21SizeEven(width: nat, height: nat)
    requires height % 2 == 0
    ensures Nv21Size(width, height) == At(0, width, height) + At(0, width, height / 2)
  {
    AtIs(0, width, height);
    AtEven(width, height / 2);
  }

  lemma Nv21CellInside(width: nat, height: nat, c: Cell)
    requires width % 2 == 0 && height % 2 == 0 && InFrame(c, width, height)
    ensures Address(Nv21(width, height), c) < Nv21Size(width, height)
  {
    hide Nv21, Nv21Size, Address;
    Nv21Address(width, height, c);
    Nv21SizeEven(width, height);
    AtApart(0, width, c.row, if c.Luma? then height else height / 2);
  }

  lemma Nv21CellsApart(width: nat, height: nat, c: Cell, d: Cell)
    requires width % 2 == 0 && height % 2 == 0 && InFrame(c, width, height) && InFrame(d, width, height)
    requires Address(Nv21(width, height), c) == Address(Nv21(width, height), d)
    ensures c == d
  {
    hide Nv21, Address;
    Nv21Address(width, height, c);
    Nv21Address(width, height, d);
    if c.Luma? {
      AtApart(0, width, c.row, height);
    }
    if d.Luma? {
      AtApart(0, width, d.row, height);
    }
    if c.Luma? && d.Luma? {
      SameRow(width, c.row, c.column, d.row, d.column);
    } else if !c.Luma? && !d.Luma? {
      var x := 2 * c.column + if c.Cb? then 1 else 0;
      var y := 2 * d.column + if d.Cb? then 1 else 0;
      SameRow(width, c.row, x, d.row, y);
    }
  }

  /** Every byte of the image belongs to a cell. */
  lemma Nv21Covered(width: nat, height: nat, k: nat) returns (c: Cell)
    requires width % 2 == 0 && height % 2 == 0 && k < Nv21Size(width, height)
    ensures InFrame(c, width, height) && Address(Nv21(width, height), c) == k
  {
    hide Nv21, Nv21Size, Address;
    Nv21SizeEven(width, height);
    var luma := At(0, width, height);
    if k < luma {
      var j := FindRow(width, height, k);
      c := Luma(j, k - At(0, width, j));
    } else {
      var j := FindRow(width, height / 2, k - luma);
      var x := k - luma - At(0, width, j);
      c := if x % 2 == 0 then Cr(j, x / 2) else Cb(j, x / 2);
    }
    Nv21Address(width, height, c);
  }

  /** With an odd width or height the last chroma cell lies behind the image. */
  lemma Nv21Overruns(width: nat, height: nat)
    requires width > 0 && height > 0 && (width % 2 == 1 || height % 2 == 1)
    ensures var c := Cb((height - 1) / 2, (width - 1) / 2);
      InFrame(c, width, height) && Address(Nv21(width, height), c) >= Nv21Size(width, height)
  {
    var c := Cb((height - 1) / 2, (width - 1) / 2);
    hide Nv21, Address;
    Nv21Address(width, height, c);
    AtIs(0, width, height);
    AtEven(width, height / 2);
  }

  /** The conversion stays inside the image if and only if both sizes are even. */
  lemma Nv21InsideExactly(width: nat, height: nat)
    requires width > 0 && height > 0
    ensures Inside(Nv21(width, height), width, height, Nv21Size(width, height)) <==> width % 2 == 0 && height % 2 == 0
  {
    hide Nv21, Address, Nv21Size;
    if width % 2 == 0 && height % 2 == 0 {
      forall c | InFrame(c, width, height)
        ensures Address(Nv21(width, height), c) < Nv21Size(width, height)
      {
        Nv21CellInside(width, height, c);
      }
    } else {
      Nv21Overruns(width, height);
    }
  }

  /** The conversion writes byte k. */
  ghost predicate Written(l: Layout, width: nat, height: nat, k: nat) {
    exists c :: c in FrameCells(width, height, 0) && Address(l, c) == k
  }

  /** With even sizes each byte of the image belongs to exactly one cell, so it is written exactly once. */
  lemma Nv21Bijection(width: nat, height: nat)
    requires width % 2 == 0 && height % 2 == 0
    ensures Disjoint(Nv21(width, height), width, height)
    ensures forall k: nat :: k < Nv21Size(width, height) ==> Written(Nv21(width, height), width, height, k)
    ensures NoRepeats(FrameCells(width, height, 0))
  {
    FrameCellsExactly(width, height, 0);
    hide Nv21, Address, Nv21Size, FrameCells;
    forall c, d | InFrame(c, width, height) && InFrame(d, width, height)
                  && Address(Nv21(width, height), c) == Address(Nv21(width, height), d)
      ensures c == d
    {
      Nv21CellsApart(width, height, c, d);
    }
    forall k: nat | k < Nv21Size(width, height)
      ensures Written(Nv21(width, height), width, height, k)
    {
      var c := Nv21Covered(width, height, k);
      assert c in FrameCells(width, height, 0);
    }
  }

  // ----- YV12: three planes one behind the other ---------------------------------------

  /** x rounded up to a multiple of 16. */
  function Align16(x: nat): (r: nat)
    ensures x <= r < x + 16 && r % 16 == 0
  {
    (x + 15) / 16 * 16
  }

  function Yv12(height: nat, stride: nat): Layout {
    var chroma := Align16(stride / 2);
    Layout(0, height * stride, height * stride + chroma * height / 2, 1, stride, chroma)
  }

  lemma Yv12Address(height: nat, stride: nat, c: Cell)
    requires height % 2 == 0
    ensures Address(Yv12(height, stride), c)
      == if c.Luma? then At(0, stride, c.row) + c.column
         else At(0, stride, height) + (if c.Cb? then At(0, Align16(stride / 2), height / 2) else 0)
              + At(0, Align16(stride / 2), c.row) + c.column
  {
    hide At, Align16;
    var chroma := Align16(stride / 2);
    Yv12Planes(height, stride, chroma);
    match c
    case Luma(j, i) =>
    case Cr(j, i) => CellAt(height * stride, chroma, j, 1, i);
    case Cb(j, i) => CellAt(height * stride + chroma * height / 2, chroma, j, 1, i);
  }

  lemma Yv12Planes(height: nat, stride: nat, chroma: nat)
    requires height % 2 == 0
    ensures At(0, stride, height) == height * stride
    ensures At(0, chroma, height / 2) == chroma * height / 2
  {
    hide At;
    AtIs(0, stride, height);
    AtIs(0, chroma, height);
    AtEven(chroma, height / 2);
  }

  /** In YV12, with even sizes and a stride of at least the width, no two cells share a byte and all lie before the end of Cb. */
  lemma Yv12CellsApart(width: nat, height: nat, stride: nat, c: Cell, d: Cell)
    requires width % 2 == 0 && height % 2 == 0 && width <= stride
    requires InFrame(c, width, height) && InFrame(d, width, height)
    requires Address(Yv12(height, stride), c) == Address(Yv12(height, stride), d)
    ensures c == d
  {
    hide Yv12, Address;
    var chroma := Align16(stride / 2);
    Yv12Address(height, stride, c);
    Yv12Address(height, stride, d);
    AtApart(0, if c.Luma? then stride else chroma, c.row, if c.Luma? then height else height / 2);
    AtApart(0, if d.Luma? then stride else chroma, d.row, if d.Luma? then height else height / 2);
    if c.Luma? && d.Luma? {
      SameRow(stride, c.row, c.column, d.row, d.column);
    } else if (c.Cr? && d.Cr?) || (c.Cb? && d.Cb?) {
      SameRow(chroma, c.row, c.column, d.row, d.column);
    }
  }

  lemma Yv12CellInside(width: nat, height: nat, stride: nat, c: Cell)
    requires width % 2 == 0 && height % 2 == 0 && width <= stride && InFrame(c, width, height)
    ensures Address(Yv12(height, stride), c) < height * stride + Align16(stride / 2) * height
  {
    var chroma := Align16(stride / 2);
    hide Yv12, Address;
    Yv12Address(height, stride, c);
    AtIs(0, stride, height);
    AtIs(0, chroma, height);
    AtEven(chroma, height / 2);
    AtApart(0, if c.Luma? then stride else chroma, c.row, if c.Luma? then height else height / 2);
  }

  /** So the conversion leaves in a YV12 buffer exactly the cells of the frame. */
  lemma Yv12Fits(width: nat, height: nat, stride: nat, size: nat)
    requires width % 2 == 0 && height % 2 == 0 && width <= stride
    requires height * stride + Align16(stride / 2) * height <= size
    ensures Disjoint(Yv12(height, stride), width, height) && Inside(Yv12(height, stride), width, height, size)
  {
    hide Yv12, Address, Align16;
    forall c | InFrame(c, width, height)
      ensures Address(Yv12(height, stride), c) < size
    {
      Yv12CellInside(width, height, stride, c);
    }
    forall c, d | InFrame(c, width, height) && InFrame(d, width, height)
                  && Address(Yv12(height, stride), c) == Address(Yv12(height, stride), d)
      ensures c == d
    {
      Yv12CellsApart(width, height, stride, c, d);
    }
  }
}
