/** The row copies that put a picture on a surface in VirtualCameraService.cpp. */
module CopyFrame {
  import opened Bits
  import opened Strides

  /** rows rows of width bytes, one every stride bytes, fit in len bytes. */
  predicate Reaches(len: nat, stride: nat, rows: nat, width: nat) {
    rows > 0 ==> At(0, stride, rows - 1) + width <= len
  }

  lemma {:induction false} ReachesRow(len: nat, stride: nat, rows: nat, width: nat, k: nat)
    requires Reaches(len, stride, rows, width) && k < rows
    ensures At(0, stride, k) + width <= len
  {
    if k < rows - 1 {
      AtApart(0, stride, k, rows - 1);
    }
  }

  lemma ReachesLess(len: nat, stride: nat, rows: nat, width: nat)
    requires Reaches(len, stride, rows, width) && rows > 0
    ensures Reaches(len, stride, rows - 1, width)
  {
    if rows > 1 {
      ReachesRow(len, stride, rows, width, rows - 2);
    }
  }

  function CopyRow(dest: seq<byte>, src: seq<byte>, d: nat, s: nat, width: nat): (r: seq<byte>)
    requires d + width <= |dest| && s + width <= |src|
    ensures |r| == |dest|
  {
    dest[..d] + src[s..s + width] + dest[d + width..]
  }

  /** A plain copy of the first `rows` rows, one after the other. */
  ghost function CopyRows(dest: seq<byte>, src: seq<byte>, width: nat, strideSrc: nat, strideDest: nat, rows: nat): (r: seq<byte>)
    requires Reaches(|src|, strideSrc, rows, width) && Reaches(|dest|, strideDest, rows, width)
    ensures |r| == |dest|
    decreases rows
  {
    if rows == 0 then dest
    else
      ReachesLess(|src|, strideSrc, rows, width);
      ReachesLess(|dest|, strideDest, rows, width);
      CopyRow(CopyRows(dest, src, width, strideSrc, strideDest, rows - 1), src,
              At(0, strideDest, rows - 1), At(0, strideSrc, rows - 1), width)
  }

  lemma NoRows(dest: seq<byte>, src: seq<byte>, width: nat, strideSrc: nat, strideDest: nat)
    ensures Reaches(|src|, strideSrc, 0, width) && Reaches(|dest|, strideDest, 0, width)
    ensures At(0, strideSrc, 0) == 0 && At(0, strideDest, 0) == 0
    ensures CopyRows(dest, src, width, strideSrc, strideDest, 0) == dest
  {
  }

  lemma CopyRowAt(dest: seq<byte>, src: seq<byte>, d: nat, s: nat, width: nat, p: nat)
    requires d + width <= |dest| && s + width <= |src| && p < |dest|
    ensures CopyRow(dest, src, d, s, width)[p] == if d <= p < d + width then src[s + p - d] else dest[p]
  {
  }

  /** C's remainder. */
  function Rem(a: int, b: nat): int
    requires b > 0
  {
    if a >= 0 then a % b else -((-a) % b)
  }

  /** How many rows sCopyFrame copies. */
  function Copied(height: int): nat {
    if height <= 0 then 0 else if height % 8 == 0 then height else height + 8
  }

  /** Every byte of the copied rows arrives and every other byte stays, when rows do not overlap. */
  lemma {:induction false} CopyRowsAt(dest: seq<byte>, src: seq<byte>, width: nat, strideSrc: nat, strideDest: nat, rows: nat,
                                      k: nat, i: nat)
    requires Reaches(|src|, strideSrc, rows, width) && Reaches(|dest|, strideDest, rows, width)
    requires width <= strideDest && k < rows && i < width
    ensures At(0, strideDest, k) + i < |dest| && At(0, strideSrc, k) + i < |src|
    ensures CopyRows(dest, src, width, strideSrc, strideDest, rows)[At(0, strideDest, k) + i] == src[At(0, strideSrc, k) + i]
    decreases rows
  {
    hide CopyRow, At, Reaches;
    ReachesRow(|src|, strideSrc, rows, width, k);
    ReachesRow(|dest|, strideDest, rows, width, k);
    ReachesRow(|src|, strideSrc, rows, width, rows - 1);
    ReachesRow(|dest|, strideDest, rows, width, rows - 1);
    ReachesLess(|src|, strideSrc, rows, width);
    ReachesLess(|dest|, strideDest, rows, width);
    var before := CopyRows(dest, src, width, strideSrc, strideDest, rows - 1);
    CopyRowAt(before, src, At(0, strideDest, rows - 1), At(0, strideSrc, rows - 1), width, At(0, strideDest, k) + i);
    if k < rows - 1 {
      AtApart(0, strideDest, k, rows - 1);
      CopyRowsAt(dest, src, width, strideSrc, strideDest, rows - 1, k, i);
    }
  }

  lemma {:induction false} CopyRowsFrame(dest: seq<byte>, src: seq<byte>, width: nat, strideSrc: nat, strideDest: nat, rows: nat, p: nat)
    requires Reaches(|src|, strideSrc, rows, width) && Reaches(|dest|, strideDest, rows, width)
    requires p < |dest|
    requires forall k: nat :: k < rows ==> p < At(0, strideDest, k) || At(0, strideDest, k) + width <= p
    ensures CopyRows(dest, src, width, strideSrc, strideDest, rows)[p] == dest[p]
    decreases rows
  {
    if rows > 0 {
      ReachesLess(|src|, strideSrc, rows, width);
      ReachesLess(|dest|, strideDest, rows, width);
      CopyRowsFrame(dest, src, width, strideSrc, strideDest, rows - 1, p);
    }
  }

  /** memcpy of one row. */
  method Row(src: seq<byte>, dest: array<byte>, s: nat, d: nat, width: nat)
    requires d + width <= dest.Length && s + width <= |src|
    modifies dest
    ensures dest[..] == CopyRow(old(dest[..]), src, d, s, width)
  {
    forall i | 0 <= i < width {
      dest[d + i] := src[s + i];
    }
  }

  /** One row and the pointers moved on, as the loops of sCopyFrame do it. */
  method Step(src: seq<byte>, dest: array<byte>, s: nat, d: nat, width: nat, strideSrc: nat, strideDest: nat, ghost k: nat,
              ghost rows: nat, ghost was: seq<byte>) returns (s': nat, d': nat)
    requires k < rows && |was| == dest.Length
    requires Reaches(|src|, strideSrc, rows, width) && Reaches(dest.Length, strideDest, rows, width)
    requires s == At(0, strideSrc, k) && d == At(0, strideDest, k)
    requires Reaches(|src|, strideSrc, k, width) && Reaches(dest.Length, strideDest, k, width)
    requires dest[..] == CopyRows(was, src, width, strideSrc, strideDest, k)
    modifies dest
    ensures s' == At(0, strideSrc, k + 1) && d' == At(0, strideDest, k + 1)
    ensures Reaches(|src|, strideSrc, k + 1, width) && Reaches(dest.Length, strideDest, k + 1, width)
    ensures dest[..] == CopyRows(was, src, width, strideSrc, strideDest, k + 1)
  {
    ReachesRow(|src|, strideSrc, rows, width, k);
    ReachesRow(dest.Length, strideDest, rows, width, k);
    hide CopyRow;
    Row(src, dest, s, d, width);
    s', d' := s + strideSrc, d + strideDest;
  }

  /** The eight rows of one turn of the unrolled loop. */
  method Eight(src: seq<byte>, dest: array<byte>, s: nat, d: nat, width: nat, strideSrc: nat, strideDest: nat, ghost k: nat,
               ghost rows: nat, ghost was: seq<byte>) returns (s': nat, d': nat)
    requires k + 8 <= rows && |was| == dest.Length
    requires Reaches(|src|, strideSrc, rows, width) && Reaches(dest.Length, strideDest, rows, width)
    requires s == At(0, strideSrc, k) && d == At(0, strideDest, k)
    requires Reaches(|src|, strideSrc, k, width) && Reaches(dest.Length, strideDest, k, width)
    requires dest[..] == CopyRows(was, src, width, strideSrc, strideDest, k)
    modifies dest
    ensures s' == At(0, strideSrc, k + 8) && d' == At(0, strideDest, k + 8)
    ensures Reaches(|src|, strideSrc, k + 8, width) && Reaches(dest.Length, strideDest, k + 8, width)
    ensures dest[..] == CopyRows(was, src, width, strideSrc, strideDest, k + 8)
  {
    hide CopyRows, Reaches, At;
    s', d' := Step(src, dest, s, d, width, strideSrc, strideDest, k, rows, was);
    s', d' := Step(src, dest, s', d', width, strideSrc, strideDest, k + 1, rows, was);
    s', d' := Step(src, dest, s', d', width, strideSrc, strideDest, k + 2, rows, was);
    s', d' := Step(src, dest, s', d', width, strideSrc, strideDest, k + 3, rows, was);
    s', d' := Step(src, dest, s', d', width, strideSrc, strideDest, k + 4, rows, was);
    s', d' := Step(src, dest, s', d', width, strideSrc, strideDest, k + 5, rows, was);
    s', d' := Step(src, dest, s', d', width, strideSrc, strideDest, k + 6, rows, was);
    s', d' := Step(src, dest, s', d', width, strideSrc, strideDest, k + 7, rows, was);
  }

  /** sCopyFrame: first the remainder, then blocks of eight. */
  method CopyFrame(src: seq<byte>, dest: array<byte>, width: nat, height: int, strideSrc: nat, strideDest: nat)
    requires Reaches(|src|, strideSrc, Copied(height), width) && Reaches(dest.Length, strideDest, Copied(height), width)
    modifies dest
    ensures dest[..] == CopyRows(old(dest[..]), src, width, strideSrc, strideDest, Copied(height))
  {
    hide CopyRows, Reaches, At;
    var h8 := Rem(height, 8);
    var s: nat, d: nat := 0, 0;
    ghost var was := dest[..];
    ghost var rows := Copied(height);
    NoRows(was, src, width, strideSrc, strideDest);
    var i := 0;
    while i < h8
      invariant 0 <= i && (height > 0 ==> i <= h8) && (height <= 0 ==> i == 0)
      invariant s == At(0, strideSrc, i) && d == At(0, strideDest, i)
      invariant Reaches(|src|, strideSrc, i, width) && Reaches(dest.Length, strideDest, i, width)
      invariant dest[..] == CopyRows(was, src, width, strideSrc, strideDest, i)
    {
      s, d := Step(src, dest, s, d, width, strideSrc, strideDest, i, rows, was);
      i := i + 1;
    }
    ghost var first := i;
    i := 0;
    while i < height
      invariant 0 <= i && i % 8 == 0 && (height > 0 ==> i < height + 8) && (height <= 0 ==> i == 0)
      invariant s == At(0, strideSrc, first + i) && d == At(0, strideDest, first + i)
      invariant Reaches(|src|, strideSrc, first + i, width) && Reaches(dest.Length, strideDest, first + i, width)
      invariant dest[..] == CopyRows(was, src, width, strideSrc, strideDest, first + i)
    {
      s, d := Eight(src, dest, s, d, width, strideSrc, strideDest, first + i, rows, was);
      i := i + 8;
    }
  }

  /** A picture of RGBA pixels, `rows` rows of `pixels` pixels each. */
  ghost predicate HoldsPicture(len: nat, pixels: nat, rows: nat) {
    At(0, 4 * pixels, rows) <= len
  }

  lemma PictureReaches(len: nat, pixels: nat, height: nat, width: nat, rows: nat)
    requires HoldsPicture(len, pixels, height) && width <= 4 * pixels && rows <= height
    ensures Reaches(len, 4 * pixels, rows, width)
  {
    if rows > 0 {
      AtApart(0, 4 * pixels, rows - 1, height);
    }
  }

  lemma PictureTop(len: nat, pixels: nat, height: nat, rows: nat)
    requires HoldsPicture(len, pixels, height) && rows <= height
    ensures At(0, 4 * pixels, rows) <= len
  {
    if rows < height {
      AtApart(0, 4 * pixels, rows, height);
    }
  }

  /** Rows copied for a common height: all when the strides agree, otherwise what sCopyFrame makes of ten less. */
  function RowsShown(w: nat, h: nat, bufferHeight: nat, stride: nat): nat {
    if stride == w then Min(h, bufferHeight) else Copied(Min(h, bufferHeight) - 10)
  }

  /** Taking ten off leaves room for the eight rows too many. */
  lemma RowsShownInside(w: nat, h: nat, bufferHeight: nat, stride: nat)
    ensures RowsShown(w, h, bufferHeight, stride) <= Min(h, bufferHeight)
    ensures stride != w && RowsShown(w, h, bufferHeight, stride) > 0 ==>
      Min(h, bufferHeight) - 10 <= RowsShown(w, h, bufferHeight, stride) <= Min(h, bufferHeight) - 2
  {
  }

  /** Copying whole strides at once is copying them row by row. */
  lemma {:induction false} WholeRows(dest: seq<byte>, src: seq<byte>, stride: nat, rows: nat)
    requires At(0, stride, rows) <= |src| && At(0, stride, rows) <= |dest|
    ensures Reaches(|src|, stride, rows, stride) && Reaches(|dest|, stride, rows, stride)
    ensures CopyRows(dest, src, stride, stride, stride, rows) == src[..At(0, stride, rows)] + dest[At(0, stride, rows)..]
  {
    if rows > 0 {
      AtNext(0, stride, rows - 1);
      WholeRows(dest, src, stride, rows - 1);
      var n := At(0, stride, rows - 1);
      assert src[..n] + src[n..n + stride] == src[..n + stride];
    }
  }

  /** sDirectCopyToSurface with a window that can be locked. */
  method DirectCopyToSurface(rgb: seq<byte>, w: nat, h: nat, bits: array<byte>, bufferWidth: nat, bufferHeight: nat, stride: nat)
    requires HoldsPicture(|rgb|, w, h) && HoldsPicture(bits.Length, stride, bufferHeight) && bufferWidth <= stride
    modifies bits
    ensures Reaches(|rgb|, 4 * w, RowsShown(w, h, bufferHeight, stride), 4 * Min(w, bufferWidth))
    ensures Reaches(bits.Length, 4 * stride, RowsShown(w, h, bufferHeight, stride), 4 * Min(w, bufferWidth))
    ensures stride != w ==> bits[..] == CopyRows(old(bits[..]), rgb, 4 * Min(w, bufferWidth), 4 * w, 4 * stride,
                                                 RowsShown(w, h, bufferHeight, stride))
    ensures stride == w ==>
      && Reaches(|rgb|, 4 * w, Min(h, bufferHeight), 4 * w) && Reaches(bits.Length, 4 * w, Min(h, bufferHeight), 4 * w)
      && bits[..] == CopyRows(old(bits[..]), rgb, 4 * w, 4 * w, 4 * w, Min(h, bufferHeight))
  {
    hide CopyRows, Reaches, At, HoldsPicture, CopyRow;
    RowsShownInside(w, h, bufferHeight, stride);
    PictureReaches(|rgb|, w, h, 4 * Min(w, bufferWidth), RowsShown(w, h, bufferHeight, stride));
    PictureReaches(bits.Length, stride, bufferHeight, 4 * Min(w, bufferWidth), RowsShown(w, h, bufferHeight, stride));
    if stride == w {
      var rows := Min(h, bufferHeight);
      PictureTop(|rgb|, w, h, rows);
      PictureTop(bits.Length, stride, bufferHeight, rows);
      WholeRows(bits[..], rgb, 4 * w, rows);
      Row(rgb, bits, 0, 0, At(0, 4 * w, rows));
      CopyTop(old(bits[..]), rgb, At(0, 4 * w, rows));
    } else {
      var sourceWidth, destWidth := w * 4, bufferWidth * 4;
      var width := if sourceWidth < destWidth then sourceWidth else destWidth;
      var height := if h < bufferHeight then h else bufferHeight;
      CopyFrame(rgb, bits, width, height - 10, w * 4, stride * 4);
    }
  }

  lemma CopyTop(dest: seq<byte>, src: seq<byte>, n: nat)
    requires n <= |dest| && n <= |src|
    ensures CopyRow(dest, src, 0, 0, n) == src[..n] + dest[n..]
  {
    assert dest[..0] + src[0..0 + n] == src[..n];
  }
}
