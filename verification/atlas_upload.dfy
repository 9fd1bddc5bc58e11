/** Uploading the font atlas pixels: the atlas is stored top row first, the engine's
    texture bottom row first, so rows are copied in reverse order, `stride` bytes each
    (width times bytes per pixel). */
module AtlasUpload {
  import opened Common

  lemma MulMono(a: int, b: int, c: int)
    requires a <= b && c >= 0
    ensures a * c <= b * c
  {
    assert b * c - a * c == (b - a) * c;
  }

  /** Quotient and remainder are determined by any decomposition k == q * d + r. */
  lemma DivModUnique(k: int, d: int, q: int, r: int)
    requires d > 0 && 0 <= r < d && k == q * d + r
    ensures k / d == q && k % d == r
  {
    var q' := k / d;
    var r' := k % d;
    assert k == q' * d + r';
    if q' > q {
      MulMono(q + 1, q', d);
    } else if q' < q {
      MulMono(q' + 1, q, d);
    }
  }

  /** Byte x of row y lies inside an image of `height` rows. */
  lemma RowBounds(height: nat, stride: nat, y: nat, x: nat)
    requires y < height && x < stride
    ensures y * stride + x < height * stride
  {
    MulMono(y + 1, height, stride);
    assert (y + 1) * stride == y * stride + stride;
  }

  /** Destination byte at (row y, column x) of the flipped image. */
  function FlippedIndex(height: nat, stride: nat, y: nat, x: nat): (k: nat)
    requires y < height && x < stride
    ensures k < height * stride
  {
    RowBounds(height, stride, height - 1 - y, x);
    (height - 1 - y) * stride + x
  }

  /** Which row and column of the source destination byte k comes from. */
  lemma RowOf(height: nat, stride: nat, k: nat)
    requires k < height * stride
    ensures stride > 0 && k / stride < height && k % stride < stride
  {
    assert stride > 0;
    var q := k / stride;
    assert q * stride <= k;
    if height <= q {
      MulMono(height, q, stride);
    }
  }

  /** The source byte that destination byte k receives: same column, mirrored row. */
  function SourceIndex(height: nat, stride: nat, k: nat): (j: nat)
    requires k < height * stride
    ensures j < height * stride
  {
    RowOf(height, stride, k);
    FlippedIndex(height, stride, k / stride, k % stride)
  }

  /** The atlas image with its rows in reverse order. */
  function FlipRows(src: seq<u8>, height: nat, stride: nat): (dst: seq<u8>)
    requires |src| == height * stride
    ensures |dst| == |src|
  {
    seq(|src|, k requires 0 <= k < |src| => src[SourceIndex(height, stride, k)])
  }

  /** Row y of the source lands on row height - 1 - y of the destination. */
  lemma FlipAt(src: seq<u8>, height: nat, stride: nat, y: nat, x: nat)
    requires |src| == height * stride && y < height && x < stride
    ensures y * stride + x < |src|
    ensures FlipRows(src, height, stride)[FlippedIndex(height, stride, y, x)] == src[y * stride + x]
  {
    RowBounds(height, stride, y, x);
    var k := FlippedIndex(height, stride, y, x);
    DivModUnique(k, stride, height - 1 - y, x);
  }

  /** Every destination byte is written by exactly one (row, column) of the source. */
  lemma EachByteWrittenOnce(height: nat, stride: nat, k: nat)
    requires k < height * stride
    ensures exists y: nat, x: nat :: y < height && x < stride && FlippedIndex(height, stride, y, x) == k
    ensures forall y1: nat, x1: nat, y2: nat, x2: nat ::
      y1 < height && x1 < stride && y2 < height && x2 < stride
      && FlippedIndex(height, stride, y1, x1) == k && FlippedIndex(height, stride, y2, x2) == k
      ==> y1 == y2 && x1 == x2
  {
    RowOf(height, stride, k);
    var y := height - 1 - k / stride;
    var x := k % stride;
    assert FlippedIndex(height, stride, y, x) == k;
    forall y1: nat, x1: nat | y1 < height && x1 < stride && FlippedIndex(height, stride, y1, x1) == k
      ensures y1 == y && x1 == x
    {
      DivModUnique(k, stride, height - 1 - y1, x1);
    }
  }

  /** Flipping twice gives back the original image. */
  lemma FlipTwice(src: seq<u8>, height: nat, stride: nat)
    requires |src| == height * stride
    ensures FlipRows(FlipRows(src, height, stride), height, stride) == src
  {
    forall k | 0 <= k < |src|
      ensures FlipRows(FlipRows(src, height, stride), height, stride)[k] == src[k]
    {
      FlipTwiceAt(src, height, stride, k);
    }
  }

  lemma FlipTwiceAt(src: seq<u8>, height: nat, stride: nat, k: nat)
    requires |src| == height * stride && k < |src|
    ensures FlipRows(FlipRows(src, height, stride), height, stride)[k] == src[k]
  {
    RowOf(height, stride, k);
    var y := k / stride;
    var x := k % stride;
    var j := FlippedIndex(height, stride, y, x);
    DivModUnique(j, stride, height - 1 - y, x);
    FlipAt(src, height, stride, y, x);
  }

  /** Copying source row y (bytes from `from`) into destination row height - 1 - y (bytes
      from `lo`) extends the flipped suffix of the destination by one row. */
  lemma CopyRowStep(src: seq<u8>, height: nat, stride: nat, y: nat, dst: seq<u8>, lo: nat, from: nat)
    requires |src| == height * stride && y < height && |dst| == |src|
    requires lo == (height - y - 1) * stride && from == y * stride
    requires forall k :: (height - y) * stride <= k < |src| ==> dst[k] == FlipRows(src, height, stride)[k]
    ensures from + stride <= |src| && lo + stride <= |dst|
    ensures forall k :: lo <= k < |src| ==> Splice(dst, lo, src[from .. from + stride])[k] == FlipRows(src, height, stride)[k]
  {
    MulMono(y + 1, height, stride);
    MulMono(height - y, height, stride);
    assert (y + 1) * stride == y * stride + stride;
    assert lo + stride == (height - y) * stride;
    var dst' := Splice(dst, lo, src[from .. from + stride]);
    forall k | lo <= k < lo + stride
      ensures dst'[k] == FlipRows(src, height, stride)[k]
    {
      var x := k - lo;
      FlipAt(src, height, stride, y, x);
      assert k == FlippedIndex(height, stride, y, x);
    }
  }

  /** Copies the atlas pixels into the texture, row y into row height - y - 1. */
  method CreateAtlasTexture(src: seq<u8>, width: nat, height: nat, bytesPerPixel: nat) returns (dst: seq<u8>)
    requires |src| == width * height * bytesPerPixel
    ensures height * (width * bytesPerPixel) == |src|
    ensures dst == FlipRows(src, height, width * bytesPerPixel)
  {
    var stride := width * bytesPerPixel;
    Reassociate(width, height, bytesPerPixel);
    ghost var flipped := FlipRows(src, height, stride);
    dst := seq(|src|, _ => 0);
    ghost var done := |src|;
    var y := 0;
    while y < height
      invariant 0 <= y <= height
      invariant |dst| == |src| && done == (height - y) * stride
      invariant forall k :: done <= k < |src| ==> dst[k] == flipped[k]
    {
      var rowStart := (height - y - 1) * stride;
      MulMono(0, height - y - 1, stride);
      MulMono(0, y, stride);
      assert rowStart == (height - (y + 1)) * stride;
      CopyRowStep(src, height, stride, y, dst, rowStart, y * stride);
      dst := Splice(dst, rowStart, src[y * stride .. y * stride + stride]);
      done := rowStart;
      y := y + 1;
    }
  }

  lemma Reassociate(width: nat, height: nat, bytesPerPixel: nat)
    ensures width * height * bytesPerPixel == height * (width * bytesPerPixel)
  {
    assert width * height == height * width;
  }
}
