/** Colour-to-depth alignment: resamples the colour image at depth resolution
    through the per-depth-pixel table of fractional colour coordinates, rounding
    each coordinate (+0.5, then truncation) and clamping it to the colour image. */
module ColorAlignment {
  import opened Numpy

  /** Default resolution of the colour camera. */
  const DefaultColorHeight: nat := 1080
  const DefaultColorWidth: nat := 1920

  newtype Byte = x: int | 0 <= x < 256

  /** One 4-channel (BGRA) colour sample. */
  datatype Pixel = Pixel(b: Byte, g: Byte, r: Byte, a: Byte)

  /** The fractional colour-image coordinate that one depth pixel maps to. */
  datatype ColorPoint = ColorPoint(x: real, y: real)

  /** Row-major position of (r, c) in an h×w grid flattened to one axis. */
  function FlatIndex(r: nat, c: nat, h: nat, w: nat): (k: nat)
    requires r < h && c < w
    ensures k < h * w && k / w == r && k % w == c
  {
    FlatIndexFacts(r, c, h, w);
    r * w + c
  }

  lemma FlatIndexFacts(r: nat, c: nat, h: nat, w: nat)
    requires r < h && c < w
    ensures r * w + c < h * w
    ensures (r * w + c) / w == r && (r * w + c) % w == c
  {
    var k := r * w + c;
    assert (r + 1) * w <= h * w by {
      MulMonotone(r + 1, h, w);
    }
    var d := k / w - r;
    assert w * d == c - k % w;
    if d >= 1 {
      MulMonotone(1, d, w);
    }
  }

  lemma MulMonotone(a: nat, b: nat, w: nat)
    requires a <= b
    ensures a * w <= b * w
  {
    assert b * w - a * w == (b - a) * w;
  }

  /** Colour-image row or column for one fractional coordinate: add 0.5,
      truncate toward zero, clamp into [0, size-1]. */
  function ColorIndex(coord: real, size: nat): (k: nat)
    requires size > 0
    ensures k < size
  {
    Clip(Trunc(coord + 0.5), 0, size - 1)
  }

  /** Truncation behaves like floor here: the two differ only on negative
      values, and the clamp sends both to 0 there. */
  lemma ColorIndexIsClampedFloor(coord: real, size: nat)
    requires size > 0
    ensures ColorIndex(coord, size) == Clip((coord + 0.5).Floor, 0, size - 1)
  {
  }

  /** Inside the image the index is the nearest pixel centre (ties go up). */
  lemma ColorIndexRoundsToNearest(coord: real, size: nat)
    requires size > 0 && -0.5 <= coord < size as real - 0.5
    ensures coord - 0.5 < ColorIndex(coord, size) as real <= coord + 0.5
  {
  }

  /** Coordinates left of (or above) the first pixel centre's upper half land on
      the first column (row), and only those. */
  lemma ColorIndexLeftBorder(coord: real, size: nat)
    requires size >= 2
    ensures ColorIndex(coord, size) == 0 <==> coord < 0.5
  {
  }

  /** Coordinates from the last pixel's lower half onward, including every one
      past the right (bottom) edge, land on the last column (row), and only those. */
  lemma ColorIndexRightBorder(coord: real, size: nat)
    requires size >= 2
    ensures ColorIndex(coord, size) == size - 1 <==> coord >= size as real - 1.5
  {
  }

  /** A correspondence far outside a 1920×1080 colour frame, (-100, 5000),
      samples column 0 of row 1079. */
  lemma FarOutsideSamplesCorner()
    ensures ColorIndex(-100.0, DefaultColorWidth) == 0
    ensures ColorIndex(5000.0, DefaultColorHeight) == DefaultColorHeight - 1
  {
    ColorIndexLeftBorder(-100.0, DefaultColorWidth);
    ColorIndexRightBorder(5000.0, DefaultColorHeight);
  }

  /** The colour image has at least the declared (nonzero) number of rows and columns. */
  predicate CoversColor(colorImg: seq<seq<Pixel>>, colorHeight: nat, colorWidth: nat)
  {
    Rectangular(colorImg) && 0 < colorHeight <= |colorImg| && 0 < colorWidth <= Width(colorImg)
  }

  /** The colour sample one correspondence entry points at. */
  function SourcePixel(colorImg: seq<seq<Pixel>>, colorHeight: nat, colorWidth: nat, p: ColorPoint): Pixel
    requires CoversColor(colorImg, colorHeight, colorWidth)
  {
    colorImg[ColorIndex(p.y, colorHeight)][ColorIndex(p.x, colorWidth)]
  }

  /** Alignment never invents a colour: every sample it takes is a pixel of the
      colour image inside the declared bounds. */
  lemma SourcePixelIsColorPixel(colorImg: seq<seq<Pixel>>, colorHeight: nat, colorWidth: nat, p: ColorPoint)
    requires CoversColor(colorImg, colorHeight, colorWidth)
    ensures exists row, col :: 0 <= row < colorHeight && 0 <= col < colorWidth
                            && SourcePixel(colorImg, colorHeight, colorWidth, p) == colorImg[row][col]
  {
    var row, col := ColorIndex(p.y, colorHeight), ColorIndex(p.x, colorWidth);
    assert SourcePixel(colorImg, colorHeight, colorWidth, p) == colorImg[row][col];
  }

  /** The aligned image: depth-resolution, and pixel (r, c) is the colour sample
      that table entry r*depthWidth + c points at. */
  ghost predicate IsAlignedImage(aligned: array2<Pixel>, colorImg: seq<seq<Pixel>>, table: seq<ColorPoint>,
                                 colorHeight: nat, colorWidth: nat, depthHeight: nat, depthWidth: nat)
    reads aligned
    requires CoversColor(colorImg, colorHeight, colorWidth)
    requires |table| == depthHeight * depthWidth
  {
    && aligned.Length0 == depthHeight && aligned.Length1 == depthWidth
    && forall r, c :: 0 <= r < depthHeight && 0 <= c < depthWidth ==>
         aligned[r, c] == SourcePixel(colorImg, colorHeight, colorWidth,
                                      table[FlatIndex(r, c, depthHeight, depthWidth)])
  }

  /** Allocates a zeroed depth-resolution 4-channel image and fills every pixel
      from the colour image through the correspondence table. */
  method AlignColorImage(colorImg: seq<seq<Pixel>>, table: seq<ColorPoint>,
                         colorHeight: nat, colorWidth: nat, depthHeight: nat, depthWidth: nat)
    returns (aligned: array2<Pixel>)
    requires CoversColor(colorImg, colorHeight, colorWidth)
    requires |table| == depthHeight * depthWidth
    ensures fresh(aligned)
    ensures IsAlignedImage(aligned, colorImg, table, colorHeight, colorWidth, depthHeight, depthWidth)
  {
    aligned := new Pixel[depthHeight, depthWidth]((_, _) => Pixel(0, 0, 0, 0));
    for r := 0 to depthHeight
      invariant forall i, j :: 0 <= i < r && 0 <= j < depthWidth ==>
        aligned[i, j] == SourcePixel(colorImg, colorHeight, colorWidth, table[FlatIndex(i, j, depthHeight, depthWidth)])
    {
      for c := 0 to depthWidth
        invariant forall i, j :: 0 <= i < r && 0 <= j < depthWidth ==>
          aligned[i, j] == SourcePixel(colorImg, colorHeight, colorWidth, table[FlatIndex(i, j, depthHeight, depthWidth)])
        invariant forall j :: 0 <= j < c ==>
          aligned[r, j] == SourcePixel(colorImg, colorHeight, colorWidth, table[FlatIndex(r, j, depthHeight, depthWidth)])
      {
        var p := table[FlatIndex(r, c, depthHeight, depthWidth)];
        aligned[r, c] := colorImg[ColorIndex(p.y, colorHeight)][ColorIndex(p.x, colorWidth)];
      }
    }
  }
}
