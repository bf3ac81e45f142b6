/** Pixel buffers as the converters hold them (numpy arrays of 8-bit values).
    An image is a rectangular grid of 3-channel pixels, a plane a rectangular
    grid of single bytes (a grayscale image or an edge mask). The operations
    here are the exact integer ones the converters apply between library
    calls: channel swaps, gray-to-colour expansion, bitwise not/and/or,
    thresholding and the palette remap `centers[labels]`. */
module Raster {

  datatype Option<T> = None | Some(value: T)

  type Byte = bv8

  /** One pixel; the channel order (BGR or RGB) is the one the image is in. */
  datatype Pixel = Pixel(c0: Byte, c1: Byte, c2: Byte)

  const Black := Pixel(0, 0, 0)

  /** Every row has the length of the first one. */
  predicate Rectangular<T>(g: seq<seq<T>>) {
    forall i :: 0 <= i < |g| ==> |g[i]| == |g[0]|
  }

  type Grid<T> = g: seq<seq<T>> | Rectangular(g) witness []
  type Image = Grid<Pixel>
  type Plane = Grid<Byte>

  function Height<T>(g: Grid<T>): nat { |g| }

  function Width<T>(g: Grid<T>): nat { if |g| == 0 then 0 else |g[0]| }

  function PixelCount<T>(g: Grid<T>): nat { Height(g) * Width(g) }

  predicate InGrid<T>(g: Grid<T>, i: int, j: int) {
    0 <= i < Height(g) && 0 <= j < Width(g)
  }

  predicate SameShape<T, U>(a: Grid<T>, b: Grid<U>) {
    Height(a) == Height(b) && Width(a) == Width(b)
  }

  /** The grid of height h and width w whose cell (i, j) is f(i, j). */
  function Build<T>(h: nat, w: nat, f: (nat, nat) -> T): (g: Grid<T>)
    ensures Height(g) == h && Width(g) == (if h == 0 then 0 else w)
    ensures forall i, j :: 0 <= i < h && 0 <= j < w ==> g[i][j] == f(i, j)
  {
    seq(h, i requires 0 <= i < h => seq(w, j requires 0 <= j < w => f(i, j)))
  }

  /** Applies a colour map to every pixel. */
  function MapPixels(img: Image, f: Pixel -> Pixel): (r: Image)
    ensures SameShape(r, img)
    ensures forall i, j :: InGrid(img, i, j) ==> r[i][j] == f(img[i][j])
  {
    Build(Height(img), Width(img), (i, j) => if InGrid(img, i, j) then f(img[i][j]) else Black)
  }

  // ---------------------------------------------------------------------
  // Colour conversions that are exact channel moves

  /** cvtColor BGR2RGB (and RGB2BGR): the first and last channels trade places. */
  function SwapRedBlue(img: Image): (r: Image)
    ensures SameShape(r, img)
    ensures forall i, j :: InGrid(img, i, j) ==>
      r[i][j].c0 == img[i][j].c2 && r[i][j].c1 == img[i][j].c1 && r[i][j].c2 == img[i][j].c0
  {
    MapPixels(img, (p: Pixel) => Pixel(p.c2, p.c1, p.c0))
  }

  /** Swapping twice gives the image back: BGR2RGB undoes RGB2BGR. */
  lemma SwapRedBlueTwice(img: Image)
    ensures SwapRedBlue(SwapRedBlue(img)) == img
  {
    var r := SwapRedBlue(SwapRedBlue(img));
    forall i | 0 <= i < |img|
      ensures r[i] == img[i]
    {
      assert |r[i]| == Width(r) == Width(img) == |img[i]|;
      forall j | 0 <= j < |img[i]|
        ensures r[i][j] == img[i][j]
      {
        assert InGrid(img, i, j);
      }
    }
  }

  /** cvtColor GRAY2BGR (and GRAY2RGB): the value is copied into all three channels. */
  function GrayToColor(m: Plane): (r: Image)
    ensures SameShape(r, m)
    ensures forall i, j :: InGrid(m, i, j) ==> r[i][j] == Pixel(m[i][j], m[i][j], m[i][j])
  {
    Build(Height(m), Width(m), (i, j) => if InGrid(m, i, j) then Pixel(m[i][j], m[i][j], m[i][j]) else Black)
  }

  // ---------------------------------------------------------------------
  // Masks: planes holding only 0 and 255

  predicate IsMask(m: Plane) {
    forall i, j :: 0 <= i < Height(m) && 0 <= j < Width(m) ==> m[i][j] == 0 || m[i][j] == 255
  }

  /** The 0/255 plane whose cell (i, j) is 255 exactly when flag(i, j) holds. */
  function FromFlags(h: nat, w: nat, flag: (nat, nat) -> bool): (m: Plane)
    ensures Height(m) == h && Width(m) == (if h == 0 then 0 else w)
    ensures IsMask(m)
    ensures forall i, j :: 0 <= i < h && 0 <= j < w ==> (m[i][j] == 255 <==> flag(i, j))
  {
    Build(h, w, (i, j) => if flag(i, j) then 255 as Byte else 0)
  }

  /** cv2.bitwise_not. */
  function Not(m: Plane): (r: Plane)
    ensures SameShape(r, m)
    ensures forall i, j :: InGrid(m, i, j) ==> r[i][j] == 255 - m[i][j]
    ensures IsMask(m) ==> IsMask(r) && forall i, j :: InGrid(m, i, j) ==> (r[i][j] == 255 <==> m[i][j] == 0)
  {
    Build(Height(m), Width(m), (i, j) => if InGrid(m, i, j) then !m[i][j] else 0)
  }

  /** cv2.bitwise_and of two planes. */
  function And(a: Plane, b: Plane): (r: Plane)
    requires SameShape(a, b)
    ensures SameShape(r, a)
    ensures IsMask(a) && IsMask(b) ==>
      IsMask(r) && forall i, j :: InGrid(a, i, j) ==> (r[i][j] == 255 <==> a[i][j] == 255 && b[i][j] == 255)
  {
    Build(Height(a), Width(a), (i, j) => if InGrid(a, i, j) then a[i][j] & b[i][j] else 0)
  }

  /** cv2.bitwise_or of two planes. */
  function Or(a: Plane, b: Plane): (r: Plane)
    requires SameShape(a, b)
    ensures SameShape(r, a)
    ensures IsMask(a) && IsMask(b) ==>
      IsMask(r) && forall i, j :: InGrid(a, i, j) ==> (r[i][j] == 255 <==> a[i][j] == 255 || b[i][j] == 255)
  {
    Build(Height(a), Width(a), (i, j) => if InGrid(a, i, j) then a[i][j] | b[i][j] else 0)
  }

  /** cv2.threshold with THRESH_BINARY_INV: maxValue where the value is at
      most the threshold, 0 where it is above. */
  function ThresholdBinaryInv(p: Plane, thresh: Byte): (m: Plane)
    ensures SameShape(m, p) && IsMask(m)
    ensures forall i, j :: InGrid(p, i, j) ==> (m[i][j] == 255 <==> p[i][j] <= thresh)
  {
    FromFlags(Height(p), Width(p), (i, j) => InGrid(p, i, j) && p[i][j] <= thresh)
  }

  // ---------------------------------------------------------------------
  // Fusion: cv2.bitwise_and of a colour image with a 3-channel copy of a mask

  function AndPixel(p: Pixel, q: Pixel): Pixel {
    Pixel(p.c0 & q.c0, p.c1 & q.c1, p.c2 & q.c2)
  }

  /** cv2.bitwise_and of two colour images. */
  function BitwiseAnd(a: Image, b: Image): (r: Image)
    requires SameShape(a, b)
    ensures SameShape(r, a)
    ensures forall i, j :: InGrid(a, i, j) ==> r[i][j] == AndPixel(a[i][j], b[i][j])
  {
    Build(Height(a), Width(a), (i, j) => if InGrid(a, i, j) then AndPixel(a[i][j], b[i][j]) else Black)
  }

  /** Fusing an image with a 0/255 mask: black where the mask is 0, the
      image's own pixel where it is 255. */
  lemma FuseWithMask(q: Image, m: Plane)
    requires SameShape(q, m) && IsMask(m)
    ensures SameShape(BitwiseAnd(q, GrayToColor(m)), q)
    ensures forall i, j :: InGrid(q, i, j) ==>
      BitwiseAnd(q, GrayToColor(m))[i][j] == (if m[i][j] == 0 then Black else q[i][j])
  {
    var e := GrayToColor(m);
    var r := BitwiseAnd(q, e);
    forall i, j | InGrid(q, i, j)
      ensures r[i][j] == (if m[i][j] == 0 then Black else q[i][j])
    {
      var p := q[i][j];
      assert r[i][j] == AndPixel(p, e[i][j]);
      if m[i][j] == 0 {
        assert e[i][j] == Black;
      } else {
        assert e[i][j] == Pixel(255, 255, 255);
        assert p.c0 & 255 == p.c0 && p.c1 & 255 == p.c1 && p.c2 & 255 == p.c2;
      }
    }
  }

  // ---------------------------------------------------------------------
  // Colours of an image

  function Colors(img: Image): set<Pixel> {
    set i, j | 0 <= i < Height(img) && 0 <= j < Width(img) :: img[i][j]
  }

  function Elements<T>(s: seq<T>): set<T> {
    set x | x in s
  }

  /** A sequence has at most as many distinct elements as it is long. */
  lemma {:induction false} ElementsBound<T>(s: seq<T>)
    ensures |Elements(s)| <= |s|
  {
    if |s| > 0 {
      ElementsBound(s[1..]);
      assert Elements(s) == {s[0]} + Elements(s[1..]);
    }
  }

  /** The image of a finite set under a function is no larger than the set. */
  function Mapped<T, U>(a: set<T>, f: T -> U): set<U> {
    set x | x in a :: f(x)
  }

  lemma {:induction false} ImageBound<T, U>(a: set<T>, f: T -> U)
    ensures |Mapped(a, f)| <= |a|
    decreases |a|
  {
    if a != {} {
      var x :| x in a;
      var rest := a - {x};
      ImageBound(rest, f);
      assert Mapped(a, f) == Mapped(rest, f) + {f(x)};
    }
  }

  /** A colour map never increases the number of distinct colours. */
  lemma MapPixelsColors(img: Image, f: Pixel -> Pixel)
    ensures |Colors(MapPixels(img, f))| <= |Colors(img)|
  {
    var r := MapPixels(img, f);
    var image := Mapped(Colors(img), f);
    forall c | c in Colors(r) ensures c in image {
      var i, j :| 0 <= i < Height(r) && 0 <= j < Width(r) && r[i][j] == c;
      var x := img[i][j];
      assert x in Colors(img);
      assert c == f(x);
    }
    SubsetBound(Colors(r), image);
    ImageBound(Colors(img), f);
  }

  /** Fusing with a mask adds at most one colour, black. */
  lemma FuseColors(q: Image, m: Plane)
    requires SameShape(q, m) && IsMask(m)
    ensures |Colors(BitwiseAnd(q, GrayToColor(m)))| <= |Colors(q)| + 1
  {
    var r := BitwiseAnd(q, GrayToColor(m));
    FuseWithMask(q, m);
    forall c | c in Colors(r) ensures c in Colors(q) + {Black} {
      var i, j :| 0 <= i < Height(r) && 0 <= j < Width(r) && r[i][j] == c;
      if m[i][j] != 0 {
        assert q[i][j] in Colors(q);
      }
    }
    SubsetBound(Colors(r), Colors(q) + {Black});
    assert |Colors(q) + {Black}| <= |Colors(q)| + 1;
  }

  /** Painting the edges of a 0/255 mask black onto an image:
      `cv2.bitwise_and(q, cvtColor(m, GRAY2BGR))`. Where the mask is 0 the
      pixel is black, where it is 255 the image's pixel is kept, and at most
      one colour (black) is added. */
  function Fuse(q: Image, m: Plane): (r: Image)
    requires SameShape(q, m) && IsMask(m)
    ensures SameShape(r, q)
    ensures forall i, j :: InGrid(q, i, j) ==> r[i][j] == if m[i][j] == 0 then Black else q[i][j]
    ensures |Colors(r)| <= |Colors(q)| + 1
  {
    FuseWithMask(q, m);
    FuseColors(q, m);
    BitwiseAnd(q, GrayToColor(m))
  }

  // ---------------------------------------------------------------------
  // Flattening and the palette remap

  lemma CellIndex(i: nat, j: nat, h: nat, w: nat)
    requires i < h && j < w
    ensures i * w + j < h * w
  {
    assert i * w + j < (i + 1) * w;
    assert (i + 1) * w <= h * w;
  }

  lemma SplitIndex(p: nat, h: nat, w: nat)
    requires p < h * w
    ensures w > 0 && p / w < h && p % w < w
  {
    var i := p / w;
    assert p == i * w + p % w;
    if i >= h {
      MulMono(h, i, w);
    }
  }

  lemma MulMono(a: nat, b: nat, c: nat)
    requires a <= b
    ensures a * c <= b * c
  {
  }

  /** An image at least h high and w wide has at least h*w pixels. */
  lemma PixelCountAtLeast<T>(g: Grid<T>, h: nat, w: nat)
    requires h <= Height(g) && w <= Width(g)
    ensures h * w <= PixelCount(g)
  {
    MulMono(h, Height(g), w);
    MulMono(w, Width(g), Height(g));
  }

  /** image.reshape((-1, 3)): the pixels in row-major order. */
  function Flatten(img: Image): (s: seq<Pixel>)
    ensures |s| == PixelCount(img)
    ensures forall i, j :: InGrid(img, i, j) ==> i * Width(img) + j < |s| && s[i * Width(img) + j] == img[i][j]
  {
    var h, w := Height(img), Width(img);
    RowMajorCells(img);
    seq(h * w, p requires 0 <= p < h * w => SplitIndex(p, h, w); img[p / w][p % w])
  }

  /** Row-major numbering: cell (i, j) of a w-wide grid is sample i * w + j,
      which splits back into row i and column j. */
  lemma RowMajor(i: nat, j: nat, w: nat)
    requires j < w
    ensures (i * w + j) / w == i && (i * w + j) % w == j
  {
    var p := i * w + j;
    var q, r := p / w, p % w;
    assert p == q * w + r && 0 <= r < w;
    if q < i {
      assert (q + 1) * w == q * w + w;
      MulMono(q + 1, i, w);
    } else if q > i {
      assert (i + 1) * w == i * w + w;
      MulMono(i + 1, q, w);
    }
  }

  lemma RowMajorCells<T>(g: Grid<T>)
    ensures forall i, j :: InGrid(g, i, j) ==>
      i * Width(g) + j < PixelCount(g) && (i * Width(g) + j) / Width(g) == i && (i * Width(g) + j) % Width(g) == j
  {
    forall i, j | InGrid(g, i, j)
      ensures i * Width(g) + j < PixelCount(g) && (i * Width(g) + j) / Width(g) == i && (i * Width(g) + j) % Width(g) == j
    {
      CellIndex(i, j, Height(g), Width(g));
      RowMajor(i, j, Width(g));
    }
  }

  /** The label of the sample at row i, column j of an h-by-w image, in the
      row-major order Flatten uses. */
  function LabelAt(labels: seq<nat>, h: nat, w: nat, i: nat, j: nat): nat
    requires |labels| == h * w && i < h && j < w
  {
    CellIndex(i, j, h, w);
    labels[i * w + j]
  }

  lemma LabelAtFits(labels: seq<nat>, k: nat, h: nat, w: nat, i: nat, j: nat)
    requires |labels| == h * w && i < h && j < w && LabelsFit(labels, k)
    ensures LabelAt(labels, h, w, i, j) < k
  {
    CellIndex(i, j, h, w);
  }

  predicate LabelsFit(labels: seq<nat>, k: nat) {
    forall p :: 0 <= p < |labels| ==> labels[p] < k
  }

  /** centers[labels.flatten()].reshape(h, w, 3): each pixel becomes the centre
      its label names, so every output pixel is one of the centres. */
  function Remap(centers: seq<Pixel>, labels: seq<nat>, h: nat, w: nat): (r: Image)
    requires |labels| == h * w && LabelsFit(labels, |centers|)
    ensures Height(r) == h && Width(r) == (if h == 0 then 0 else w)
    ensures forall i: nat, j: nat :: i < h && j < w ==>
      LabelAt(labels, h, w, i, j) < |centers| && r[i][j] == centers[LabelAt(labels, h, w, i, j)]
    ensures forall i, j :: 0 <= i < h && 0 <= j < w ==> r[i][j] in centers
    ensures |Colors(r)| <= |centers|
  {
    var r := seq(h, i requires 0 <= i < h => seq(w, j requires 0 <= j < w =>
      LabelAtFits(labels, |centers|, h, w, i, j); centers[LabelAt(labels, h, w, i, j)]));
    assert forall i: nat, j: nat :: i < h && j < w ==> LabelAt(labels, h, w, i, j) < |centers| by {
      forall i: nat, j: nat | i < h && j < w ensures LabelAt(labels, h, w, i, j) < |centers| {
        LabelAtFits(labels, |centers|, h, w, i, j);
      }
    }
    assert Colors(r) <= Elements(centers);
    SubsetBound(Colors(r), Elements(centers));
    ElementsBound(centers);
    r
  }

  lemma SubsetBound<T>(a: set<T>, b: set<T>)
    requires a <= b
    ensures |a| <= |b|
  {
    assert b == a + (b - a);
  }
}
