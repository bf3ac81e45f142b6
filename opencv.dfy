/** The OpenCV calls the converters make, as opaque stages.

    None of OpenCV's numerics is modelled. A `Library` value supplies, for
    every kind of call, the value the call gives at one output position:
    `filter(f, img, i, j)` is pixel (i, j) of `f` applied to `img`. The
    wrappers below build the whole output from it, so every stage returns a
    buffer of its input's shape without anything being assumed about the
    library, and stages that produce masks (thresholds, Canny, morphology on
    a mask) give 0/255 planes. The one call whose result needs a stated
    guarantee is k-means clustering: one label in [0, k) per sample and k
    centres (`KMeansSound`). */
module OpenCv {
  import opened Raster

  /** Channel order of the image a colour-space conversion starts from. */
  datatype ChannelOrder = Bgr | Rgb

  /** Filters on colour images whose output pixel depends on a neighbourhood. */
  datatype Filter =
    | Bilateral(d: int, sigmaColor: int, sigmaSpace: int)
    | NlMeansDenoise(h: int, hColor: int, templateWindow: int, searchWindow: int)
    | Convolve(kernel: seq<seq<int>>)
    | GaussianBlur(ksize: int, sigma: real)
    | ClaheLightness(clipLimit: real, tiles: int)
    | Stylization(sigmaS: int, sigmaR: real)
    | EdgePreserving(flags: int, sigmaS: int, sigmaR: real)
    | PencilSketchColor(sketch: Sketch)

  /** cv2.pencilSketch parameters. */
  datatype Sketch = Sketch(sigmaS: int, sigmaR: real, shadeFactor: real)

  /** Per-pixel colour adjustments done in floating point: convert to HSV
      (or LAB), scale channels and clip to [0, 255], truncate to uint8,
      convert back. */
  datatype Recolor =
    | HsvScale(order: ChannelOrder, saturation: real, value: real)
    | LabScale(lightness: real)

  /** cv2.addWeighted(a, alpha, b, beta, gamma). */
  datatype Weights = Weights(alpha: real, beta: real, gamma: real)

  /** Filters on single-channel planes. */
  datatype PlaneFilter =
    | Median(ksize: int)
    | SobelMagnitude  // 3x3 Sobel in x and y, magnitude, scaled to 255 at its maximum

  datatype AdaptiveMethod = MeanC | GaussianC

  datatype Structuring = Ones(size: nat) | Ellipse(size: nat)

  /** Calls that produce a binary plane; `detect` says where the output is 255. */
  datatype Detector =
    | AdaptiveThreshold(mode: AdaptiveMethod, blockSize: int, c: int)  // THRESH_BINARY, maxValue 255
    | Canny(low: int, high: int)                                         // 255 on an edge
    | Dilate(kernel: Structuring, iterations: nat)
    | Close(kernel: Structuring)                                         // MORPH_CLOSE

  /** The result of cv2.kmeans: one label per sample and the centres, already
      cast to uint8. */
  datatype Clustering = Clustering(labels: seq<nat>, centers: seq<Pixel>)

  datatype Library = Library(
    filter: (Filter, Image, nat, nat) -> Pixel,
    resample: (Image, nat, nat, nat, nat) -> Pixel,  // INTER_AREA resize to (height, width), value at (i, j)
    recolor: (Recolor, Pixel) -> Pixel,
    blend: (Weights, Pixel, Pixel) -> Pixel,
    gray: Pixel -> Byte,                               // cvtColor BGR2GRAY
    planeFilter: (PlaneFilter, Plane, nat, nat) -> Byte,
    detect: (Detector, Plane, nat, nat) -> bool,
    pencilGray: (Sketch, Image, nat, nat) -> Byte,    // first result of cv2.pencilSketch
    kmeans: (seq<Pixel>, nat) -> Clustering)          // criteria (EPS+MAX_ITER, 100, 0.2), 10 attempts, random centres

  /** What cv2.kmeans guarantees of its result when 0 < k <= number of samples. */
  predicate Fits(c: Clustering, n: nat, k: nat) {
    |c.labels| == n && |c.centers| == k && LabelsFit(c.labels, k)
  }

  ghost predicate KMeansSound(cv: Library) {
    forall samples: seq<Pixel>, k: nat {:trigger cv.kmeans(samples, k)} ::
      0 < k <= |samples| ==> Fits(cv.kmeans(samples, k), |samples|, k)
  }

  function ApplyFilter(cv: Library, f: Filter, img: Image): (r: Image)
    ensures SameShape(r, img)
  {
    Build(Height(img), Width(img), (i, j) => cv.filter(f, img, i, j))
  }

  /** cv2.resize(img, (width, height), interpolation=INTER_AREA). */
  function Resample(cv: Library, img: Image, height: nat, width: nat): (r: Image)
    ensures Height(r) == height && Width(r) == (if height == 0 then 0 else width)
  {
    Build(height, width, (i, j) => cv.resample(img, height, width, i, j))
  }

  /** A per-pixel colour adjustment never adds colours. */
  function ApplyRecolor(cv: Library, c: Recolor, img: Image): (r: Image)
    ensures SameShape(r, img)
    ensures |Colors(r)| <= |Colors(img)|
  {
    var f := (p: Pixel) => cv.recolor(c, p);
    MapPixelsColors(img, f);
    MapPixels(img, f)
  }

  function AddWeighted(cv: Library, a: Image, w: Weights, b: Image): (r: Image)
    requires SameShape(a, b)
    ensures SameShape(r, a)
  {
    Build(Height(a), Width(a), (i, j) => if InGrid(a, i, j) then cv.blend(w, a[i][j], b[i][j]) else Black)
  }

  function ToGray(cv: Library, img: Image): (g: Plane)
    ensures SameShape(g, img)
  {
    Build(Height(img), Width(img), (i, j) => if InGrid(img, i, j) then cv.gray(img[i][j]) else 0)
  }

  function ApplyPlaneFilter(cv: Library, f: PlaneFilter, p: Plane): (r: Plane)
    ensures SameShape(r, p)
  {
    Build(Height(p), Width(p), (i, j) => cv.planeFilter(f, p, i, j))
  }

  function Detect(cv: Library, d: Detector, p: Plane): (m: Plane)
    ensures SameShape(m, p) && IsMask(m)
    ensures forall i, j :: InGrid(p, i, j) ==> (m[i][j] == 255 <==> cv.detect(d, p, i, j))
  {
    FromFlags(Height(p), Width(p), (i: nat, j: nat) => cv.detect(d, p, i, j))
  }

  function PencilSketchGray(cv: Library, s: Sketch, img: Image): (g: Plane)
    ensures SameShape(g, img)
  {
    Build(Height(img), Width(img), (i, j) => cv.pencilGray(s, img, i, j))
  }

  function KMeans(cv: Library, img: Image, k: nat): (c: Clustering)
    requires KMeansSound(cv) && 0 < k <= PixelCount(img)
    ensures Fits(c, PixelCount(img), k)
  {
    cv.kmeans(Flatten(img), k)
  }

  /** The filter f applied n times in succession. */
  function Passes(cv: Library, f: Filter, img: Image, n: nat): (r: Image)
    ensures SameShape(r, img)
  {
    if n == 0 then img else ApplyFilter(cv, f, Passes(cv, f, img, n - 1))
  }

  /** The sum of a convolution kernel's weights. */
  function KernelSum(k: seq<seq<int>>): int {
    if |k| == 0 then 0 else KernelSum(k[..|k| - 1]) + RowSum(k[|k| - 1])
  }

  function RowSum(r: seq<int>): int {
    if |r| == 0 then 0 else RowSum(r[..|r| - 1]) + r[|r| - 1]
  }

  lemma RowSumOfThree(a: int, b: int, c: int)
    ensures RowSum([a, b, c]) == a + b + c
  {
    assert [a, b, c][..2] == [a, b] && [a, b][..1] == [a] && [a][..0] == [];
    assert RowSum([a]) == a;
    assert RowSum([a, b]) == a + b;
  }

  lemma KernelSumOfThree(r0: seq<int>, r1: seq<int>, r2: seq<int>)
    ensures KernelSum([r0, r1, r2]) == RowSum(r0) + RowSum(r1) + RowSum(r2)
  {
    assert [r0, r1, r2][..2] == [r0, r1] && [r0, r1][..1] == [r0] && [r0][..0] == [];
    assert KernelSum([r0]) == RowSum(r0);
    assert KernelSum([r0, r1]) == RowSum(r0) + RowSum(r1);
  }

  /** filter2D's response at a pixel whose whole window has the level v. */
  function FlatResponse(k: seq<seq<int>>, v: int): int {
    if |k| == 0 then 0 else FlatResponse(k[..|k| - 1], v) + FlatRowResponse(k[|k| - 1], v)
  }

  function FlatRowResponse(r: seq<int>, v: int): int {
    if |r| == 0 then 0 else FlatRowResponse(r[..|r| - 1], v) + r[|r| - 1] * v
  }

  /** On a flat window the response is the level times the kernel's weight sum. */
  lemma {:induction false} FlatWindow(k: seq<seq<int>>, v: int)
    ensures FlatResponse(k, v) == v * KernelSum(k)
  {
    if |k| > 0 {
      FlatWindow(k[..|k| - 1], v);
      FlatRow(k[|k| - 1], v);
    }
  }

  lemma {:induction false} FlatRow(r: seq<int>, v: int)
    ensures FlatRowResponse(r, v) == v * RowSum(r)
  {
    if |r| > 0 {
      FlatRow(r[..|r| - 1], v);
      assert v * RowSum(r) == v * RowSum(r[..|r| - 1]) + v * r[|r| - 1];
    }
  }
}
