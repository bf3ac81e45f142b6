/** The OpenCV-based cartoon converter: the four cartoon pipelines, the
    palette remap after clustering, the pencil-sketch and oil-painting
    stylizations, and the dispatch on the style name.

    Every pipeline rebinds the same few locals (smooth, edges, quantized,
    cartoon); here each such stage is a function, and the fused image (the
    bitwise-and of the recoloured palette image with the edge mask) is
    stated exactly: black where the mask is 0, the quantized pixel where it
    is 255, and at most one more colour than clusters. */
module CartoonConverter {
  import opened Raster
  import opened OpenCv

  /** The converter's default_params. */
  datatype Params = Params(
    bilateralD: int, bilateralSigmaColor: int, bilateralSigmaSpace: int,
    medianBlurKernel: int, edgeBlockSize: int, edgeC: int, colorClusters: nat)

  const DefaultParams := Params(9, 300, 300, 7, 9, 2, 12)

  const ClassicBilateral := Bilateral(DefaultParams.bilateralD, DefaultParams.bilateralSigmaColor, DefaultParams.bilateralSigmaSpace)
  const ClassicSmoothingPasses: nat := 2
  const ClassicSharpenKernel: seq<seq<int>> := [[0, -1, 0], [-1, 5, -1], [0, -1, 0]]

  const SmoothClusters: nat := 6
  const EdgeHeavyClusters: nat := 14
  const UltraClusters: nat := 16

  const UltraDenoise := NlMeansDenoise(10, 10, 7, 21)
  const UltraBilateral := Bilateral(9, 75, 75)
  const UltraSmoothingPasses: nat := 3

  const SketchParams := Sketch(60, 0.07, 0.05)

  // ---------------------------------------------------------------------
  // _quantize_colors

  /** k-means on the pixels, then every pixel replaced by its cluster's centre. */
  function QuantizeColors(cv: Library, image: Image, k: nat): (q: Image)
    requires KMeansSound(cv) && 0 < k <= PixelCount(image)
    ensures SameShape(q, image)
    ensures forall i, j :: InGrid(image, i, j) ==> q[i][j] in KMeans(cv, image, k).centers
    ensures |Colors(q)| <= k
  {
    var c := KMeans(cv, image, k);
    Remap(c.centers, c.labels, Height(image), Width(image))
  }

  // ---------------------------------------------------------------------
  // _classic_cartoon

  function ClassicSmooth(cv: Library, image: Image): Image {
    Passes(cv, ClassicBilateral, image, ClassicSmoothingPasses)
  }

  /** Adaptive mean threshold of the median-blurred gray of the input. */
  function ClassicEdges(cv: Library, image: Image): (edges: Plane)
    ensures SameShape(edges, image) && IsMask(edges)
  {
    var gray := ApplyPlaneFilter(cv, Median(DefaultParams.medianBlurKernel), ToGray(cv, image));
    Detect(cv, AdaptiveThreshold(MeanC, DefaultParams.edgeBlockSize, DefaultParams.edgeC), gray)
  }

  /** The smoothed image clustered to 12 colours, then its saturation raised by 1.2. */
  function ClassicQuantized(cv: Library, image: Image): (q: Image)
    requires KMeansSound(cv) && DefaultParams.colorClusters <= PixelCount(image)
    ensures SameShape(q, image) && |Colors(q)| <= DefaultParams.colorClusters
  {
    var quantized := QuantizeColors(cv, ClassicSmooth(cv, image), DefaultParams.colorClusters);
    ApplyRecolor(cv, HsvScale(Bgr, 1.2, 1.0), quantized)
  }

  /** The classic pipeline's image after fusion, before the sharpening pass. */
  function ClassicToon(cv: Library, image: Image): (toon: Image)
    requires KMeansSound(cv) && DefaultParams.colorClusters <= PixelCount(image)
    ensures SameShape(toon, image)
    ensures forall i, j :: InGrid(image, i, j) ==>
      toon[i][j] == if ClassicEdges(cv, image)[i][j] == 0 then Black else ClassicQuantized(cv, image)[i][j]
    ensures |Colors(toon)| <= DefaultParams.colorClusters + 1
  {
    var quantized, edges := ClassicQuantized(cv, image), ClassicEdges(cv, image);
    Fuse(quantized, edges)
  }

  function ClassicCartoon(cv: Library, image: Image): (cartoon: Image)
    requires KMeansSound(cv) && DefaultParams.colorClusters <= PixelCount(image)
    ensures SameShape(cartoon, image)
  {
    ApplyFilter(cv, Convolve(ClassicSharpenKernel), ClassicToon(cv, image))
  }

  /** The sharpening kernel's weights sum to 1 (5 - 4), so it keeps a flat region's level. */
  lemma ClassicSharpenKeepsFlat(v: int)
    ensures KernelSum(ClassicSharpenKernel) == 1
    ensures FlatResponse(ClassicSharpenKernel, v) == v
  {
    FlatWindow(ClassicSharpenKernel, v);
    KernelSumOfThree([0, -1, 0], [-1, 5, -1], [0, -1, 0]);
    RowSumOfThree(0, -1, 0);
    RowSumOfThree(-1, 5, -1);
    RowSumOfThree(0, -1, 0);
  }

  // ---------------------------------------------------------------------
  // _smooth_cartoon

  function SmoothSmooth(cv: Library, image: Image): (smooth: Image)
    ensures SameShape(smooth, image)
  {
    ApplyFilter(cv, Bilateral(9, 300, 300), ApplyFilter(cv, Bilateral(15, 80, 80), image))
  }

  /** Unlike the other pipelines, the edges are taken from the smoothed image. */
  function SmoothEdges(cv: Library, image: Image): (edges: Plane)
    ensures SameShape(edges, image) && IsMask(edges)
  {
    var gray := ApplyPlaneFilter(cv, Median(7), ToGray(cv, SmoothSmooth(cv, image)));
    Detect(cv, AdaptiveThreshold(MeanC, 9, 5), gray)
  }

  function SmoothQuantized(cv: Library, image: Image): (q: Image)
    requires KMeansSound(cv) && SmoothClusters <= PixelCount(image)
    ensures SameShape(q, image) && |Colors(q)| <= SmoothClusters
  {
    QuantizeColors(cv, SmoothSmooth(cv, image), SmoothClusters)
  }

  /** The smooth style ends with the fusion: at most 6 centres and black. */
  function SmoothCartoon(cv: Library, image: Image): (cartoon: Image)
    requires KMeansSound(cv) && SmoothClusters <= PixelCount(image)
    ensures SameShape(cartoon, image)
    ensures forall i, j :: InGrid(image, i, j) ==>
      cartoon[i][j] == if SmoothEdges(cv, image)[i][j] == 0 then Black else SmoothQuantized(cv, image)[i][j]
    ensures |Colors(cartoon)| <= SmoothClusters + 1
  {
    var quantized, edges := SmoothQuantized(cv, image), SmoothEdges(cv, image);
    Fuse(quantized, edges)
  }

  // ---------------------------------------------------------------------
  // _edge_heavy_cartoon

  /** not(Canny) or adaptive threshold, before the closing: a pixel is
      non-edge (255) when Canny finds no edge there or the adaptive
      threshold passes it. */
  function EdgeHeavyCombined(cv: Library, image: Image): (combined: Plane)
    ensures SameShape(combined, image) && IsMask(combined)
    ensures forall i, j :: InGrid(image, i, j) ==>
      (combined[i][j] == 255 <==>
        !cv.detect(Canny(50, 150), ToGray(cv, image), i, j) ||
        cv.detect(AdaptiveThreshold(MeanC, 9, 2), ApplyPlaneFilter(cv, Median(5), ToGray(cv, image)), i, j))
  {
    var gray := ToGray(cv, image);
    var canny := Detect(cv, Canny(50, 150), gray);
    var adaptive := Detect(cv, AdaptiveThreshold(MeanC, 9, 2), ApplyPlaneFilter(cv, Median(5), gray));
    Or(Not(canny), adaptive)
  }

  function EdgeHeavyEdges(cv: Library, image: Image): (edges: Plane)
    ensures SameShape(edges, image) && IsMask(edges)
  {
    Detect(cv, Close(Ones(2)), EdgeHeavyCombined(cv, image))
  }

  /** 14 clusters, then saturation times 1.3 and brightness times 1.1. */
  function EdgeHeavyQuantized(cv: Library, image: Image): (q: Image)
    requires KMeansSound(cv) && EdgeHeavyClusters <= PixelCount(image)
    ensures SameShape(q, image) && |Colors(q)| <= EdgeHeavyClusters
  {
    var smooth := ApplyFilter(cv, Bilateral(9, 250, 250), image);
    ApplyRecolor(cv, HsvScale(Bgr, 1.3, 1.1), QuantizeColors(cv, smooth, EdgeHeavyClusters))
  }

  function EdgeHeavyCartoon(cv: Library, image: Image): (cartoon: Image)
    requires KMeansSound(cv) && EdgeHeavyClusters <= PixelCount(image)
    ensures SameShape(cartoon, image)
    ensures forall i, j :: InGrid(image, i, j) ==>
      cartoon[i][j] == if EdgeHeavyEdges(cv, image)[i][j] == 0 then Black else EdgeHeavyQuantized(cv, image)[i][j]
    ensures |Colors(cartoon)| <= EdgeHeavyClusters + 1
  {
    var quantized, edges := EdgeHeavyQuantized(cv, image), EdgeHeavyEdges(cv, image);
    Fuse(quantized, edges)
  }

  // ---------------------------------------------------------------------
  // _ultra_quality_cartoon

  /** Non-local-means denoising, then three bilateral passes. */
  function UltraSmooth(cv: Library, image: Image): (smooth: Image)
    ensures SameShape(smooth, image)
  {
    Passes(cv, UltraBilateral, ApplyFilter(cv, UltraDenoise, image), UltraSmoothingPasses)
  }

  /** The three edge estimators combined with bitwise and, before the
      closing: a pixel is non-edge (255) only when all three agree that it
      is (a unanimous vote, not a majority). */
  function UltraCombined(cv: Library, image: Image): (combined: Plane)
    ensures SameShape(combined, image) && IsMask(combined)
    ensures forall i, j :: InGrid(image, i, j) ==>
      (combined[i][j] == 255 <==>
        && ApplyPlaneFilter(cv, SobelMagnitude, ToGray(cv, image))[i][j] <= 50
        && cv.detect(AdaptiveThreshold(GaussianC, 11, 2), ApplyPlaneFilter(cv, Median(7), ToGray(cv, image)), i, j)
        && !cv.detect(Dilate(Ones(2), 1), Detect(cv, Canny(30, 100), ToGray(cv, image)), i, j))
  {
    var gray := ToGray(cv, image);
    var sobel := ThresholdBinaryInv(ApplyPlaneFilter(cv, SobelMagnitude, gray), 50);
    var adaptive := Detect(cv, AdaptiveThreshold(GaussianC, 11, 2), ApplyPlaneFilter(cv, Median(7), gray));
    var canny := Not(Detect(cv, Dilate(Ones(2), 1), Detect(cv, Canny(30, 100), gray)));
    And(And(sobel, adaptive), canny)
  }

  function UltraEdges(cv: Library, image: Image): (edges: Plane)
    ensures SameShape(edges, image) && IsMask(edges)
  {
    Detect(cv, Close(Ellipse(3)), UltraCombined(cv, image))
  }

  /** 16 clusters, then lightness times 1.05 in LAB and saturation times 1.4 in HSV. */
  function UltraQuantized(cv: Library, smooth: Image): (q: Image)
    requires KMeansSound(cv) && UltraClusters <= PixelCount(smooth)
    ensures SameShape(q, smooth) && |Colors(q)| <= UltraClusters
  {
    var quantized := QuantizeColors(cv, smooth, UltraClusters);
    ApplyRecolor(cv, HsvScale(Bgr, 1.4, 1.0), ApplyRecolor(cv, LabScale(1.05), quantized))
  }

  /** The ultra pipeline's image after fusion, before sharpening and CLAHE. */
  function UltraToon(cv: Library, image: Image): (toon: Image)
    requires KMeansSound(cv) && UltraClusters <= PixelCount(image)
    ensures SameShape(toon, image)
    ensures |Colors(toon)| <= UltraClusters + 1
  {
    var quantized, edges := UltraQuantized(cv, UltraSmooth(cv, image)), UltraEdges(cv, image);
    Fuse(quantized, edges)
  }

  /** The ultra image is black on edge pixels and the quantized colour elsewhere. */
  lemma UltraToonPixels(cv: Library, image: Image, i: nat, j: nat)
    requires KMeansSound(cv) && UltraClusters <= PixelCount(image)
    requires InGrid(image, i, j)
    ensures var edges, quantized := UltraEdges(cv, image), UltraQuantized(cv, UltraSmooth(cv, image));
      UltraToon(cv, image)[i][j] == if edges[i][j] == 0 then Black else quantized[i][j]
  {
  }

  /** Unsharp masking (1.5 times the image minus 0.5 times its Gaussian blur), then CLAHE on the lightness. */
  function UltraFinish(cv: Library, toon: Image): (cartoon: Image)
    ensures SameShape(cartoon, toon)
  {
    var gaussian := ApplyFilter(cv, GaussianBlur(0, 2.0), toon);
    ApplyFilter(cv, ClaheLightness(2.0, 8), AddWeighted(cv, toon, Weights(1.5, -0.5, 0.0), gaussian))
  }

  function UltraCartoon(cv: Library, image: Image): (cartoon: Image)
    requires KMeansSound(cv) && UltraClusters <= PixelCount(image)
    ensures SameShape(cartoon, image)
  {
    UltraFinish(cv, UltraToon(cv, image))
  }

  /** The ultra pipeline step by step, with its smoothing loop. */
  method UltraQualityCartoon(cv: Library, image: Image) returns (cartoon: Image)
    requires KMeansSound(cv) && UltraClusters <= PixelCount(image)
    ensures cartoon == UltraCartoon(cv, image)
    ensures SameShape(cartoon, image)
  {
    var denoised := ApplyFilter(cv, UltraDenoise, image);
    var smooth := denoised;
    for pass := 0 to UltraSmoothingPasses
      invariant smooth == Passes(cv, UltraBilateral, denoised, pass)
    {
      smooth := ApplyFilter(cv, UltraBilateral, smooth);
    }
    assert smooth == UltraSmooth(cv, image);
    var edges := UltraEdges(cv, image);
    var quantized := UltraQuantized(cv, smooth);
    var toon := Fuse(quantized, edges);
    assert toon == UltraToon(cv, image);
    cartoon := UltraFinish(cv, toon);
  }

  // ---------------------------------------------------------------------
  // convert

  datatype Pipeline = Classic | Smooth | EdgeHeavy | Ultra {
    function Name(): string {
      match this
      case Classic => "classic"
      case Smooth => "smooth"
      case EdgeHeavy => "edge_heavy"
      case Ultra => "ultra"
    }

    function Clusters(): nat {
      match this
      case Classic => DefaultParams.colorClusters
      case Smooth => SmoothClusters
      case EdgeHeavy => EdgeHeavyClusters
      case Ultra => UltraClusters
    }
  }

  /** The pipeline convert runs for a style: its own for the four names,
      the classic one for anything else. */
  function PipelineFor(style: string): (p: Pipeline)
    ensures style == p.Name() || (p == Classic && style !in {"smooth", "edge_heavy", "ultra"})
  {
    if style == "classic" then Classic
    else if style == "smooth" then Smooth
    else if style == "edge_heavy" then EdgeHeavy
    else if style == "ultra" then Ultra
    else Classic
  }

  function Run(cv: Library, p: Pipeline, image: Image): (r: Image)
    requires KMeansSound(cv) && p.Clusters() <= PixelCount(image)
    ensures SameShape(r, image)
  {
    match p
    case Classic => ClassicCartoon(cv, image)
    case Smooth => SmoothCartoon(cv, image)
    case EdgeHeavy => EdgeHeavyCartoon(cv, image)
    case Ultra => UltraCartoon(cv, image)
  }

  function Convert(cv: Library, image: Image, style: string): (r: Image)
    requires KMeansSound(cv) && PipelineFor(style).Clusters() <= PixelCount(image)
    ensures SameShape(r, image)
  {
    Run(cv, PipelineFor(style), image)
  }

  /** Every pipeline is reached by its own name. */
  lemma PipelineForName(p: Pipeline)
    ensures PipelineFor(p.Name()) == p
  {
  }

  /** A style that names none of the four pipelines is converted exactly as "classic" is. */
  lemma ConvertFallback(cv: Library, image: Image, style: string)
    requires style !in {"classic", "smooth", "edge_heavy", "ultra"}
    requires KMeansSound(cv) && DefaultParams.colorClusters <= PixelCount(image)
    ensures Convert(cv, image, style) == Convert(cv, image, "classic") == ClassicCartoon(cv, image)
  {
  }

  /** A 200x200 classic conversion stays 200x200. */
  lemma ClassicKeepsSquare(cv: Library, image: Image)
    requires KMeansSound(cv) && Height(image) == 200 && Width(image) == 200
    ensures Height(Convert(cv, image, "classic")) == 200 && Width(Convert(cv, image, "classic")) == 200
  {
    PixelCountAtLeast(image, 200, 200);
  }

  /** An image that can be clustered into 16 colours can be converted in any style. */
  lemma ClustersBound(style: string)
    ensures PipelineFor(style).Clusters() <= UltraClusters
  {
  }

  // ---------------------------------------------------------------------
  // stylize_pencil_sketch, stylize_oil_painting, get_available_styles

  /** What a stylization returns: a 3-channel image or a single-channel plane. */
  datatype Rendered = ColorImage(image: Image) | GrayImage(plane: Plane)

  /** The first result of cv2.pencilSketch is single-channel, the second 3-channel. */
  function StylizePencilSketch(cv: Library, image: Image, color: bool): (r: Rendered)
    ensures r.ColorImage? <==> color
    ensures r.ColorImage? ==> SameShape(r.image, image)
    ensures r.GrayImage? ==> SameShape(r.plane, image)
  {
    if color then ColorImage(ApplyFilter(cv, PencilSketchColor(SketchParams), image))
    else GrayImage(PencilSketchGray(cv, SketchParams, image))
  }

  function StylizeOilPainting(cv: Library, image: Image): (r: Image)
    ensures SameShape(r, image)
  {
    ApplyFilter(cv, Stylization(60, 0.6), image)
  }

  function AvailableStyles(): (styles: seq<string>)
    ensures |styles| == 7
    ensures styles[..4] == [Classic.Name(), Smooth.Name(), EdgeHeavy.Name(), Ultra.Name()]
    ensures forall a, b :: 0 <= a < b < |styles| ==> styles[a] != styles[b]
  {
    ["classic", "smooth", "edge_heavy", "ultra", "pencil_sketch", "pencil_sketch_color", "oil_painting"]
  }
}
