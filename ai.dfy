/** The "AI" converter: device selection when it is constructed, and three
    OpenCV pipelines standing in for neural style transfer (simple_gan,
    anime, watercolor). The pipelines work on an RGB copy of the BGR input
    and swap back at the end; none of them reads the converter's fields. */
module AiConverter {
  import opened Raster
  import opened OpenCv

  /** torchvision Normalize: per channel, (x - mean) / std. */
  datatype Normalization = Normalization(mean: seq<real>, std: seq<real>)

  const ImageNetMean: seq<real> := [0.485, 0.456, 0.406]
  const ImageNetStd: seq<real> := [0.229, 0.224, 0.225]

  const Transform := Normalization(ImageNetMean, ImageNetStd)
  const Denorm := Normalization(
    [-0.485 / 0.229, -0.456 / 0.224, -0.406 / 0.225],
    [1.0 / 0.229, 1.0 / 0.224, 1.0 / 0.225])

  function Normalize(n: Normalization, channel: nat, x: real): real
    requires channel < |n.mean| && channel < |n.std| && n.std[channel] != 0.0
  {
    (x - n.mean[channel]) / n.std[channel]
  }

  /** denorm undoes transform's normalisation on every channel. */
  lemma DenormInvertsTransform(channel: nat, x: real)
    requires channel < 3
    ensures Normalize(Denorm, channel, Normalize(Transform, channel, x)) == x
  {
    var m, s := ImageNetMean[channel], ImageNetStd[channel];
    assert Denorm.mean[channel] == -m / s && Denorm.std[channel] == 1.0 / s;
    var y := (x - m) / s;
    assert (y - (-m / s)) / (1.0 / s) == y * s + m;
  }

  /** The device __init__ settles on. */
  function DeviceFor(torchAvailable: bool, cudaAvailable: bool, requested: string): (device: string)
    ensures !torchAvailable ==> device == "cpu"
    ensures torchAvailable && requested == "auto" ==> (device == "cuda" <==> cudaAvailable) && device in {"cuda", "cpu"}
    ensures torchAvailable && requested != "auto" ==> device == requested
  {
    if torchAvailable then
      if requested == "auto" then (if cudaAvailable then "cuda" else "cpu") else requested
    else "cpu"
  }

  class AICartoonConverter {
    var device: string
    var transform: Option<Normalization>
    var denorm: Option<Normalization>

    /** Without torch the requested device is ignored and there are no
        tensor transforms. */
    constructor (torchAvailable: bool, cudaAvailable: bool, requested: string)
      ensures device == DeviceFor(torchAvailable, cudaAvailable, requested)
      ensures transform == (if torchAvailable then Some(Transform) else None)
      ensures denorm == (if torchAvailable then Some(Denorm) else None)
    {
      if torchAvailable {
        if requested == "auto" {
          device := if cudaAvailable then "cuda" else "cpu";
        } else {
          device := requested;
        }
        transform := Some(Transform);
        denorm := Some(Denorm);
      } else {
        device := "cpu";
        transform := None;
        denorm := None;
      }
    }
  }

  // ---------------------------------------------------------------------
  // convert_simple_gan_style

  const GanBilateral := Bilateral(9, 75, 75)
  const GanSmoothingPasses: nat := 2
  const GanClusters: nat := 12
  const GanSharpenKernel: seq<seq<int>> := [[-1, -1, -1], [-1, 9, -1], [-1, -1, -1]]

  /** Smoothing and saturation times 1.3, on the RGB copy. */
  function GanEnhanced(cv: Library, image: Image): (enhanced: Image)
    ensures SameShape(enhanced, image)
  {
    var bilateral := Passes(cv, GanBilateral, SwapRedBlue(image), GanSmoothingPasses);
    ApplyRecolor(cv, HsvScale(Rgb, 1.3, 1.0), bilateral)
  }

  /** Every pixel of the palette image is one of the 12 centres. */
  function GanQuantized(cv: Library, image: Image): (q: Image)
    requires KMeansSound(cv) && GanClusters <= PixelCount(image)
    ensures SameShape(q, image)
    ensures forall i, j :: InGrid(image, i, j) ==> q[i][j] in KMeans(cv, GanEnhanced(cv, image), GanClusters).centers
    ensures |Colors(q)| <= GanClusters
  {
    var enhanced := GanEnhanced(cv, image);
    var c := KMeans(cv, enhanced, GanClusters);
    Remap(c.centers, c.labels, Height(enhanced), Width(enhanced))
  }

  /** The palette image blended 0.7/0.3 with its sharpened copy, back in BGR. */
  function ConvertSimpleGanStyle(cv: Library, image: Image): (r: Image)
    requires KMeansSound(cv) && GanClusters <= PixelCount(image)
    ensures SameShape(r, image)
  {
    var quantized := GanQuantized(cv, image);
    var sharpened := ApplyFilter(cv, Convolve(GanSharpenKernel), quantized);
    SwapRedBlue(AddWeighted(cv, quantized, Weights(0.7, 0.3, 0.0), sharpened))
  }

  // ---------------------------------------------------------------------
  // convert_anime_style

  const AnimeBilateral := Bilateral(9, 60, 60)
  const AnimeSmoothingPasses: nat := 3
  const AnimeClusters: nat := 16

  function AnimeSmooth(cv: Library, image: Image): (bilateral: Image)
    ensures SameShape(bilateral, image)
  {
    Passes(cv, AnimeBilateral, SwapRedBlue(image), AnimeSmoothingPasses)
  }

  /** Saturation times 1.5 and brightness times 1.1, clipped. */
  function AnimeEnhanced(cv: Library, bilateral: Image): (enhanced: Image)
    ensures SameShape(enhanced, bilateral)
  {
    ApplyRecolor(cv, HsvScale(Rgb, 1.5, 1.1), bilateral)
  }

  /** The inverted, dilated Canny edges of the original's gray: 0 on an edge. */
  function AnimeEdgesInverted(cv: Library, image: Image): (edgesInv: Plane)
    ensures SameShape(edgesInv, image) && IsMask(edgesInv)
    ensures forall i, j :: InGrid(image, i, j) ==>
      (edgesInv[i][j] == 0 <==> cv.detect(Dilate(Ones(2), 1), Detect(cv, Canny(50, 150), ToGray(cv, image)), i, j))
  {
    var edges := Detect(cv, Dilate(Ones(2), 1), Detect(cv, Canny(50, 150), ToGray(cv, image)));
    Not(edges)
  }

  function AnimeQuantized(cv: Library, enhanced: Image): (q: Image)
    requires KMeansSound(cv) && AnimeClusters <= PixelCount(enhanced)
    ensures SameShape(q, enhanced)
    ensures forall i, j :: InGrid(enhanced, i, j) ==> q[i][j] in KMeans(cv, enhanced, AnimeClusters).centers
    ensures |Colors(q)| <= AnimeClusters
  {
    var c := KMeans(cv, enhanced, AnimeClusters);
    Remap(c.centers, c.labels, Height(enhanced), Width(enhanced))
  }

  /** The palette image with the edges painted black, before the final
      smoothing: black on an edge pixel, the quantized colour elsewhere. */
  function AnimeFused(cv: Library, image: Image): (fused: Image)
    requires KMeansSound(cv) && AnimeClusters <= PixelCount(image)
    ensures SameShape(fused, image)
    ensures forall i, j :: InGrid(image, i, j) ==>
      fused[i][j] ==
        if cv.detect(Dilate(Ones(2), 1), Detect(cv, Canny(50, 150), ToGray(cv, image)), i, j) then Black
        else AnimeQuantized(cv, AnimeEnhanced(cv, AnimeSmooth(cv, image)))[i][j]
    ensures |Colors(fused)| <= AnimeClusters + 1
  {
    var quantized := AnimeQuantized(cv, AnimeEnhanced(cv, AnimeSmooth(cv, image)));
    var edgesInv := AnimeEdgesInverted(cv, image);
    Fuse(quantized, edgesInv)
  }

  function AnimeStyle(cv: Library, image: Image): (r: Image)
    requires KMeansSound(cv) && AnimeClusters <= PixelCount(image)
    ensures SameShape(r, image)
  {
    SwapRedBlue(ApplyFilter(cv, Bilateral(5, 50, 50), AnimeFused(cv, image)))
  }

  /** convert_anime_style step by step, with its smoothing loop. */
  method ConvertAnimeStyle(cv: Library, image: Image) returns (r: Image)
    requires KMeansSound(cv) && AnimeClusters <= PixelCount(image)
    ensures r == AnimeStyle(cv, image)
    ensures SameShape(r, image)
  {
    var imgRgb := SwapRedBlue(image);
    var bilateral := imgRgb;
    for pass := 0 to AnimeSmoothingPasses
      invariant bilateral == Passes(cv, AnimeBilateral, imgRgb, pass)
    {
      bilateral := ApplyFilter(cv, AnimeBilateral, bilateral);
    }
    assert bilateral == AnimeSmooth(cv, image);
    var enhanced := AnimeEnhanced(cv, bilateral);
    var edgesInv := AnimeEdgesInverted(cv, image);
    var quantized := AnimeQuantized(cv, enhanced);
    var result := Fuse(quantized, edgesInv);
    assert result == AnimeFused(cv, image);
    result := ApplyFilter(cv, Bilateral(5, 50, 50), result);
    r := SwapRedBlue(result);
  }

  // ---------------------------------------------------------------------
  // convert_watercolor_style

  function ConvertWatercolorStyle(cv: Library, image: Image): (r: Image)
    ensures SameShape(r, image)
  {
    var smooth := ApplyFilter(cv, EdgePreserving(1, 60, 0.6), image);
    var stylized := ApplyFilter(cv, Stylization(60, 0.5), smooth);
    var blurred := ApplyFilter(cv, GaussianBlur(5, 0.0), stylized);
    ApplyRecolor(cv, HsvScale(Bgr, 1.2, 1.0), blurred)
  }

  // ---------------------------------------------------------------------
  // apply_neural_style_transfer, get_available_styles

  datatype Pipeline = SimpleGan | Anime | Watercolor

  /** "anime" and "watercolor" have their own pipelines; every other style,
      "cartoon" included, gets simple_gan. */
  function PipelineFor(style: string): (p: Pipeline)
    ensures p == Anime <==> style == "anime"
    ensures p == Watercolor <==> style == "watercolor"
  {
    if style == "anime" then Anime
    else if style == "watercolor" then Watercolor
    else SimpleGan
  }

  function PixelsNeeded(p: Pipeline): nat {
    match p
    case SimpleGan => GanClusters
    case Anime => AnimeClusters
    case Watercolor => 0
  }

  function ApplyNeuralStyleTransfer(cv: Library, image: Image, style: string): (r: Image)
    requires KMeansSound(cv) && PixelsNeeded(PipelineFor(style)) <= PixelCount(image)
    ensures SameShape(r, image)
  {
    match PipelineFor(style)
    case Anime => AnimeStyle(cv, image)
    case Watercolor => ConvertWatercolorStyle(cv, image)
    case SimpleGan => ConvertSimpleGanStyle(cv, image)
  }

  /** "cartoon" is served by the default branch, like any unknown style. */
  lemma CartoonIsSimpleGan(cv: Library, image: Image, style: string)
    requires style !in {"anime", "watercolor"}
    requires KMeansSound(cv) && GanClusters <= PixelCount(image)
    ensures ApplyNeuralStyleTransfer(cv, image, style) == ConvertSimpleGanStyle(cv, image)
    ensures ApplyNeuralStyleTransfer(cv, image, "cartoon") == ConvertSimpleGanStyle(cv, image)
  {
  }

  /** An image that can be clustered into 16 colours can be styled in any way. */
  lemma PixelsNeededBound(style: string)
    ensures PixelsNeeded(PipelineFor(style)) <= AnimeClusters
  {
  }

  function AvailableStyles(): (styles: seq<string>)
    ensures |styles| == 3
    ensures forall a, b :: 0 <= a < b < |styles| ==> styles[a] != styles[b]
    ensures PipelineFor(styles[0]) == SimpleGan && PipelineFor(styles[1]) == Anime && PipelineFor(styles[2]) == Watercolor
  {
    ["cartoon", "anime", "watercolor"]
  }

  /** The sharpening kernel's weights sum to 1 (9 - 8), so it keeps a flat region's level. */
  lemma GanSharpenKeepsFlat(v: int)
    ensures KernelSum(GanSharpenKernel) == 1
    ensures FlatResponse(GanSharpenKernel, v) == v
  {
    FlatWindow(GanSharpenKernel, v);
    KernelSumOfThree([-1, -1, -1], [-1, 9, -1], [-1, -1, -1]);
    RowSumOfThree(-1, -1, -1);
    RowSumOfThree(-1, 9, -1);
    RowSumOfThree(-1, -1, -1);
  }
}
