/** The HTTP endpoints' decision logic: which converter each style reaches,
    the order of the checks on an upload and the status each failure gets,
    the batch cap, the one-result-per-file batch loop and its tallies, and
    the style count reported by the statistics endpoint. */
module App {
  import opened Raster
  import opened OpenCv
  import opened Utils
  import CartoonConverter
  import AiConverter

  /** An uploaded file: the client's file name and its bytes. */
  datatype Upload = Upload(filename: string, content: ImageBytes)

  const MaxUploadMb := 10
  const MaxBatchFiles := 10

  /** Where convert_image sends a style. */
  datatype Target =
    | Cartoon(style: string)        // CartoonConverter.convert(image, style)
    | PencilSketch(color: bool)     // stylize_pencil_sketch(image, color)
    | OilPainting                   // stylize_oil_painting(image)
    | Neural(style: string)         // apply_neural_style_transfer(image, style)

  const CartoonStyles: set<string> := {"classic", "smooth", "edge_heavy", "ultra"}
  const NeuralStyles: set<string> := {"cartoon", "anime", "watercolor"}

  /** Every style either converter advertises. */
  function AdvertisedStyles(): (styles: seq<string>)
    ensures |styles| == 10
  {
    CartoonConverter.AvailableStyles() + AiConverter.AvailableStyles()
  }

  /** The style branch of convert_image; None is the "Unknown style" error. */
  function ConvertRoute(style: string): (t: Option<Target>)
    ensures t.Some? <==> style in AdvertisedStyles()
    ensures t == Some(Cartoon(style)) <==> style in CartoonStyles
    ensures t == Some(Neural(style)) <==> style in NeuralStyles
    ensures t == Some(PencilSketch(false)) <==> style == "pencil_sketch"
    ensures t == Some(PencilSketch(true)) <==> style == "pencil_sketch_color"
    ensures t == Some(OilPainting) <==> style == "oil_painting"
  {
    if style in CartoonStyles then Some(Cartoon(style))
    else if style == "pencil_sketch" then Some(PencilSketch(false))
    else if style == "pencil_sketch_color" then Some(PencilSketch(true))
    else if style == "oil_painting" then Some(OilPainting)
    else if style in NeuralStyles then Some(Neural(style))
    else None
  }

  /** The batch endpoint's routing: only three styles use the cartoon
      converter; "ultra", the sketches, oil painting and unknown styles all
      reach the neural dispatch (and from there simple_gan). */
  function BatchRoute(style: string): (t: Target)
    ensures t == Cartoon(style) <==> style in {"classic", "smooth", "edge_heavy"}
    ensures t == Neural(style) <==> style !in {"classic", "smooth", "edge_heavy"}
  {
    if style in {"classic", "smooth", "edge_heavy"} then Cartoon(style) else Neural(style)
  }

  /** "ultra" is an ultra-quality cartoon in a single conversion but simple_gan in a batch. */
  lemma UltraDiffersInBatch()
    ensures ConvertRoute("ultra") == Some(Cartoon("ultra"))
    ensures BatchRoute("ultra") == Neural("ultra")
    ensures AiConverter.PipelineFor("ultra") == AiConverter.SimpleGan
  {
  }

  /** The converter call for a target. */
  function Stylize(cv: Library, image: Image, t: Target): (r: CartoonConverter.Rendered)
    requires KMeansSound(cv) && CartoonConverter.UltraClusters <= PixelCount(image)
    ensures r.ColorImage? ==> SameShape(r.image, image)
    ensures r.GrayImage? ==> SameShape(r.plane, image)
    ensures r.GrayImage? <==> t == PencilSketch(false)
  {
    match t
    case Cartoon(style) =>
      CartoonConverter.ClustersBound(style);
      CartoonConverter.ColorImage(CartoonConverter.Convert(cv, image, style))
    case PencilSketch(color) => CartoonConverter.StylizePencilSketch(cv, image, color)
    case OilPainting => CartoonConverter.ColorImage(CartoonConverter.StylizeOilPainting(cv, image))
    case Neural(style) =>
      AiConverter.PixelsNeededBound(style);
      CartoonConverter.ColorImage(AiConverter.ApplyNeuralStyleTransfer(cv, image, style))
  }

  /** image_to_bytes: the BGR-to-RGB conversion before JPEG encoding. It
      raises on a single-channel array, which is None here. */
  function EncodeAsWritten(r: CartoonConverter.Rendered): (rgb: Option<Image>)
    ensures rgb.Some? <==> r.ColorImage?
    ensures rgb.Some? ==> SameShape(rgb.value, r.image)
    ensures rgb.Some? ==> forall i, j :: InGrid(r.image, i, j) ==> rgb.value[i][j] == Pixel(r.image[i][j].c2, r.image[i][j].c1, r.image[i][j].c0)
  {
    match r
    case ColorImage(img) => Some(SwapRedBlue(img))
    case GrayImage(_) => None
  }

  /** The intended encoding: a single-channel sketch is expanded to three
      equal channels first, so every rendering can be encoded. */
  function EncodeCorrected(r: CartoonConverter.Rendered): (rgb: Image)
    ensures r.ColorImage? ==> EncodeAsWritten(r) == Some(rgb)
    ensures r.GrayImage? ==> SameShape(rgb, r.plane)
    ensures r.GrayImage? ==> forall i, j :: InGrid(r.plane, i, j) ==> rgb[i][j] == Pixel(r.plane[i][j], r.plane[i][j], r.plane[i][j])
  {
    match r
    case ColorImage(img) => SwapRedBlue(img)
    case GrayImage(p) => SwapRedBlue(GrayToColor(p))
  }

  /** The channel swaps on the way in and on the way out cancel: a colour
      image the converters leave untouched is encoded as the picture read. */
  lemma ChannelSwapsCancel(data: ImageBytes)
    requires data.picture.Some?
    ensures EncodeAsWritten(CartoonConverter.ColorImage(ReadImageFromBytes(data))) == Some(data.picture.value)
  {
  }

  datatype Failure = InvalidFileType | Rejected(reason: Rejection) | UnknownStyle | ProcessingError

  /** The endpoint's answer: the RGB image handed to the JPEG encoder, or an HTTP error. */
  datatype Response = Ok(rgb: Image) | HttpError(status: int, failure: Failure)

  /** The steps of convert_image before the style branch: extension check
      (outside the try block), validation, decoding, optional resize to
      1920x1080. */
  function Prepare(cv: Library, upload: Upload, resizeOutput: bool): (r: Result)
    ensures r.Right? ==> upload.content.picture.Some? && CartoonConverter.UltraClusters <= PixelCount(r.image)
    ensures r.Right? && !resizeOutput ==> r.image == ReadImageFromBytes(upload.content)
    ensures r.Right? && resizeOutput ==>
      var p := ReadImageFromBytes(upload.content);
      Height(p) > 0 && Width(p) > 0 && r.image == ResizeImage(cv, p, OutputBox)
  {
    if !AllowedFile(upload.filename, None) then Left(HttpError(400, InvalidFileType))
    else match ValidateImage(upload.content, MaxUploadMb)
      case Invalid(reason) => Left(HttpError(400, Rejected(reason)))
      case Valid =>
        if !upload.content.decodes then Left(HttpError(500, ProcessingError))
        else
          var image := ReadImageFromBytes(upload.content);
          var size := Size(Width(image), Height(image));
          PixelCountAtLeast(image, MinSide, MinSide);
          if resizeOutput then
            ValidatedResizeNonEmpty(size);
            var t := ResizeTarget(size, OutputBox);
            var resized := ResizeImage(cv, image, OutputBox);
            PixelCountAtLeast(resized, 9, 5);
            Right(resized)
          else Right(image)
  }

  /** Either an early answer or the image to convert. */
  datatype Result = Left(response: Response) | Right(image: Image)

  /** convert_image as written. */
  function ConvertImage(cv: Library, upload: Upload, style: string, resizeOutput: bool): (r: Response)
    requires KMeansSound(cv)
    ensures r.HttpError? ==> r.status in {400, 500}
  {
    match Prepare(cv, upload, resizeOutput)
    case Left(response) => response
    case Right(image) =>
      match ConvertRoute(style)
      case None => HttpError(400, UnknownStyle)
      case Some(t) =>
        match EncodeAsWritten(Stylize(cv, image, t))
        case None => HttpError(500, ProcessingError)
        case Some(rgb) => Ok(rgb)
  }

  /** convert_image with the single-channel sketch expanded before encoding. */
  function ConvertImageCorrected(cv: Library, upload: Upload, style: string, resizeOutput: bool): (r: Response)
    requires KMeansSound(cv)
    ensures r.HttpError? ==> r.status in {400, 500}
  {
    match Prepare(cv, upload, resizeOutput)
    case Left(response) => response
    case Right(image) =>
      match ConvertRoute(style)
      case None => HttpError(400, UnknownStyle)
      case Some(t) => Ok(EncodeCorrected(Stylize(cv, image, t)))
  }

  /** An upload that passes the extension and content checks and decodes. */
  predicate Acceptable(upload: Upload) {
    AllowedFile(upload.filename, None) && ValidateImage(upload.content, MaxUploadMb) == Valid && upload.content.decodes
  }

  /** The extension is checked before anything is read. */
  lemma ExtensionCheckedFirst(cv: Library, upload: Upload, style: string, resizeOutput: bool)
    requires KMeansSound(cv) && !AllowedFile(upload.filename, None)
    ensures ConvertImage(cv, upload, style, resizeOutput) == HttpError(400, InvalidFileType)
  {
  }

  /** Validation comes before decoding: a rejected upload gets 400 with the
      validator's reason whether or not it would decode, whatever the style. */
  lemma ValidationBeforeDecoding(cv: Library, upload: Upload, style: string, resizeOutput: bool, reason: Rejection)
    requires KMeansSound(cv) && AllowedFile(upload.filename, None)
    requires ValidateImage(upload.content, MaxUploadMb) == Invalid(reason)
    ensures ConvertImage(cv, upload, style, resizeOutput) == HttpError(400, Rejected(reason))
  {
  }

  /** A decoding failure is a 500, and it is found before the style is
      looked at: an unknown style with undecodable content is a 500, not a 400. */
  lemma DecodingBeforeStyle(cv: Library, upload: Upload, style: string, resizeOutput: bool)
    requires KMeansSound(cv) && AllowedFile(upload.filename, None)
    requires ValidateImage(upload.content, MaxUploadMb) == Valid && !upload.content.decodes
    ensures ConvertImage(cv, upload, style, resizeOutput) == HttpError(500, ProcessingError)
  {
  }

  /** A style nobody advertises is a 400 for an acceptable upload (the
      HTTPException raised inside the try block is passed on unchanged). */
  lemma UnknownStyleIs400(cv: Library, upload: Upload, style: string, resizeOutput: bool)
    requires KMeansSound(cv) && Acceptable(upload) && style !in AdvertisedStyles()
    ensures ConvertImage(cv, upload, style, resizeOutput) == HttpError(400, UnknownStyle)
  {
  }

  /** The plain pencil sketch is single-channel, image_to_bytes raises on it,
      and the endpoint answers 500 for every acceptable upload. */
  lemma PencilSketchAnswers500(cv: Library, upload: Upload, resizeOutput: bool)
    requires KMeansSound(cv) && Acceptable(upload)
    ensures ConvertImage(cv, upload, "pencil_sketch", resizeOutput) == HttpError(500, ProcessingError)
  {
  }

  /** Every other advertised style succeeds as written, with the shape of
      the (optionally resized) upload. */
  lemma OtherStylesServed(cv: Library, upload: Upload, style: string, resizeOutput: bool)
    requires KMeansSound(cv) && Acceptable(upload)
    requires style in AdvertisedStyles() && style != "pencil_sketch"
    ensures var r := ConvertImage(cv, upload, style, resizeOutput);
      r.Ok? && SameShape(r.rgb, Prepare(cv, upload, resizeOutput).image)
  {
    var image := Prepare(cv, upload, resizeOutput).image;
    var t := ConvertRoute(style).value;
    assert t != PencilSketch(false);
    var rendered := Stylize(cv, image, t);
    assert rendered.ColorImage?;
    assert ConvertImage(cv, upload, style, resizeOutput) == Ok(EncodeAsWritten(rendered).value);
  }

  /** With the correction every advertised style succeeds, with the shape of
      the (optionally resized) upload; every answer other than the plain
      pencil sketch's is unchanged. */
  lemma CorrectedServesEveryStyle(cv: Library, upload: Upload, style: string, resizeOutput: bool)
    requires KMeansSound(cv) && Acceptable(upload) && style in AdvertisedStyles()
    ensures var r := ConvertImageCorrected(cv, upload, style, resizeOutput);
      r.Ok? && SameShape(r.rgb, Prepare(cv, upload, resizeOutput).image)
  {
    var image := Prepare(cv, upload, resizeOutput).image;
    var t := ConvertRoute(style).value;
    assert ConvertImageCorrected(cv, upload, style, resizeOutput) == Ok(EncodeCorrected(Stylize(cv, image, t)));
  }

  /** The correction changes no answer other than the plain pencil sketch's. */
  lemma CorrectedAgreesElsewhere(cv: Library, upload: Upload, style: string, resizeOutput: bool)
    requires KMeansSound(cv) && style != "pencil_sketch"
    ensures ConvertImageCorrected(cv, upload, style, resizeOutput) == ConvertImage(cv, upload, style, resizeOutput)
  {
  }

  /** Without resize_output the answer keeps the upload's own size, for
      every advertised style the endpoint as written serves (all but the
      plain pencil sketch) and, once corrected, for every advertised style. */
  lemma NoResizeKeepsSize(cv: Library, upload: Upload, style: string)
    requires KMeansSound(cv) && Acceptable(upload) && style in AdvertisedStyles()
    ensures style != "pencil_sketch" ==>
      var r := ConvertImage(cv, upload, style, false);
      r.Ok? && SameShape(r.rgb, upload.content.picture.value)
    ensures var r := ConvertImageCorrected(cv, upload, style, false);
      r.Ok? && SameShape(r.rgb, upload.content.picture.value)
  {
    CorrectedServesEveryStyle(cv, upload, style, false);
    if style != "pencil_sketch" {
      CorrectedAgreesElsewhere(cv, upload, style, false);
    }
  }

  // ---------------------------------------------------------------------
  // batch_convert_images

  datatype ItemFailure = BadFileType | InvalidImage(reason: Rejection) | ConversionError

  /** One entry of the batch response's results. */
  datatype BatchItem =
    | Success(filename: string, outputFilename: string, style: string, output: Image)
    | Error(filename: string, failure: ItemFailure)

  /** The conversion a batch applies to one decoded image. */
  function BatchOutput(cv: Library, image: Image, style: string): (r: Image)
    requires KMeansSound(cv) && CartoonConverter.UltraClusters <= PixelCount(image)
    ensures SameShape(r, image)
  {
    match BatchRoute(style)
    case Cartoon(s) =>
      CartoonConverter.ClustersBound(s);
      CartoonConverter.Convert(cv, image, s)
    case _ =>
      AiConverter.PixelsNeededBound(style);
      AiConverter.ApplyNeuralStyleTransfer(cv, image, style)
  }

  /** What the loop body appends for one file, given the UUID text it draws. */
  function ProcessItem(cv: Library, upload: Upload, uniqueId: string, style: string): (item: BatchItem)
    requires KMeansSound(cv)
    ensures item.filename == upload.filename
    ensures item.Success? <==> Acceptable(upload)
    ensures item.Success? ==> item.outputFilename == UniqueFilename(upload.filename, uniqueId) && item.style == style
    ensures item.Success? ==> SameShape(item.output, upload.content.picture.value)
  {
    if !AllowedFile(upload.filename, None) then Error(upload.filename, BadFileType)
    else match ValidateImage(upload.content, MaxUploadMb)
      case Invalid(reason) => Error(upload.filename, InvalidImage(reason))
      case Valid =>
        var outputFilename := UniqueFilename(upload.filename, uniqueId);
        if !upload.content.decodes then Error(upload.filename, ConversionError)
        else
          var image := ReadImageFromBytes(upload.content);
          PixelCountAtLeast(image, MinSide, MinSide);
          Success(upload.filename, outputFilename, style, BatchOutput(cv, image, style))
  }

  /** For an acceptable upload the loop body appends a success whose image is
      the batch conversion of the BGR array read from the upload. */
  lemma ProcessItemSuccess(cv: Library, upload: Upload, uniqueId: string, style: string)
    requires KMeansSound(cv) && Acceptable(upload)
    ensures var image := ReadImageFromBytes(upload.content);
      && CartoonConverter.UltraClusters <= PixelCount(image)
      && ProcessItem(cv, upload, uniqueId, style) ==
         Success(upload.filename, UniqueFilename(upload.filename, uniqueId), style, BatchOutput(cv, image, style))
  {
    PixelCountAtLeast(ReadImageFromBytes(upload.content), MinSide, MinSide);
  }

  /** The number of results with the given status. */
  function Successes(results: seq<BatchItem>): nat {
    if |results| == 0 then 0 else Successes(results[..|results| - 1]) + (if results[|results| - 1].Success? then 1 else 0)
  }

  function Errors(results: seq<BatchItem>): nat {
    if |results| == 0 then 0 else Errors(results[..|results| - 1]) + (if results[|results| - 1].Error? then 1 else 0)
  }

  /** Every result is a success or an error. */
  lemma {:induction false} TalliesPartition(results: seq<BatchItem>)
    ensures Successes(results) + Errors(results) == |results|
  {
    if |results| > 0 {
      TalliesPartition(results[..|results| - 1]);
    }
  }

  datatype BatchResponse =
    | TooManyFiles
    | Summary(total: nat, successful: nat, failed: nat, results: seq<BatchItem>)

  /** batch_convert_images: rejects more than 10 files up front; otherwise
      one result per file, in order, and the tallies. */
  method BatchConvert(cv: Library, files: seq<Upload>, uniqueIds: seq<string>, style: string) returns (r: BatchResponse)
    requires KMeansSound(cv) && |uniqueIds| == |files|
    ensures r.TooManyFiles? <==> |files| > MaxBatchFiles
    ensures r.Summary? ==>
      && |r.results| == r.total == |files|
      && (forall k :: 0 <= k < |files| ==> r.results[k] == ProcessItem(cv, files[k], uniqueIds[k], style))
      && r.successful + r.failed == r.total
      && r.successful == Successes(r.results)
  {
    if |files| > MaxBatchFiles {
      return TooManyFiles;
    }
    var results: seq<BatchItem> := [];
    for k := 0 to |files|
      invariant |results| == k
      invariant forall m :: 0 <= m < k ==> results[m] == ProcessItem(cv, files[m], uniqueIds[m], style)
    {
      var file := files[k];
      if !AllowedFile(file.filename, None) {
        results := results + [Error(file.filename, BadFileType)];
        continue;
      }
      var validation := ValidateImage(file.content, MaxUploadMb);
      if validation.Invalid? {
        results := results + [Error(file.filename, InvalidImage(validation.reason))];
        continue;
      }
      var outputFilename := UniqueFilename(file.filename, uniqueIds[k]);
      if !file.content.decodes {
        results := results + [Error(file.filename, ConversionError)];
        continue;
      }
      var image := ReadImageFromBytes(file.content);
      PixelCountAtLeast(image, MinSide, MinSide);
      var output := BatchOutput(cv, image, style);
      results := results + [Success(file.filename, outputFilename, style, output)];
    }
    TalliesPartition(results);
    r := Summary(|files|, Successes(results), Errors(results), results);
  }

  // ---------------------------------------------------------------------
  // get_stats

  /** available_styles: the two converters' lists together. */
  function AvailableStyleCount(): (n: nat)
    ensures n == 10
  {
    |CartoonConverter.AvailableStyles()| + |AiConverter.AvailableStyles()|
  }
}
