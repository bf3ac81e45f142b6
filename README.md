# Image to Cartoon Converter — verified model of the decision logic

This project models the integer and decision logic of the Image to Cartoon
Converter backend in Dafny and proves properties of it. That logic surrounds
the image library calls and covers:

- **upload admission**
  - the file-extension whitelist;
  - the size and dimension checks;
  - the stored file name;
- **sizing**
  - the aspect-preserving downscale;
  - the thumbnail;
- **cleanup**: deleting stale files from a directory;
- **style routing**
  - in the single-image endpoint;
  - in the batch endpoint;
  - in both converters;
- the palette remap after k-means and the combination of 0/255 edge masks;
- the bitwise-and fusion that paints edges black;
- the per-style recipe constants;
- the batch loop and its tallies;
- the AI converter's device selection.

The modules follow the backend's files:

| module | file | contents |
|---|---|---|
| `Raster` | — | Pixels (three `bv8` channels), rectangular images and planes, 0/255 masks, the bitwise operations and channel swaps, and the palette remap `centers[labels]`. |
| `OpenCv` | — | The library calls the converters make, as opaque stages (see below). |
| `Utils` | `backend/utils.py` | As listed above. |
| `CartoonConverter` | `backend/cartoon_converter.py` | The four cartoon pipelines, the pencil sketch and oil painting, and the dispatch by style name. |
| `AiConverter` | `backend/ai_converter.py` | Device selection, and the simple_gan, anime and watercolor pipelines with their dispatch. |
| `App` | `backend/app.py` | `convert_image`, `batch_convert_images` and the style count of `get_stats`. |

How the image library is modelled:

- A `Library` value supplies the output value of each call at each position.
  Every stage built from it keeps its input's shape, and every thresholding,
  edge or morphology stage yields a 0/255 mask. Nothing is assumed about
  the numerics.
- k-means clustering is the only call with a stated guarantee
  (`KMeansSound`): for 0 < k ≤ number of pixels, it returns one label in
  [0, k) per pixel and k centres.

A few smaller modelling choices:

- The pipelines rebind locals step by step, so each stage is a function.
- The two loops are methods proved equal to those functions:
  - the three bilateral passes of the ultra pipeline;
  - the three bilateral passes of the anime pipeline.
- The batch loop is a method.
- The cleanup loop is a method over a `Directory` object whose listing it
  updates.

The ultra pipeline combines its three edge estimators with bitwise and
(`UltraCombined`): a pixel is non-edge only where all three agree.

## Model

| member | source | states |
|---|---|---|
| Utils.LastDot | backend/utils.py:29 | The index rsplit('.', 1) splits at: None exactly when there is no '.', otherwise a '.' with no '.' after it. |
| Utils.Extension | backend/utils.py:29 | The suffix after the last '.' contains no '.', and stem + "." + suffix rebuilds the name. It is None exactly when the name has no '.'. |
| Utils.ExtensionOfJoin | backend/utils.py:29 | Splitting at the last '.' undoes joining a stem and a dotless suffix. |
| Utils.LowerIdempotent | backend/utils.py:29 | Lowering twice is lowering once, and lowering neither adds nor removes '.'. |
| Utils.AllowedSet | backend/utils.py:25-26 | With no set given, the allowed set is exactly {png, jpg, jpeg, gif, bmp, webp}; otherwise it is the given set. |
| Utils.AllowedFile | backend/utils.py:28-29 | An allowed name contains '.'. |
| Utils.AllowedFileJoin | backend/utils.py:28-29 | For name = stem + "." + ext with ext dotless: allowed ⇔ lower(ext) is in the set. |
| Utils.AllowedFileNeedsDot | backend/utils.py:28 | A name without '.' is never allowed. |
| Utils.UpperCaseAllowed | backend/utils.py:29 | Any name ending in ".JPG" is allowed by the default set (the suffix is lowered). |
| Utils.OnlyLastSuffixCounts | backend/utils.py:29 | Any name ending in ".png.exe" is rejected by the default set: only the text after the last '.' counts. |
| Utils.LastSuffixAllowed | backend/utils.py:29 | Any name ending in ".exe.png" is allowed by the default set. |
| Utils.UniqueFilename | backend/utils.py:42-44 | The result is exactly id + "." + ext, where ext is the original's lowered last suffix, or "jpg" when the original has no '.'; splitting the result at its last '.' gives ext back. |
| Utils.UniqueFilenameAllowed | backend/utils.py:42-44 | The stored name passes the whitelist exactly when the upload's name did, or when the upload had no '.' and "jpg" is allowed. |
| Utils.DownscaleFactor | backend/utils.py:124 | The scale is one of 1, maxW/w, maxH/h, lies in [0, 1] and is at most each of them, so it is min(maxW/w, maxH/h, 1); it is 1 when the image already fits the box. |
| Utils.Scaled | backend/utils.py:127-128 | Each new side is the truncation of side × scale. |
| Utils.ResizeTarget | backend/utils.py:124-129 | The size is (floor(w·s), floor(h·s)) for s = DownscaleFactor; it fits the box, never exceeds the input, and equals the input when s is 1. |
| Utils.ResizeKeepsAspect | backend/utils.py:124-128 | One factor serves both sides, so nw·h and nh·w differ by less than one side (aspect kept up to truncation). |
| Utils.ValidatedResizeNonEmpty | backend/utils.py:124-128 | A validated image (sides in [50, 10000]) is resized into 1920×1080 with at least 5×9 pixels left. |
| Utils.ResizeExample | backend/utils.py:124-128 | 4000×3000 becomes 1440×1080. |
| Utils.ResizeImage | backend/utils.py:120-133 | The result has the target size. When the scale is 1 (no downscale needed) the input itself is returned. |
| Utils.ThumbnailFactor | backend/utils.py:227 | The scale is min(tw/w, th/h), with no cap at 1. |
| Utils.ThumbnailTarget | backend/utils.py:227-230 | The thumbnail size is (floor(w·s), floor(h·s)) for s = ThumbnailFactor = min(tw/w, th/h); it fits the box and reaches it on at least one side. |
| Utils.ThumbnailKeepsAspect | backend/utils.py:227-230 | Both thumbnail sides use the same factor: new_w·h and new_h·w differ by less than one side. |
| Utils.ThumbnailUpscales | backend/utils.py:227-230 | 100×50 becomes 300×150: thumbnails can enlarge. |
| Utils.CreateThumbnail | backend/utils.py:223-235 | The result has the thumbnail size. |
| Utils.ReadImageFromBytes | backend/utils.py:76-79 | The array handed to the converters has the picture's shape and is its RGB2BGR swap: swapping it back gives the picture. |
| Utils.ValidateImage | backend/utils.py:187-209 | Rejects for size exactly when the length exceeds max_size_mb·1024·1024. Valid ⇔ size within the limit, the picture opens, both sides lie in [50, 10000], and verify() passes. |
| Utils.ValidateSizeFirst | backend/utils.py:187-189 | One byte over the limit is rejected for size whatever the contents. Exactly at the limit is never a size rejection. |
| Utils.ValidateOrder | backend/utils.py:192-209 | Within the byte limit: no picture ⇒ "Invalid image file"; either side < 50 ⇒ too small; both ≥ 50 and either > 10000 ⇒ too large; both sides in bounds but verify() fails ⇒ "Invalid image file". |
| Utils.SurvivorsExactly | backend/utils.py:156-170 | A record survives ⇔ it is listed and is not (stale and removable). |
| Utils.SurvivorsAndDeletedPartition | backend/utils.py:156-172 | Survivors plus deleted count equals the listing's length. |
| Utils.KeptRecords | backend/utils.py:157-165 | The keep-file, non-files and files no older than max_age_hours·3600 (exactly that old included) always survive. |
| Utils.CleanupOldFiles | backend/utils.py:149-172 | A missing directory yields 0 and no change. Otherwise the listing becomes its survivors and the result is the number deleted. |
| Raster.SwapRedBlue | backend/ai_converter.py:69 | BGR↔RGB exchanges channels 0 and 2 of every pixel and keeps the shape. |
| Raster.SwapRedBlueTwice | backend/utils.py:79-96 | Swapping twice gives the image back: BGR2RGB undoes RGB2BGR. |
| Raster.GrayToColor | backend/cartoon_converter.py:96 | Every pixel is the mask value in all three channels. |
| Raster.Not | backend/cartoon_converter.py:216 | 255 − m pointwise. On a mask the result is a mask that is 255 ⇔ m is 0. |
| Raster.Or | backend/cartoon_converter.py:162 | Of two masks: a mask that is 255 ⇔ either is 255. |
| Raster.And | backend/cartoon_converter.py:219-220 | Of two masks: a mask that is 255 ⇔ both are 255. |
| Raster.ThresholdBinaryInv | backend/cartoon_converter.py:201 | A mask that is 255 ⇔ the value is ≤ the threshold. |
| Raster.BitwiseAnd | backend/cartoon_converter.py:97 | Channel-wise and of two images of the same shape. |
| Raster.FuseWithMask | backend/cartoon_converter.py:96-97 | And of an image with a 3-channel mask: black where the mask is 0, the image's pixel where it is 255. |
| Raster.Fuse | backend/cartoon_converter.py:96-97 | Keeps the shape. Black where the mask is 0, the image's pixel where it is 255; at most one colour more than the image. |
| Raster.FuseColors | backend/cartoon_converter.py:96-97 | Fusing adds at most one colour (black). |
| Raster.MapPixelsColors | backend/cartoon_converter.py:91-93 | A per-pixel recolouring never increases the number of colours. |
| Raster.Flatten | backend/cartoon_converter.py:266 | reshape((-1, 3)) has one sample per pixel, in row-major order: sample i·w+j is pixel (i, j). |
| Raster.Remap | backend/cartoon_converter.py:281-287 | centers[labels] reshaped has the image's shape. Each pixel is the centre of its label, and at most |centers| colours occur. |
| OpenCv.KMeans | backend/cartoon_converter.py:271-278 | For 0 < k ≤ pixels: one label in [0, k) per pixel and k centres. |
| OpenCv.Detect | backend/cartoon_converter.py:75-82 | Threshold, edge and morphology calls give 0/255 masks of the input's shape. |
| OpenCv.ApplyRecolor | backend/cartoon_converter.py:91-93 | An HSV/LAB adjustment keeps the shape and adds no colour. |
| OpenCv.Passes | backend/cartoon_converter.py:189-191 | n successive filter passes keep the shape. |
| OpenCv.FlatWindow | backend/cartoon_converter.py:100-103 | On a flat window a kernel's response is level × weight sum. |
| CartoonConverter.QuantizeColors | backend/cartoon_converter.py:266-289 | Shape kept; every pixel is one of the k centres; at most k colours. |
| CartoonConverter.ClassicEdges | backend/cartoon_converter.py:73-82 | Adaptive mean threshold (block 9, C 2) of the median-7 gray of the input: a mask of the input's shape. |
| CartoonConverter.ClassicQuantized | backend/cartoon_converter.py:59-93 | Two bilateral passes (9, 300, 300), 12 clusters and saturation ×1.2: at most 12 colours. |
| CartoonConverter.ClassicToon | backend/cartoon_converter.py:96-97 | Black where the edge mask is 0, the quantized pixel where it is 255; at most 13 colours. |
| CartoonConverter.ClassicCartoon | backend/cartoon_converter.py:47-105 | The sharpened classic cartoon keeps the input's shape. |
| CartoonConverter.ClassicSharpenKeepsFlat | backend/cartoon_converter.py:100-102 | The 5/−1 kernel's weights sum to 1, so a flat region keeps its level. |
| CartoonConverter.SmoothEdges | backend/cartoon_converter.py:118-126 | Edges from the smoothed image (not the input): median 7, adaptive mean, block 9, C 5. |
| CartoonConverter.SmoothQuantized | backend/cartoon_converter.py:112-129 | Bilateral (15, 80, 80) then (9, 300, 300), 6 clusters: at most 6 colours. |
| CartoonConverter.SmoothCartoon | backend/cartoon_converter.py:132-135 | Black on edge pixels, the quantized pixel elsewhere; at most 7 colours. |
| CartoonConverter.EdgeHeavyCombined | backend/cartoon_converter.py:145-162 | not(Canny 50/150) or adaptive threshold: a pixel is non-edge ⇔ Canny misses it or the adaptive threshold passes it. |
| CartoonConverter.EdgeHeavyEdges | backend/cartoon_converter.py:163 | The morphological closing keeps a mask. |
| CartoonConverter.EdgeHeavyQuantized | backend/cartoon_converter.py:142-172 | Bilateral (9, 250, 250), 14 clusters, saturation ×1.3 and value ×1.1: at most 14 colours. |
| CartoonConverter.EdgeHeavyCartoon | backend/cartoon_converter.py:175-178 | Black on edge pixels, the quantized pixel elsewhere; at most 15 colours. |
| CartoonConverter.UltraSmooth | backend/cartoon_converter.py:186-191 | Non-local-means denoising then exactly three bilateral passes (9, 75, 75). |
| CartoonConverter.UltraCombined | backend/cartoon_converter.py:194-220 | A pixel is non-edge ⇔ the Sobel magnitude is ≤ 50 and the Gaussian adaptive threshold passes and the dilated Canny 30/100 misses it (unanimous, not majority). |
| CartoonConverter.UltraEdges | backend/cartoon_converter.py:223-224 | Closing with a 3×3 ellipse keeps a mask. |
| CartoonConverter.UltraQuantized | backend/cartoon_converter.py:227-236 | 16 clusters, lightness ×1.05, saturation ×1.4: at most 16 colours. |
| CartoonConverter.UltraToon | backend/cartoon_converter.py:239-240 | The fused image keeps the shape and has at most 17 colours. |
| CartoonConverter.UltraToonPixels | backend/cartoon_converter.py:239-240 | It is black on edge pixels and the quantized colour elsewhere. |
| CartoonConverter.UltraFinish | backend/cartoon_converter.py:243-250 | Unsharp masking (1.5, −0.5) and CLAHE (2.0, 8×8) keep the shape. |
| CartoonConverter.UltraQualityCartoon | backend/cartoon_converter.py:180-252 | The step-by-step pipeline with its 3-pass loop equals UltraCartoon and keeps the shape. |
| CartoonConverter.PipelineFor | backend/cartoon_converter.py:36-45 | The style names its pipeline, or falls back to classic for any other string. |
| CartoonConverter.PipelineForName | backend/cartoon_converter.py:36-43 | Each of the four pipelines is reached by its own name. |
| CartoonConverter.ConvertFallback | backend/cartoon_converter.py:44-45 | Any other style is converted exactly as "classic". |
| CartoonConverter.Convert | backend/cartoon_converter.py:25-45 | Conversion keeps the input's shape. |
| CartoonConverter.ClassicKeepsSquare | test_installation.py:106-112 | A 200×200 classic conversion stays 200×200. |
| CartoonConverter.StylizePencilSketch | backend/cartoon_converter.py:303-318 | A colour image ⇔ color is true. Otherwise a single-channel plane; either way of the input's shape. |
| CartoonConverter.StylizeOilPainting | backend/cartoon_converter.py:331-332 | Stylization keeps the shape. |
| CartoonConverter.AvailableStyles | backend/cartoon_converter.py:334-337 | Seven distinct names; the first four are the four pipelines' names in order. |
| AiConverter.DeviceFor | backend/ai_converter.py:32-36 | Without torch: "cpu". With torch and "auto": "cuda" ⇔ CUDA is available. Otherwise the requested device. |
| AiConverter.AICartoonConverter.constructor | backend/ai_converter.py:25-55 | Sets the device as DeviceFor says. transform and denorm are present ⇔ torch is. |
| AiConverter.DenormInvertsTransform | backend/ai_converter.py:41-50 | denorm undoes the ImageNet normalisation on each channel. |
| AiConverter.GanQuantized | backend/ai_converter.py:69-91 | After swap, two bilateral passes and saturation ×1.3: every pixel is one of the 12 centres; at most 12 colours. |
| AiConverter.ConvertSimpleGanStyle | backend/ai_converter.py:57-105 | Keeps the shape. |
| AiConverter.GanSharpenKeepsFlat | backend/ai_converter.py:94-96 | The 9/−1 kernel's weights sum to 1, so a flat region keeps its level. |
| AiConverter.AnimeEdgesInverted | backend/ai_converter.py:133-136 | 0 exactly where the dilated Canny 50/150 of the input's gray fires. |
| AiConverter.AnimeQuantized | backend/ai_converter.py:139-149 | Every pixel is one of the 16 centres; at most 16 colours. |
| AiConverter.AnimeFused | backend/ai_converter.py:152-153 | Black exactly on edge pixels, the quantized colour elsewhere; at most 17 colours. |
| AiConverter.ConvertAnimeStyle | backend/ai_converter.py:107-161 | The step-by-step pipeline with its 3-pass loop equals AnimeStyle and keeps the shape. |
| AiConverter.ConvertWatercolorStyle | backend/ai_converter.py:163-188 | Keeps the shape. |
| AiConverter.PipelineFor | backend/ai_converter.py:207-212 | anime ⇔ "anime"; watercolor ⇔ "watercolor"; everything else simple_gan. |
| AiConverter.CartoonIsSimpleGan | backend/ai_converter.py:211-212 | "cartoon" and every unknown style are served by simple_gan. |
| AiConverter.ApplyNeuralStyleTransfer | backend/ai_converter.py:190-212 | Keeps the shape. |
| AiConverter.AvailableStyles | backend/ai_converter.py:214-216 | Three distinct names, dispatching to simple_gan, anime and watercolor in that order. |
| App.AdvertisedStyles | backend/app.py:341 | The two converters' lists together hold 10 names. |
| App.ConvertRoute | backend/app.py:178-199 | A target exists ⇔ the style is advertised. The four cartoon styles go to convert, the three neural styles to the AI converter, and the sketch flags and oil painting as named. |
| App.BatchRoute | backend/app.py:276-279 | Only classic, smooth and edge_heavy use convert; every other style goes to the neural dispatch. |
| App.UltraDiffersInBatch | backend/app.py:178-180 | "ultra" is the ultra pipeline singly but simple_gan in a batch. |
| App.Stylize | backend/app.py:178-193 | The converter output keeps the shape. It is single-channel ⇔ the target is the plain pencil sketch. |
| App.EncodeAsWritten | backend/utils.py:95-96 | Encoding succeeds ⇔ the rendering has three channels, and then gives its RGB swap. |
| App.EncodeCorrected | backend/utils.py:95-96 | Agrees with the as-written encoding on colour images. A plane is expanded to three equal channels. |
| App.Prepare | backend/app.py:155-175 | Reaching conversion implies an opened picture with at least 16 pixels. The image converted is the BGR array read from the upload (ReadImageFromBytes), unchanged without resize_output and resized to 1920×1080 with it. |
| App.ConvertImage | backend/app.py:136-221 | Every error it answers is a 400 or a 500. |
| App.ExtensionCheckedFirst | backend/app.py:155-159 | A disallowed name gets 400 before anything is read. |
| App.ValidationBeforeDecoding | backend/app.py:166-168 | A rejected upload gets 400 with the validator's reason, whether or not it decodes. |
| App.DecodingBeforeStyle | backend/app.py:171 | Undecodable content is a 500 even for an unknown style. |
| App.UnknownStyleIs400 | backend/app.py:195-216 | An unadvertised style is a 400 (re-raised unchanged, not turned into a 500). |
| App.PencilSketchAnswers500 | backend/app.py:182-183 | "pencil_sketch" answers 500 for every acceptable upload. |
| App.OtherStylesServed | backend/app.py:178-213 | Every other advertised style succeeds, with the shape of the prepared image. |
| App.ConvertImageCorrected | backend/app.py:136-221 | Errors are 400 or 500. |
| App.CorrectedServesEveryStyle | backend/app.py:178-213 | Every advertised style succeeds for an acceptable upload, with the shape of the prepared image. |
| App.CorrectedAgreesElsewhere | backend/app.py:136-221 | For every style but "pencil_sketch" the corrected endpoint answers exactly as written. |
| App.NoResizeKeepsSize | backend/app.py:174-175 | Without resize_output the answer has the upload's own size: as written for every advertised style but "pencil_sketch" (which answers 500, see Findings), and for every advertised style once corrected. |
| App.BatchOutput | backend/app.py:276-279 | The batch conversion keeps the shape. |
| App.ProcessItem | backend/app.py:249-297 | Keeps the file name. Success ⇔ allowed, valid and decodable; a success carries the unique name, the style and an image of the upload's shape. |
| App.ProcessItemSuccess | backend/app.py:268-287 | For an acceptable upload the item is a success whose image is the batch conversion of the BGR array read from the upload. |
| App.TalliesPartition | backend/app.py:301-302 | successful + failed = number of results. |
| App.ChannelSwapsCancel | backend/utils.py:79-96 | The swap on reading and the swap before encoding cancel: an untouched colour image is encoded as the picture read. |
| App.BatchConvert | backend/app.py:240-304 | Rejected ⇔ more than 10 files. Otherwise one result per file in order, each the per-file outcome; total = number of files = successful + failed. |
| App.AvailableStyleCount | backend/app.py:341 | available_styles is 10. |

## Left out

- Image-library numerics: bilateral, median, Gaussian, adaptive threshold, Canny, Sobel, morphology, non-local means, CLAHE, stylization, pencil sketch, edge-preserving filter and filter2D border handling are opaque stages. Only their shapes and 0/255 outputs are modelled.
- k-means itself: it is randomised floating-point clustering. Only the remap of labels to centres is modelled, assuming the labels lie in [0, k).
- Floating point arithmetic:
  - HSV/LAB conversions, saturation/brightness scaling with clipping, addWeighted and the Sobel normalisation are opaque per-pixel stages;
  - resize and thumbnail arithmetic uses exact rationals, so float rounding of the scale is not modelled;
  - the size check compares integers (length > max·1024·1024), which matches the float division for any realistic length.
- Utils.ResizeImage, Utils.CreateThumbnail: a computed side of 0, where cv2.resize raises, gives an empty image here. App.Prepare proves that validated uploads never produce one in the 1920×1080 box.
- Python's full Unicode lower(): Utils.Lower lowers only ASCII A–Z.
- PIL decoding. It is modelled as the `ImageBytes` fields:
  - the picture Image.open reads, in RGB order (read_image_from_bytes swaps it to BGR, `Utils.ReadImageFromBytes`);
  - whether verify() passes;
  - whether read_image_from_bytes succeeds.

  Uploads that decode to something other than three channels fall under "does not decode". Examples are grayscale or palette images, whose RGB2BGR conversion raises.
- JPEG encoding and the response headers. A successful answer is the RGB image handed to the encoder.
- FastAPI, HTTP transport, CORS, upload reading, exception-handler bodies and the error message texts. The reason is kept only as a constructor.
- ensure_dir_exists, read_image_from_bytes' RGBA handling, apply_watermark, the root/health endpoints and the cleanup endpoint's sum.
- The file system is a parameter:
  - the directory's existence and listing, with name, is-file, mtime and whether os.remove succeeds for each entry;
  - the current time.
- App.ProcessItem: cv2.imwrite in the batch is not modelled; "Success ⇔ allowed, valid and decodable" assumes the write never raises. When OpenCV has no writer for the output name's extension it raises, and the source records an error item for that file instead; a write that only returns False still counts as a success.
- UUID generation: the id text is a parameter, so uniqueness is not modelled.
- The torch import probe and the CUDA query are constructor parameters. torch.device's parsing of a requested device string is not modelled. StyleTransferNetwork is not part of this model.
- The HSV/LAB channels written in place are stated as one recolouring stage each, not as array updates.
- test_installation.py beyond the 200×200 shape check.

## Findings

| source | as written | input that shows it | evidently intended | confidence | as-written member | corrected member |
|---|---|---|---|---|---|---|
| backend/app.py:182-183, backend/cartoon_converter.py:312-318, backend/utils.py:96 | "pencil_sketch" returns the single-channel sketch_gray. image_to_bytes then calls cvtColor(BGR2RGB), which raises on one channel, and the endpoint answers 500. | any acceptable upload, e.g. a valid 100×100 PNG, with style "pencil_sketch" | a gray sketch image (expanded to three channels before encoding) | moderate (not executed) | App.ConvertImage, App.PencilSketchAnswers500 | App.ConvertImageCorrected, App.CorrectedServesEveryStyle, App.CorrectedAgreesElsewhere |
