/** Upload admission and sizing: the extension whitelist, the stored-file
    name, the aspect-preserving downscale and the thumbnail arithmetic, the
    size and dimension checks on an upload, and the removal of stale files
    from a directory. */
module Utils {
  import opened Raster
  import opened OpenCv

  // ---------------------------------------------------------------------
  // File names

  /** The index of the last '.' in s: where `s.rsplit('.', 1)` splits. */
  function LastDot(s: string): (r: Option<nat>)
    ensures r.None? <==> '.' !in s
    ensures r.Some? ==> r.value < |s| && s[r.value] == '.' && '.' !in s[r.value + 1..]
    decreases |s|
  {
    if |s| == 0 then None
    else if s[|s| - 1] == '.' then Some(|s| - 1)
    else
      var r := LastDot(s[..|s| - 1]);
      assert r.Some? ==> s[r.value + 1..] == s[..|s| - 1][r.value + 1..] + [s[|s| - 1]];
      r
  }

  /** `s.rsplit('.', 1)[1]` when s contains '.': the text after the last '.'. */
  function Extension(s: string): (ext: Option<string>)
    ensures ext.None? <==> '.' !in s
    ensures ext.Some? ==> |ext.value| < |s| && '.' !in ext.value && s == s[..|s| - |ext.value| - 1] + "." + ext.value
  {
    match LastDot(s)
    case None => None
    case Some(k) =>
      assert s == s[..k] + "." + s[k + 1..];
      Some(s[k + 1..])
  }

  /** Splitting at the last '.' undoes joining a stem and a dotless suffix with '.'. */
  lemma {:induction false} ExtensionOfJoin(stem: string, ext: string)
    requires '.' !in ext
    ensures Extension(stem + "." + ext) == Some(ext)
  {
    var s := stem + "." + ext;
    var k := |stem|;
    assert s[k] == '.' && s[k + 1..] == ext;
    assert LastDot(s).Some?;
  }

  /** str.lower() on the ASCII letters. */
  function LowerChar(c: char): (d: char)
    ensures 'A' <= c <= 'Z' ==> 'a' <= d <= 'z' && d as int - c as int == 32
    ensures !('A' <= c <= 'Z') ==> d == c
  {
    if 'A' <= c <= 'Z' then (c as int + 32) as char else c
  }

  function Lower(s: string): (r: string)
    ensures |r| == |s| && forall i :: 0 <= i < |s| ==> r[i] == LowerChar(s[i])
  {
    seq(|s|, i requires 0 <= i < |s| => LowerChar(s[i]))
  }

  /** Lowering twice is lowering once, and lowering adds no '.'. */
  lemma LowerIdempotent(s: string)
    ensures Lower(Lower(s)) == Lower(s)
    ensures '.' in Lower(s) <==> '.' in s
  {
    assert forall i :: 0 <= i < |s| ==> (Lower(s)[i] == '.' <==> s[i] == '.');
  }

  const DefaultExtensions: set<string> := {"png", "jpg", "jpeg", "gif", "bmp", "webp"}

  /** The allowed set, the default one when none is given. */
  function AllowedSet(allowed: Option<set<string>>): (exts: set<string>)
    ensures allowed.None? ==> exts == DefaultExtensions
    ensures allowed.Some? ==> exts == allowed.value
  {
    match allowed
    case None => DefaultExtensions
    case Some(exts) => exts
  }

  /** allowed_file */
  function AllowedFile(filename: string, allowed: Option<set<string>>): (ok: bool)
    ensures ok ==> '.' in filename
  {
    match Extension(filename)
    case None => false
    case Some(ext) => Lower(ext) in AllowedSet(allowed)
  }

  /** A name with a '.' is allowed exactly when its lowered last suffix is in the set. */
  lemma AllowedFileJoin(stem: string, ext: string, allowed: Option<set<string>>)
    requires '.' !in ext
    ensures AllowedFile(stem + "." + ext, allowed) <==> Lower(ext) in AllowedSet(allowed)
  {
    ExtensionOfJoin(stem, ext);
  }

  lemma AllowedFileNeedsDot(filename: string, allowed: Option<set<string>>)
    requires '.' !in filename
    ensures !AllowedFile(filename, allowed)
  {
  }

  /** Upper-case suffixes pass: any stem with the suffix "JPG" is allowed by the default set. */
  lemma UpperCaseAllowed(stem: string)
    ensures AllowedFile(stem + "." + "JPG", None)
  {
    assert Lower("JPG") == "jpg";
    AllowedFileJoin(stem, "JPG", None);
  }

  /** Only the last suffix counts: "x.png.exe" is rejected ... */
  lemma OnlyLastSuffixCounts(stem: string)
    ensures !AllowedFile(stem + ".png" + "." + "exe", None)
  {
    LowerNoUpper("exe");
    ExeNotDefault();
    AllowedFileJoin(stem + ".png", "exe", None);
  }

  /** "exe" starts with a letter none of the default extensions starts with. */
  lemma ExeNotDefault()
    ensures "exe" !in DefaultExtensions
  {
    var e := "exe";
    assert e[0] == 'e';
    assert "png"[0] == 'p' && "jpg"[0] == 'j' && "jpeg"[0] == 'j';
    assert "gif"[0] == 'g' && "bmp"[0] == 'b' && "webp"[0] == 'w';
  }

  /** ... and "x.exe.png" allowed. */
  lemma LastSuffixAllowed(stem: string)
    ensures AllowedFile(stem + ".exe" + "." + "png", None)
  {
    LowerNoUpper("png");
    AllowedFileJoin(stem + ".exe", "png", None);
  }

  /** Lowering leaves a string without upper-case letters alone. */
  lemma LowerNoUpper(s: string)
    requires forall i :: 0 <= i < |s| ==> !('A' <= s[i] <= 'Z')
    ensures Lower(s) == s
  {
  }

  /** generate_unique_filename, with the UUID text as a parameter. */
  function UniqueFilename(original: string, uniqueId: string): (name: string)
    ensures |name| > |uniqueId| && name[..|uniqueId|] == uniqueId
    ensures '.' in original ==> Extension(name) == Some(Lower(Extension(original).value))
    ensures '.' !in original ==> Extension(name) == Some("jpg")
    ensures name == uniqueId + "." + (if '.' in original then Lower(Extension(original).value) else "jpg")
  {
    var ext := match Extension(original) case Some(e) => Lower(e) case None => "jpg";
    LowerIdempotent(if '.' in original then Extension(original).value else "");
    ExtensionOfJoin(uniqueId, ext);
    uniqueId + "." + ext
  }

  /** The stored name passes the whitelist exactly when the upload's name did,
      or the upload had no '.' and "jpg" is allowed. */
  lemma UniqueFilenameAllowed(original: string, uniqueId: string, allowed: Option<set<string>>)
    ensures AllowedFile(UniqueFilename(original, uniqueId), allowed) <==>
      AllowedFile(original, allowed) || ('.' !in original && "jpg" in AllowedSet(allowed))
  {
    var name := UniqueFilename(original, uniqueId);
    if '.' in original {
      var ext := Extension(original).value;
      LowerIdempotent(ext);
      assert AllowedFile(name, allowed) == (Lower(Lower(ext)) in AllowedSet(allowed));
    } else {
      LowerNoUpper("jpg");
      assert AllowedFile(name, allowed) == ("jpg" in AllowedSet(allowed));
    }
  }

  // ---------------------------------------------------------------------
  // Resizing

  function Min(a: real, b: real): (m: real)
    ensures m <= a && m <= b && (m == a || m == b)
  {
    if a <= b then a else b
  }

  datatype Size = Size(width: nat, height: nat)

  lemma DivMul(a: real, b: real)
    requires b > 0.0
    ensures (a / b) * b == a
  {
  }

  lemma DivNonNegative(a: real, b: real)
    requires a >= 0.0 && b > 0.0
    ensures a / b >= 0.0
  {
  }

  lemma MulMonoReal(s: real, t: real, x: real)
    requires s <= t && x >= 0.0
    ensures s * x <= t * x
  {
  }

  /** The largest factor that fits side x within bound: s*x <= bound follows from s <= bound/x. */
  lemma FitsSide(s: real, bound: real, x: real)
    requires x > 0.0 && s <= bound / x
    ensures s * x <= bound
  {
    MulMonoReal(s, bound / x, x);
    DivMul(bound, x);
  }

  lemma DivAtLeastOne(a: real, b: real)
    requires 0.0 < b <= a
    ensures a / b >= 1.0
  {
    DivMul(a, b);
  }

  /** A side that already fits its bound has a ratio of at least 1. */
  lemma FitRatios(size: Size, box: Size)
    requires size.width > 0 && size.height > 0
    ensures size.width <= box.width ==> box.width as real / size.width as real >= 1.0
    ensures size.height <= box.height ==> box.height as real / size.height as real >= 1.0
  {
    if size.width <= box.width {
      DivAtLeastOne(box.width as real, size.width as real);
    }
    if size.height <= box.height {
      DivAtLeastOne(box.height as real, size.height as real);
    }
  }

  /** resize_image's scale factor: min(maxW / w, maxH / h, 1). */
  function DownscaleFactor(size: Size, box: Size): (s: real)
    requires size.width > 0 && size.height > 0
    ensures 0.0 <= s <= 1.0
    ensures s <= box.width as real / size.width as real && s <= box.height as real / size.height as real
    ensures s == 1.0 || s == box.width as real / size.width as real || s == box.height as real / size.height as real
    ensures size.width <= box.width && size.height <= box.height ==> s == 1.0
  {
    DivNonNegative(box.width as real, size.width as real);
    DivNonNegative(box.height as real, size.height as real);
    FitRatios(size, box);
    Min(Min(box.width as real / size.width as real, box.height as real / size.height as real), 1.0)
  }

  /** The factor-s size of an image, each side truncated as int() does. */
  function Scaled(size: Size, s: real): (t: Size)
    requires 0.0 <= s
    ensures (t.width as real) <= s * size.width as real < (t.width + 1) as real
    ensures (t.height as real) <= s * size.height as real < (t.height + 1) as real
  {
    MulMonoReal(0.0, s, size.width as real);
    MulMonoReal(0.0, s, size.height as real);
    Size((s * size.width as real).Floor, (s * size.height as real).Floor)
  }

  /** A factor in [0, 1] never enlarges a side, and factor 1 keeps both. */
  lemma ScaledWithin(size: Size, s: real)
    requires 0.0 <= s <= 1.0
    ensures Scaled(size, s).width <= size.width && Scaled(size, s).height <= size.height
    ensures s == 1.0 ==> Scaled(size, s) == size
  {
    var t := Scaled(size, s);
    SideWithin(t.width, size.width, s);
    SideWithin(t.height, size.height, s);
  }

  /** A side truncated from s*x with s in [0, 1] is at most x, and is x when s is 1. */
  lemma SideWithin(n: nat, x: nat, s: real)
    requires 0.0 <= s <= 1.0
    requires n as real <= s * x as real < (n + 1) as real
    ensures n <= x
    ensures s == 1.0 ==> n == x
  {
    MulMonoReal(s, 1.0, x as real);
    assert 1.0 * x as real == x as real;
  }

  /** The size resize_image produces: within the box and never larger than the input. */
  function ResizeTarget(size: Size, box: Size): (t: Size)
    requires size.width > 0 && size.height > 0
    ensures t.width <= box.width && t.height <= box.height
    ensures t.width <= size.width && t.height <= size.height
    ensures DownscaleFactor(size, box) == 1.0 ==> t == size
    ensures t == Scaled(size, DownscaleFactor(size, box))
  {
    var s := DownscaleFactor(size, box);
    FitsSide(s, box.width as real, size.width as real);
    FitsSide(s, box.height as real, size.height as real);
    ScaledWithin(size, s);
    Scaled(size, s)
  }

  lemma MulStrictReal(a: real, b: real, c: real)
    requires a < b && c > 0.0
    ensures a * c < b * c
  {
  }

  /** Truncating x*s and y*s: the cross products differ by less than one side. */
  lemma CrossBound(x: real, y: real, s: real, nx: real, ny: real)
    requires x > 0.0 && y > 0.0
    requires nx <= s * x < nx + 1.0 && ny <= s * y < ny + 1.0
    ensures -y < nx * y - ny * x < x
  {
    var p := s * x * y;
    MulMonoReal(nx, s * x, y);
    MulStrictReal(s * x, nx + 1.0, y);
    MulMonoReal(ny, s * y, x);
    MulStrictReal(s * y, ny + 1.0, x);
    assert s * y * x == p;
    assert (nx + 1.0) * y == nx * y + y;
    assert (ny + 1.0) * x == ny * x + x;
    assert nx * y <= p < nx * y + y;
    assert s * y * x < (ny + 1.0) * x;
    assert p < ny * x + x;
    assert ny * x <= p;
  }

  /** Both sides use the same factor, so the aspect ratio survives up to one
      pixel of truncation per side: nw*h and nh*w differ by less than a side. */
  lemma ResizeKeepsAspect(size: Size, box: Size)
    requires size.width > 0 && size.height > 0
    ensures var t := ResizeTarget(size, box);
      -(size.height as int) < t.width * size.height - t.height * size.width < size.width
  {
    var s := DownscaleFactor(size, box);
    assert ResizeTarget(size, box) == Scaled(size, s);
    ScaledAspect(size, s);
  }

  /** The cross-product bound for any non-negative factor. */
  lemma ScaledAspect(size: Size, s: real)
    requires size.width > 0 && size.height > 0 && 0.0 <= s
    ensures var t := Scaled(size, s);
      -(size.height as int) < t.width * size.height - t.height * size.width < size.width
  {
    var t := Scaled(size, s);
    var nw, nh, w, h := t.width, t.height, size.width, size.height;
    CrossBound(w as real, h as real, s, nw as real, nh as real);
    CastProduct(nw, h);
    CastProduct(nh, w);
    IntBounds(nw * h, nh * w, w, h);
  }

  /** A bound on a difference carries over from the reals to the integers. */
  lemma IntBounds(a: int, b: int, x: int, y: int)
    requires -(y as real) < a as real - b as real < x as real
    ensures -y < a - b < x
  {
  }

  lemma CastProduct(a: nat, b: nat)
    ensures (a * b) as real == a as real * b as real
  {
  }

  const OutputBox := Size(1920, 1080)

  /** s*x is at least the smallest of the three candidate products. */
  lemma ScaledSideAtLeast(x: real, w: real, h: real, s: real, low: real)
    requires x > 0.0 && w > 0.0 && h > 0.0
    requires s == Min(Min(1920.0 / w, 1080.0 / h), 1.0)
    requires 1920.0 / w * x >= low && 1080.0 / h * x >= low && x >= low
    ensures s * x >= low
  {
  }

  /** An image that passed validation is never resized to an empty side: at
      least 5 by 9 pixels remain in the 1920x1080 box. */
  lemma ValidatedResizeNonEmpty(size: Size)
    requires MinSide <= size.width <= MaxSide && MinSide <= size.height <= MaxSide
    ensures ResizeTarget(size, OutputBox).width >= 5 && ResizeTarget(size, OutputBox).height >= 9
  {
    var w, h := size.width as real, size.height as real;
    var s := DownscaleFactor(size, OutputBox);
    assert s == Min(Min(1920.0 / w, 1080.0 / h), 1.0);
    WidthFactorAtLeast(w, h, s);
    HeightFactorAtLeast(w, h, s);
    var t := ResizeTarget(size, OutputBox);
    assert t == Scaled(size, s);
    FloorAtLeast(t.width, s * w, 5);
    FloorAtLeast(t.height, s * h, 9);
  }

  /** For sides in [50, 10000], the 1920x1080 factor keeps at least 5 columns. */
  lemma WidthFactorAtLeast(w: real, h: real, s: real)
    requires 50.0 <= w <= 10000.0 && 50.0 <= h <= 10000.0
    requires s == Min(Min(1920.0 / w, 1080.0 / h), 1.0)
    ensures s * w >= 5.0
  {
    DivMul(1920.0, w);
    RatioAtLeast(1080.0, w, h);
    ScaledSideAtLeast(w, w, h, s, 5.0);
  }

  /** For sides in [50, 10000], the 1920x1080 factor keeps at least 9 rows. */
  lemma HeightFactorAtLeast(w: real, h: real, s: real)
    requires 50.0 <= w <= 10000.0 && 50.0 <= h <= 10000.0
    requires s == Min(Min(1920.0 / w, 1080.0 / h), 1.0)
    ensures s * h >= 9.0
  {
    DivMul(1080.0, h);
    RatioAtLeast(1920.0, h, w);
    ScaledSideAtLeast(h, w, h, s, 9.0);
  }

  /** A truncation of a value at least low (an integer) is at least low. */
  lemma FloorAtLeast(n: nat, v: real, low: nat)
    requires n as real <= v < (n + 1) as real && v >= low as real
    ensures n >= low
  {
  }

  /** c/b*a >= c*50/10000 for a >= 50 and b <= 10000. */
  lemma RatioAtLeast(c: real, a: real, b: real)
    requires c >= 1080.0 && 50.0 <= a && 0.0 < b <= 10000.0
    ensures c / b * a >= c * 50.0 / 10000.0
  {
    assert c / b >= c / 10000.0;
    MulMonoReal(c / 10000.0, c / b, a);
    MulMonoReal(50.0, a, c / 10000.0);
  }

  /** A 4000x3000 photograph is brought down to 1440x1080. */
  lemma ResizeExample()
    ensures ResizeTarget(Size(4000, 3000), OutputBox) == Size(1440, 1080)
  {
    assert DownscaleFactor(Size(4000, 3000), OutputBox) == 0.36;
  }

  /** resize_image: the input itself when it already fits, otherwise an
      INTER_AREA resample to the truncated factor-s size. */
  function ResizeImage(cv: Library, image: Image, box: Size): (r: Image)
    requires Height(image) > 0 && Width(image) > 0
    ensures var t := ResizeTarget(Size(Width(image), Height(image)), box);
      Height(r) == t.height && (t.height > 0 ==> Width(r) == t.width)
    ensures DownscaleFactor(Size(Width(image), Height(image)), box) == 1.0 ==> r == image
  {
    var size := Size(Width(image), Height(image));
    if DownscaleFactor(size, box) < 1.0 then
      var t := ResizeTarget(size, box);
      Resample(cv, image, t.height, t.width)
    else
      image
  }

  /** create_thumbnail's factor: min(tw / w, th / h), not capped at 1. */
  function ThumbnailFactor(size: Size, box: Size): (s: real)
    requires size.width > 0 && size.height > 0
    ensures 0.0 <= s
    ensures s <= box.width as real / size.width as real && s <= box.height as real / size.height as real
    ensures s == box.width as real / size.width as real || s == box.height as real / size.height as real
  {
    DivNonNegative(box.width as real, size.width as real);
    DivNonNegative(box.height as real, size.height as real);
    Min(box.width as real / size.width as real, box.height as real / size.height as real)
  }

  /** The thumbnail fits the box and reaches it on at least one side. */
  function ThumbnailTarget(size: Size, box: Size): (t: Size)
    requires size.width > 0 && size.height > 0
    ensures t.width <= box.width && t.height <= box.height
    ensures t.width == box.width || t.height == box.height
    ensures t == Scaled(size, ThumbnailFactor(size, box))
  {
    var s := ThumbnailFactor(size, box);
    var w, h := size.width as real, size.height as real;
    FitsSide(s, box.width as real, w);
    FitsSide(s, box.height as real, h);
    DivMul(box.width as real, w);
    DivMul(box.height as real, h);
    Scaled(size, s)
  }

  /** Both thumbnail sides use the same factor, so the aspect ratio survives
      up to one pixel of truncation per side. */
  lemma ThumbnailKeepsAspect(size: Size, box: Size)
    requires size.width > 0 && size.height > 0
    ensures var t := ThumbnailTarget(size, box);
      -(size.height as int) < t.width * size.height - t.height * size.width < size.width
  {
    var s := ThumbnailFactor(size, box);
    assert ThumbnailTarget(size, box) == Scaled(size, s);
    ScaledAspect(size, s);
  }

  const ThumbnailBox := Size(300, 300)

  /** Small images are enlarged: 100x50 becomes 300x150. */
  lemma ThumbnailUpscales()
    ensures ThumbnailTarget(Size(100, 50), ThumbnailBox) == Size(300, 150)
  {
    assert ThumbnailFactor(Size(100, 50), ThumbnailBox) == 3.0;
  }

  function CreateThumbnail(cv: Library, image: Image, box: Size): (r: Image)
    requires Height(image) > 0 && Width(image) > 0
    ensures var t := ThumbnailTarget(Size(Width(image), Height(image)), box);
      Height(r) == t.height && (t.height > 0 ==> Width(r) == t.width)
  {
    var t := ThumbnailTarget(Size(Width(image), Height(image)), box);
    Resample(cv, image, t.height, t.width)
  }

  // ---------------------------------------------------------------------
  // validate_image

  const MiB: nat := 1024 * 1024
  const MinSide: nat := 50
  const MaxSide: nat := 10000

  /** An upload's bytes as PIL sees them: their length, the picture
      Image.open reads (None when it cannot), whether verify() accepts the
      data, and whether the full decode of read_image_from_bytes succeeds. */
  datatype ImageBytes = ImageBytes(length: nat, picture: Option<Image>, verifies: bool, decodes: bool)

  datatype Rejection = FileTooLarge | TooSmall | TooLarge | InvalidImageFile

  datatype Validation = Valid | Invalid(reason: Rejection)

  /** read_image_from_bytes on an upload that decodes: the picture PIL reads,
      turned from RGB into the BGR order the converters work in. */
  function ReadImageFromBytes(data: ImageBytes): (image: Image)
    requires data.picture.Some?
    ensures SameShape(image, data.picture.value)
    ensures SwapRedBlue(image) == data.picture.value
  {
    SwapRedBlueTwice(data.picture.value);
    SwapRedBlue(data.picture.value)
  }

  function ValidateImage(data: ImageBytes, maxSizeMb: int): (v: Validation)
    ensures v == Invalid(FileTooLarge) <==> data.length > maxSizeMb * MiB
    ensures v == Valid <==>
      && data.length <= maxSizeMb * MiB
      && data.picture.Some?
      && MinSide <= Width(data.picture.value) <= MaxSide
      && MinSide <= Height(data.picture.value) <= MaxSide
      && data.verifies
  {
    if data.length > maxSizeMb * MiB then Invalid(FileTooLarge)
    else match data.picture
      case None => Invalid(InvalidImageFile)
      case Some(p) =>
        if Width(p) < MinSide || Height(p) < MinSide then Invalid(TooSmall)
        else if Width(p) > MaxSide || Height(p) > MaxSide then Invalid(TooLarge)
        else if !data.verifies then Invalid(InvalidImageFile)
        else Valid
  }

  /** The size limit is inclusive and comes first: an oversized file is
      reported as such whatever its contents. */
  lemma ValidateSizeFirst(data: ImageBytes, maxSizeMb: int)
    requires data.length == maxSizeMb * MiB + 1
    ensures ValidateImage(data, maxSizeMb) == Invalid(FileTooLarge)
    ensures ValidateImage(data.(length := data.length - 1), maxSizeMb) != Invalid(FileTooLarge)
  {
  }

  /** The small-dimension check comes before the large-dimension one, and
      both before verify(). */
  lemma ValidateOrder(data: ImageBytes, maxSizeMb: int)
    requires data.length <= maxSizeMb * MiB
    ensures data.picture.None? ==> ValidateImage(data, maxSizeMb) == Invalid(InvalidImageFile)
    ensures data.picture.Some? ==>
      var w, h := Width(data.picture.value), Height(data.picture.value);
      (w < MinSide || h < MinSide ==> ValidateImage(data, maxSizeMb) == Invalid(TooSmall))
    ensures data.picture.Some? ==>
      var w, h := Width(data.picture.value), Height(data.picture.value);
      (MinSide <= w && MinSide <= h && (w > MaxSide || h > MaxSide) ==> ValidateImage(data, maxSizeMb) == Invalid(TooLarge))
    ensures data.picture.Some? ==>
      var w, h := Width(data.picture.value), Height(data.picture.value);
      (MinSide <= w <= MaxSide && MinSide <= h <= MaxSide && !data.verifies ==> ValidateImage(data, maxSizeMb) == Invalid(InvalidImageFile))
  {
  }

  // ---------------------------------------------------------------------
  // cleanup_old_files

  /** One listing entry: its name, whether it is a regular file, its
      modification time in seconds, and whether os.remove succeeds on it. */
  datatype Record = Record(name: string, isFile: bool, mtime: real, removable: bool)

  const KeepFile := ".gitkeep"

  /** Old enough to be deleted: a regular file other than the keep-file,
      strictly older than the limit. */
  predicate Stale(r: Record, now: real, maxAgeHours: int) {
    r.name != KeepFile && r.isFile && now - r.mtime > (maxAgeHours * 3600) as real
  }

  /** Stale and its removal succeeds: the record disappears and is counted. */
  predicate Deleted(r: Record, now: real, maxAgeHours: int) {
    Stale(r, now, maxAgeHours) && r.removable
  }

  /** The listing left behind, in listing order. */
  function Survivors(rs: seq<Record>, now: real, maxAgeHours: int): seq<Record> {
    if |rs| == 0 then []
    else Survivors(rs[..|rs| - 1], now, maxAgeHours) + (if Deleted(rs[|rs| - 1], now, maxAgeHours) then [] else [rs[|rs| - 1]])
  }

  /** How many records are deleted. */
  function DeletedCount(rs: seq<Record>, now: real, maxAgeHours: int): nat {
    if |rs| == 0 then 0
    else DeletedCount(rs[..|rs| - 1], now, maxAgeHours) + (if Deleted(rs[|rs| - 1], now, maxAgeHours) then 1 else 0)
  }

  /** A record survives exactly when it is in the listing and is not deleted. */
  lemma {:induction false} SurvivorsExactly(rs: seq<Record>, now: real, maxAgeHours: int, r: Record)
    ensures r in Survivors(rs, now, maxAgeHours) <==> r in rs && !Deleted(r, now, maxAgeHours)
  {
    if |rs| > 0 {
      SurvivorsExactly(rs[..|rs| - 1], now, maxAgeHours, r);
      assert rs == rs[..|rs| - 1] + [rs[|rs| - 1]];
    }
  }

  /** Every record is either kept or counted. */
  lemma {:induction false} SurvivorsAndDeletedPartition(rs: seq<Record>, now: real, maxAgeHours: int)
    ensures |Survivors(rs, now, maxAgeHours)| + DeletedCount(rs, now, maxAgeHours) == |rs|
  {
    if |rs| > 0 {
      SurvivorsAndDeletedPartition(rs[..|rs| - 1], now, maxAgeHours);
    }
  }

  /** The keep-file, directories and files not older than the limit always survive. */
  lemma KeptRecords(rs: seq<Record>, now: real, maxAgeHours: int, r: Record)
    requires r in rs
    requires r.name == KeepFile || !r.isFile || now - r.mtime <= (maxAgeHours * 3600) as real
    ensures r in Survivors(rs, now, maxAgeHours)
  {
    SurvivorsExactly(rs, now, maxAgeHours, r);
  }

  /** Walking one more record of the listing. */
  lemma ListingStep(rs: seq<Record>, k: nat, now: real, maxAgeHours: int)
    requires k < |rs|
    ensures Survivors(rs[..k + 1], now, maxAgeHours) ==
      Survivors(rs[..k], now, maxAgeHours) + (if Deleted(rs[k], now, maxAgeHours) then [] else [rs[k]])
    ensures DeletedCount(rs[..k + 1], now, maxAgeHours) ==
      DeletedCount(rs[..k], now, maxAgeHours) + (if Deleted(rs[k], now, maxAgeHours) then 1 else 0)
  {
    assert rs[..k + 1][..k] == rs[..k];
  }

  lemma MoveOne<T>(done: seq<T>, rs: seq<T>, k: nat)
    requires k < |rs|
    ensures done + rs[k..] == (done + [rs[k]]) + rs[k + 1..]
  {
    assert rs[k..] == [rs[k]] + rs[k + 1..];
  }

  class Directory {
    var present: bool
    var listing: seq<Record>

    constructor (present: bool, listing: seq<Record>)
      ensures this.present == present && this.listing == listing
    {
      this.present := present;
      this.listing := listing;
    }
  }

  /** cleanup_old_files: walks the listing, removes each deleted record from
      the directory as it goes, and counts the removals. */
  method CleanupOldFiles(dir: Directory, now: real, maxAgeHours: int) returns (deleted: nat)
    modifies dir
    ensures dir.present == old(dir.present)
    ensures !dir.present ==> deleted == 0 && dir.listing == old(dir.listing)
    ensures dir.present ==>
      && dir.listing == Survivors(old(dir.listing), now, maxAgeHours)
      && deleted == DeletedCount(old(dir.listing), now, maxAgeHours)
  {
    if !dir.present {
      return 0;
    }
    var listing := dir.listing;
    var kept := [];
    deleted := 0;
    for k := 0 to |listing|
      invariant kept == Survivors(listing[..k], now, maxAgeHours)
      invariant deleted == DeletedCount(listing[..k], now, maxAgeHours)
      invariant dir.present && dir.listing == kept + listing[k..]
    {
      var entry := listing[k];
      ListingStep(listing, k, now, maxAgeHours);
      MoveOne(kept, listing, k);
      if entry.name != KeepFile && entry.isFile && now - entry.mtime > (maxAgeHours * 3600) as real && entry.removable {
        dir.listing := kept + listing[k + 1..];
        deleted := deleted + 1;
      } else {
        kept := kept + [entry];
      }
    }
    assert listing[..|listing|] == listing;
  }
}
