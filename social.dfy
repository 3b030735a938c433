/**
 * What the two SNS publishers (`publishers/twitter.py`, `publishers/threads.py`)
 * share: the checks `validate` makes, in their order, with each publisher's
 * limits, over a file system given as a map from path to size in bytes.
 */
module Social {
  import opened Wrappers
  import opened Text
  import opened ContentModel
  import Loader

  /** The errors the publishers raise, by Python exception class. */
  datatype SocialError =
    | ValueError(message: string)
    | RuntimeError(message: string)
    | FileNotFound(message: string)
    | NotImplemented(message: string)
    | ApiError(message: string)
    | NoneAttribute(message: string)

  /** The files a publisher can see: `os.path.exists` and `os.path.getsize`. */
  type Sizes = map<string, nat>

  /** A publisher's limits: `MAX_IMAGES` and `MAX_IMAGE_SIZE`. */
  datatype Limits = Limits(maxImages: nat, maxBytes: nat)

  /** X: 4 images of at most 5 MiB. */
  function XLimits(): Limits
  {
    Limits(4, 5 * 1024 * 1024)
  }

  /** Threads: 10 images of at most 8 MiB. */
  function ThreadsLimits(): Limits
  {
    Limits(10, 8 * 1024 * 1024)
  }

  /** `ALLOWED_IMAGE_EXTENSIONS`, the same for both publishers. */
  predicate AllowedExtension(ext: string)
  {
    ext == ".jpg" || ext == ".jpeg" || ext == ".png" || ext == ".gif" || ext == ".webp"
  }

  /** Some dot of the name has a character other than a dot before it. */
  predicate DotAfterOther(name: string)
  {
    exists i, j :: 0 <= j < i < |name| && name[j] != '.' && name[i] == '.'
  }

  /**
   * `os.path.splitext(path)[1]`: from the last dot of the file name on, when
   * something other than a dot comes before that dot in the name; otherwise
   * empty.
   */
  function Extension(path: string): (r: string)
    ensures r == [] || r[0] == '.'
    ensures r != [] ==> '/' !in r && '.' !in r[1..]
  {
    var name := Loader.BaseName(path);
    match Loader.LastIndexOf(name, '.')
    case None => ""
    case Some(i) =>
      if exists j :: 0 <= j < i && name[j] != '.' then
        assert name[i..][1..] == name[i + 1..];
        name[i..]
      else ""
  }

  /**
   * The extension is a suffix of the file name, and it is empty exactly when
   * no dot of the name has something other than a dot before it.
   */
  lemma ExtensionOfName(path: string)
    ensures var name, r := Loader.BaseName(path), Extension(path);
      |r| <= |name| && r == name[|name| - |r|..]
    ensures Extension(path) != [] <==> DotAfterOther(Loader.BaseName(path))
  {
    var name := Loader.BaseName(path);
    match Loader.LastIndexOf(name, '.')
    case None =>
    case Some(i) =>
      if DotAfterOther(name) {
        var i', j :| 0 <= j < i' < |name| && name[j] != '.' && name[i'] == '.';
        assert 0 <= j < i && name[j] != '.';
      }
  }

  /** The checks on one image: it exists, its lower-cased extension is allowed, it is not larger than the limit. */
  function ImageError(fs: Sizes, lim: Limits, path: string): (r: Option<SocialError>)
    ensures r.None? <==> path in fs && AllowedExtension(Lower(Extension(path))) && fs[path] <= lim.maxBytes
  {
    if path !in fs then Some(FileNotFound("Image not found: " + path))
    else if !AllowedExtension(Lower(Extension(path))) then
      Some(ValueError("Unsupported image format: " + Lower(Extension(path))))
    else if fs[path] > lim.maxBytes then
      Some(ValueError("Image too large (" + Decimal(fs[path]) + " bytes): " + path))
    else None
  }

  /** The error of the first image, in list order, that fails a check. */
  function FirstImageError(fs: Sizes, lim: Limits, paths: seq<string>): (r: Option<SocialError>)
  {
    if paths == [] then None
    else if ImageError(fs, lim, paths[0]).Some? then ImageError(fs, lim, paths[0])
    else FirstImageError(fs, lim, paths[1..])
  }

  predicate Passes(fs: Sizes, lim: Limits, path: string)
  {
    ImageError(fs, lim, path).None?
  }

  /** No error exactly when every image passes. */
  lemma {:induction false} NoImageError(fs: Sizes, lim: Limits, paths: seq<string>)
    ensures FirstImageError(fs, lim, paths).None? <==> forall i :: 0 <= i < |paths| ==> Passes(fs, lim, paths[i])
  {
    if paths != [] {
      NoImageError(fs, lim, paths[1..]);
      assert forall i :: 0 < i < |paths| ==> paths[i] == paths[1..][i - 1];
    }
  }

  /** An error is that of the first failing image: every image before it passes. */
  lemma {:induction false} FirstFailing(fs: Sizes, lim: Limits, paths: seq<string>) returns (k: nat)
    requires FirstImageError(fs, lim, paths).Some?
    ensures k < |paths| && FirstImageError(fs, lim, paths) == ImageError(fs, lim, paths[k])
    ensures forall i :: 0 <= i < k ==> Passes(fs, lim, paths[i])
  {
    if !Passes(fs, lim, paths[0]) {
      k := 0;
    } else {
      var k' := FirstFailing(fs, lim, paths[1..]);
      k := k' + 1;
      assert paths[k] == paths[1..][k'];
      forall i | 0 < i < k ensures Passes(fs, lim, paths[i]) {
        assert paths[i] == paths[1..][i - 1];
      }
    }
  }

  /**
   * `validate`: blank text first, then the authentication, then the number
   * of images, then each image in order; content passing every check is
   * valid.
   */
  function ValidateSpec(lim: Limits, authenticated: bool, c: Content, fs: Sizes): (r: Result<bool, SocialError>)
    ensures IsBlank(c.text) ==> r == Err(ValueError("Text content is required"))
    ensures !IsBlank(c.text) && !authenticated ==> r == Err(RuntimeError("Not authenticated. Call authenticate() first"))
    ensures r.Ok? ==> r.value
  {
    if IsBlank(c.text) then Err(ValueError("Text content is required"))
    else if !authenticated then Err(RuntimeError("Not authenticated. Call authenticate() first"))
    else if c.imagePaths.Some? && |c.imagePaths.value| > lim.maxImages then
      Err(ValueError("Maximum " + Decimal(lim.maxImages) + " images allowed, got " + Decimal(|c.imagePaths.value|)))
    else if c.imagePaths.Some? && FirstImageError(fs, lim, c.imagePaths.value).Some? then
      Err(FirstImageError(fs, lim, c.imagePaths.value).value)
    else Ok(true)
  }

  /** `validate` itself: the checks, with the per-image loop. */
  method Validate(lim: Limits, authenticated: bool, c: Content, fs: Sizes) returns (r: Result<bool, SocialError>)
    ensures r == ValidateSpec(lim, authenticated, c, fs)
  {
    if IsBlank(c.text) {
      return Err(ValueError("Text content is required"));
    }
    if !authenticated {
      return Err(RuntimeError("Not authenticated. Call authenticate() first"));
    }
    if c.imagePaths.Some? && c.imagePaths.value != [] {
      var paths := c.imagePaths.value;
      if |paths| > lim.maxImages {
        return Err(ValueError("Maximum " + Decimal(lim.maxImages) + " images allowed, got " + Decimal(|paths|)));
      }
      for i := 0 to |paths|
        invariant FirstImageError(fs, lim, paths) == FirstImageError(fs, lim, paths[i..])
      {
        assert paths[i..][1..] == paths[i + 1..];
        var e := ImageError(fs, lim, paths[i]);
        if e.Some? {
          return Err(e.value);
        }
      }
      assert paths[|paths|..] == [];
    }
    return Ok(true);
  }

  /**
   * Content is accepted exactly when its text is not blank, the publisher is
   * authenticated, there are at most the limit's images and each exists, has
   * an allowed extension and is within the size limit.
   */
  lemma ValidIff(lim: Limits, authenticated: bool, c: Content, fs: Sizes)
    ensures ValidateSpec(lim, authenticated, c, fs).Ok? <==>
      !IsBlank(c.text) && authenticated
      && (c.imagePaths.Some? ==>
            |c.imagePaths.value| <= lim.maxImages
            && forall i :: 0 <= i < |c.imagePaths.value| ==>
                 var p := c.imagePaths.value[i];
                 p in fs && AllowedExtension(Lower(Extension(p))) && fs[p] <= lim.maxBytes)
  {
    if c.imagePaths.Some? {
      NoImageError(fs, lim, c.imagePaths.value);
    }
  }

  /** Too many images is reported before any image is looked at, even a missing one. */
  lemma CountBeforeFiles(lim: Limits, c: Content, fs: Sizes)
    requires !IsBlank(c.text) && c.imagePaths.Some? && |c.imagePaths.value| > lim.maxImages
    ensures ValidateSpec(lim, true, c, fs).Err? && ValidateSpec(lim, true, c, fs).error.ValueError?
    ensures ValidateSpec(lim, true, c, fs).error.message
            == "Maximum " + Decimal(lim.maxImages) + " images allowed, got " + Decimal(|c.imagePaths.value|)
  {
  }

  /** An image of exactly the limit's size is accepted; one byte more is not. */
  lemma SizeLimitInclusive(lim: Limits, path: string, fs: Sizes)
    requires path in fs && AllowedExtension(Lower(Extension(path)))
    ensures fs[path] == lim.maxBytes ==> ImageError(fs, lim, path).None?
    ensures fs[path] == lim.maxBytes + 1 ==> ImageError(fs, lim, path).Some?
  {
  }

  /** The extension is compared lower-cased: `photo.JPG` is accepted. */
  lemma UpperCaseExtension()
    ensures Extension("photo.JPG") == ".JPG" && AllowedExtension(Lower(".JPG"))
  {
    assert Loader.LastIndexOf("photo.JPG", '/') == None;
    assert Loader.LastIndexOf("photo.JPG", '.') == Some(5);
    assert "photo.JPG"[0] != '.';
    assert Lower(".JPG") == ".jpg";
  }
}
