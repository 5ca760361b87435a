/** The image-upload admin route (app/api/admin/upload-image/route.ts): the
    image checks, the file-name sanitiser, and the stored name and public URL.
    The clock is a parameter; the file write is left out. */
module UploadImage {
  import opened Text

  const UrlPrefix := "/editable-content/images/"

  /** The uploaded entry: the form did not parse, there was no `image`, or a file
      with its MIME type and name. */
  datatype Form = Unparseable | NoImage | Image(mimeType: string, name: string)

  datatype Response =
    | Uploaded(imageUrl: string)   // 200
    | BadRequest(error: string)    // 400
    | ServerError                  // 500

  /** The file-name sanitiser: ASCII lower case, anything outside `[a-z0-9.-]`
      replaced by `-`. */
  function SanitizeFileName(name: string): (r: string)
    ensures |r| == |name|
    ensures forall i :: 0 <= i < |r| ==> IsSlugChar(r[i], true)
  {
    Slug(name, true)
  }

  /** `${timestamp}-${sanitizedName}`. */
  function StoredName(timestamp: nat, name: string): (f: string)
    ensures |f| == |Decimal(timestamp)| + 1 + |name|
  {
    Decimal(timestamp) + "-" + SanitizeFileName(name)
  }

  /** The stored name never leaves the images directory: it has no `/`, and it
      starts with a digit, so it is neither "." nor "..". */
  lemma StoredNameSafe(timestamp: nat, name: string)
    ensures '/' !in StoredName(timestamp, name)
    ensures IsDigit(StoredName(timestamp, name)[0])
  {
    var f := StoredName(timestamp, name);
    var d := Decimal(timestamp);
    var s := SanitizeFileName(name);
    assert f == d + "-" + s;
    forall i | 0 <= i < |f| ensures f[i] != '/' {
      if i < |d| {
        assert f[i] == d[i];
      } else if i > |d| {
        assert f[i] == s[i - |d| - 1];
      }
    }
  }

  /** The timestamp can be read back from the stored name: it is the digits before
      the first `-`. */
  lemma TimestampRecoverable(timestamp: nat, name: string)
    ensures var f := StoredName(timestamp, name);
      var k := |Decimal(timestamp)|;
      && f[k] == '-'
      && (forall i :: 0 <= i < k ==> IsDigit(f[i]))
      && DecimalValue(f[..k]) == timestamp
  {
    var f := StoredName(timestamp, name);
    var d := Decimal(timestamp);
    assert f[..|d|] == d;
    DecimalRoundTrip(timestamp);
  }

  /** Sanitising twice is sanitising once. */
  lemma SanitizeIdempotent(name: string)
    ensures SanitizeFileName(SanitizeFileName(name)) == SanitizeFileName(name)
  {
    SlugIdempotent(name, true);
  }

  /** `POST`: `timestamp` is `Date.now()`, `writeFails` whether the write throws. */
  function Post(form: Form, timestamp: nat, writeFails: bool): (r: Response)
    ensures form.Unparseable? ==> r == ServerError
    ensures form.NoImage? ==> r == BadRequest("No image provided")
    ensures form.Image? && !StartsWith(form.mimeType, "image/") ==> r == BadRequest("File must be an image")
    ensures r.Uploaded? <==> form.Image? && StartsWith(form.mimeType, "image/") && !writeFails
    ensures r.Uploaded? ==> r.imageUrl == UrlPrefix + StoredName(timestamp, form.name)
  {
    match form
    case Unparseable => ServerError
    case NoImage => BadRequest("No image provided")
    case Image(mimeType, name) =>
      if !StartsWith(mimeType, "image/") then BadRequest("File must be an image")
      else if writeFails then ServerError
      else Uploaded(UrlPrefix + StoredName(timestamp, name))
  }

  /** The URL names a file directly inside the images directory: after the prefix
      there is no further `/`. */
  lemma UrlInImagesDir(form: Form, timestamp: nat, writeFails: bool)
    ensures var r := Post(form, timestamp, writeFails);
      r.Uploaded? ==>
        && StartsWith(r.imageUrl, UrlPrefix)
        && '/' !in r.imageUrl[|UrlPrefix|..]
  {
    var r := Post(form, timestamp, writeFails);
    if r.Uploaded? {
      StoredNameSafe(timestamp, form.name);
      assert r.imageUrl[|UrlPrefix|..] == StoredName(timestamp, form.name);
      assert r.imageUrl[..|UrlPrefix|] == UrlPrefix;
    }
  }
}
