/**
 * The upload handler (app.py:57-93): four guards that each end the request
 * with HTTP 400, then the blob name, the put into storage and the public URL.
 *
 * `secureFilename` stands for werkzeug's `secure_filename`, whose code is not
 * part of this model: it is an arbitrary function and nothing is assumed about
 * what it returns. The clock reading is an input, and so is the size the
 * handler measures by seeking to the end of the stream.
 */
module Upload {
  import opened Wrappers
  import Timestamp
  import BlobUrls

  /** MAX_FILE_SIZE: 10 MiB (app.py:23). */
  const MaxFileSize: nat := 10 * 1024 * 1024

  /** ALLOWED_CONTENT_TYPES (app.py:24). */
  const AllowedContentTypes: set<string> := {"image/jpeg", "image/png", "image/gif"}

  /**
   * The multipart part named "file": its filename, its `mimetype` (the media
   * type werkzeug derives from the part's Content-Type header) and its
   * measured byte size.
   */
  datatype FilePart = FilePart(filename: string, mimetype: string, size: nat)

  /** An upload request; `file` is None when the form has no field named "file". */
  datatype Request = Request(file: Option<FilePart>)

  /** The four ways the upload handler rejects a request with HTTP 400. */
  datatype ValidationError =
    | MissingFileField
    | EmptyFilename
    | UnsupportedContentType(mimetype: string)
    | FileTooLarge

  /** The `error` text of the JSON body for each rejection (app.py:61, 65, 68, 75). */
  function ErrorMessage(e: ValidationError): (msg: string)
    ensures e.UnsupportedContentType? ==>
      |msg| == 26 + |e.mimetype| && msg[|msg| - |e.mimetype|..] == e.mimetype
  {
    match e
    case MissingFileField => "Missing file field"
    case EmptyFilename => "Empty filename"
    case UnsupportedContentType(m) => "Unsupported content type: " + m
    case FileTooLarge => "File too large (max 10 MB)"
  }

  /** The client can tell every rejection apart from its message alone. */
  lemma ErrorMessageInjective(e1: ValidationError, e2: ValidationError)
    ensures ErrorMessage(e1) == ErrorMessage(e2) <==> e1 == e2
  {
    var p := "Unsupported content type: ";
    if e1.UnsupportedContentType? && e2.UnsupportedContentType? {
      assert ErrorMessage(e1)[|p|..] == e1.mimetype;
      assert ErrorMessage(e2)[|p|..] == e2.mimetype;
    } else if e1.UnsupportedContentType? || e2.UnsupportedContentType? {
      var m1, m2 := ErrorMessage(e1), ErrorMessage(e2);
      var u := if e1.UnsupportedContentType? then m1 else m2;
      var other := if e1.UnsupportedContentType? then m2 else m1;
      assert u[0] == 'U';
      assert other[0] != 'U';
    }
  }

  /** What the four guards demand of a file part, with no regard to the order they run in. */
  predicate Acceptable(f: FilePart) {
    && f.filename != ""
    && f.mimetype in AllowedContentTypes
    && f.size <= MaxFileSize
  }

  /**
   * The guard chain of app.py:60-75. Each guard runs only when all earlier
   * ones passed, and the first one that fails decides the error.
   */
  function Validate(req: Request): (r: Result<FilePart, ValidationError>)
    // Missing field comes first, whatever else the request holds.
    ensures req.file.None? ==> r == Failure(MissingFileField)
    // An empty filename is reported before the type or the size are looked at.
    ensures req.file.Some? && req.file.value.filename == "" ==> r == Failure(EmptyFilename)
    // The type test is exact membership in the allowed set; the size is not consulted when it fails.
    ensures req.file.Some? && req.file.value.filename != "" && req.file.value.mimetype !in AllowedContentTypes
      ==> r == Failure(UnsupportedContentType(req.file.value.mimetype))
    // The size test rejects exactly the parts larger than MaxFileSize.
    ensures req.file.Some? && req.file.value.filename != "" && req.file.value.mimetype in AllowedContentTypes
      ==> (r == Failure(FileTooLarge) <==> req.file.value.size > MaxFileSize)
    // Success exactly when every guard passes, handing the part on unchanged.
    ensures r.Success? <==> req.file.Some? && Acceptable(req.file.value)
    ensures r.Success? ==> r.value == req.file.value
  {
    if req.file.None? then Failure(MissingFileField)
    else
      var f := req.file.value;
      if f.filename == "" then Failure(EmptyFilename)
      else if f.mimetype !in AllowedContentTypes then Failure(UnsupportedContentType(f.mimetype))
      else if f.size > MaxFileSize then Failure(FileTooLarge)
      else Success(f)
  }

  /** The limit is inclusive: 10485760 bytes pass, 10485761 bytes are too large. */
  lemma SizeLimitBoundary(filename: string, mimetype: string)
    requires filename != "" && mimetype in AllowedContentTypes
    ensures Validate(Request(Some(FilePart(filename, mimetype, 10485760)))).Success?
    ensures Validate(Request(Some(FilePart(filename, mimetype, 10485761)))) == Failure(FileTooLarge)
  {
  }

  /** The blob key `{timestamp}-{safe name}` (app.py:80). */
  function BlobName(timestamp: string, safeName: string): (name: string)
    ensures |name| == |timestamp| + 1 + |safeName|
    ensures name[..|timestamp|] == timestamp
    ensures name[|timestamp|] == '-'
    ensures name[|timestamp| + 1..] == safeName
  {
    timestamp + "-" + safeName
  }

  /** Splits a blob key back into its clock reading and its sanitised filename. */
  function SplitBlobName(name: string): (r: Option<(Timestamp.Clock, string)>)
    ensures r.Some? ==> Timestamp.ValidClock(r.value.0) && |r.value.1| + 16 == |name|
  {
    if |name| >= 16 && name[15] == '-' then
      match Timestamp.Parse(name[..15])
      case Some(c) => Some((c, name[16..]))
      case None => None
    else None
  }

  /** A key built from a clock reading and a safe name splits back into exactly those two. */
  lemma SplitBlobNameRoundTrip(now: Timestamp.Clock, safeName: string)
    requires Timestamp.ValidClock(now)
    ensures SplitBlobName(BlobName(Timestamp.Format(now), safeName)) == Some((now, safeName))
  {
    Timestamp.FormatThenParse(now);
  }

  /**
   * The key depends on the second and the sanitised name alone, and on both:
   * two uploads get the same key exactly when they happen in the same second
   * under the same sanitised name.
   */
  lemma BlobNameCollision(c1: Timestamp.Clock, s1: string, c2: Timestamp.Clock, s2: string)
    requires Timestamp.ValidClock(c1) && Timestamp.ValidClock(c2)
    ensures BlobName(Timestamp.Format(c1), s1) == BlobName(Timestamp.Format(c2), s2)
      <==> c1 == c2 && s1 == s2
  {
    SplitBlobNameRoundTrip(c1, s1);
    SplitBlobNameRoundTrip(c2, s2);
  }

  /**
   * The storage write `upload_blob(name=..., overwrite=True, content_type=...)`
   * (app.py:83-88). The handler always passes `overwrite=True`, so every write
   * creates or replaces the blob under `name`.
   */
  datatype Put = Put(name: string, contentType: string)

  /** The JSON reply and its HTTP status: `{ok, error}` on rejection, `{ok, url}` on success. */
  datatype Response = Response(status: int, ok: bool, error: Option<string>, url: Option<string>)

  /** What one call of the handler does: the reply it sends and the write it makes, if any. */
  datatype UploadOutcome = UploadOutcome(response: Response, put: Option<Put>)

  /** The upload handler, app.py:60-93, with storage failures left out. */
  function HandleUpload(cfg: BlobUrls.Config, req: Request, now: Timestamp.Clock,
                        secureFilename: string -> string): (out: UploadOutcome)
    requires Timestamp.ValidClock(now)
    // Storage is written to only when every guard passed.
    ensures out.put.Some? <==> Validate(req).Success?
    // A rejection is a 400 carrying the message of the first failed guard, and writes nothing.
    ensures Validate(req).Failure? ==>
      out == UploadOutcome(Response(400, false, Some(ErrorMessage(Validate(req).error)), None), None)
    // Success: the key is the timestamp, "-", the sanitised filename; the part's mimetype is kept
    // as the content type, and the reply is a 200 with the key's public URL.
    ensures out.put.Some? ==>
      && var f := req.file.value;
      && out.put.value == Put(BlobName(Timestamp.Format(now), secureFilename(f.filename)), f.mimetype)
      && out.response == Response(200, true, None, Some(BlobUrls.BlobUrl(cfg, out.put.value.name)))
  {
    match Validate(req)
    case Failure(e) =>
      UploadOutcome(Response(400, false, Some(ErrorMessage(e)), None), None)
    case Success(f) =>
      var name := BlobName(Timestamp.Format(now), secureFilename(f.filename));
      UploadOutcome(Response(200, true, None, Some(BlobUrls.BlobUrl(cfg, name))), Some(Put(name, f.mimetype)))
  }

  /** The URL an accepted upload returns ends with "/" and the blob key, and reads back to the key. */
  lemma UploadUrlEndsWithKey(cfg: BlobUrls.Config, req: Request, now: Timestamp.Clock,
                             secureFilename: string -> string)
    requires Timestamp.ValidClock(now)
    requires HandleUpload(cfg, req, now, secureFilename).put.Some?
    ensures var out := HandleUpload(cfg, req, now, secureFilename);
      var url := out.response.url.value;
      var name := out.put.value.name;
      && url[|url| - |name| - 1..] == "/" + name
      && BlobUrls.NameOf(cfg, url) == Some(name)
  {
    var out := HandleUpload(cfg, req, now, secureFilename);
    BlobUrls.NameOfBlobUrl(cfg, out.put.value.name);
  }
}
