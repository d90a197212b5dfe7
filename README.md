# Image-upload service: validation, blob naming and public URLs

This project models the decision logic of a small image-upload web service
(`app.py`). The service accepts a multipart upload, checks it, stores it as a
blob in a cloud storage container and lists the container as a gallery of
public URLs. The model covers what the handlers decide:

- the upload guard chain: missing `file` field, empty filename, content type
  outside `image/jpeg`, `image/png`, `image/gif`, size over 10 MiB. The guards
  run in that order and the first failure answers HTTP 400 with a fixed
  message (`Upload.Validate`, `Upload.ErrorMessage`);
- the blob key `YYYYMMDDTHHMMSS-<sanitised filename>`. The timestamp is
  formatted from a clock reading (`Timestamp.Format`) and the key is built by
  `Upload.BlobName`;
- the public URL `<account URL>/<container>/<key>` and the gallery, which
  applies that rule to every listed blob name in listing order
  (`BlobUrls.BlobUrl`, `BlobUrls.Gallery`);
- the whole upload handler as one function from request to reply plus the
  storage write it issues (`Upload.HandleUpload`);
- the container as a map from key to blob, to state what the write with
  overwrite enabled does to it (`Container`).

Inputs from outside the process are parameters:
- the UTC clock reading is a `Timestamp.Clock` with the ranges a datetime
  value always has;
- werkzeug's `secure_filename` is an arbitrary function `string -> string`,
  and nothing is assumed about its output;
- the stream size measured by seeking is a natural number in the request;
- the part's `mimetype` is the media type werkzeug derives from its
  Content-Type header, and it is taken as given;
- the blob listing is a sequence of names;
- the account URL and container name are a `BlobUrls.Config`.

Files: `wrappers.dfy` (Option, Result), `timestamp.dfy`, `urls.dfy`,
`upload.dfy`, `container.dfy`.

`app.py:90` and `app.py:104` join the parts with a bare `/`, so an account
URL ending in `/` yields `//`. `BlobUrls.DoubleSlashAfterAccountUrl` states
exactly when that happens.

## Model

| member | source | states |
|---|---|---|
| Upload.Validate | app.py:60-75 | A missing `file` field gives MissingFileField whatever else the request holds. A present field with filename `""` gives EmptyFilename before type or size are examined. A type outside the allowed set gives UnsupportedContentType carrying that type, with the size not consulted. Otherwise FileTooLarge exactly when size > 10485760. Success exactly when all four conditions hold, returning the part unchanged. |
| Upload.SizeLimitBoundary | app.py:71-75 | With a valid name and type, 10485760 bytes are accepted and 10485761 bytes are rejected as FileTooLarge. |
| Upload.ErrorMessage | app.py:61-75 | The unsupported-type message is the fixed prefix followed by the part's mimetype, so it ends with that mimetype. |
| Upload.ErrorMessageInjective | app.py:60-75 | Two rejections have the same message exactly when they are the same rejection, including the same mimetype. |
| Upload.BlobName | app.py:80 | The key is the timestamp, then `-`, then the safe name; each part can be sliced back out at fixed positions. |
| Upload.SplitBlobNameRoundTrip | app.py:78-80 | A key built from a clock reading and a safe name splits back into exactly that reading and that name. |
| Upload.BlobNameCollision | app.py:78-80 | Two keys are equal exactly when the clock readings (to the second) and the sanitised names are equal. |
| Upload.HandleUpload | app.py:60-93 | A storage write is issued exactly when validation succeeds. A rejection is `400`, `ok=false` with the first failed guard's message, and writes nothing. On success the write has key `timestamp-safe_name` and the part's mimetype as content type, and the reply is `200`, `ok=true` with that key's URL. |
| Upload.UploadUrlEndsWithKey | app.py:90-93 | The URL returned on success ends with `/` followed by the blob key, and the key can be read back from it. |
| Timestamp.ZeroPad | app.py:79 | A number below 10^width is written as exactly `width` decimal digits whose value is the number. |
| Timestamp.Format | app.py:79 | The `%Y%m%dT%H%M%S` timestamp has length 15, `T` at index 8 and a digit at every other index. |
| Timestamp.Parse | app.py:79 | A string that reads back as a clock is 15 characters with `T` at index 8 and digits elsewhere, and it denotes a valid clock reading. |
| Timestamp.FormatThenParse | app.py:79 | Reading back a formatted timestamp gives the original clock reading. |
| Timestamp.ParseThenFormat | app.py:79 | Every string that reads back as a clock reading is the formatted timestamp of that reading. |
| Timestamp.FormatInjective | app.py:79 | Two clock readings give the same timestamp exactly when they are the same second. |
| BlobUrls.BlobUrl | app.py:90 | The URL is the account URL, `/`, the container, `/` and the blob name, each at a fixed position, so it ends with `/` followed by the name. |
| BlobUrls.NameOfBlobUrl | app.py:90 | The blob name read back from a URL built for a name is that name. |
| BlobUrls.BlobUrlOfNameOf | app.py:90 | Any URL from which a name can be read back is the URL the rule builds for that name. |
| BlobUrls.BlobUrlInjective | app.py:90 | Within one container, two blobs have the same URL exactly when they have the same name. |
| BlobUrls.DoubleSlashAfterAccountUrl | app.py:90 | The URL holds `//` at the join after the account URL exactly when the account URL ends with `/`. |
| BlobUrls.Gallery | app.py:104 | The gallery has the listing's length and order, and entry i is the URL rule applied to name i. |
| BlobUrls.GalleryAppend | app.py:104 | The gallery of two concatenated listings is the concatenation of their galleries. |
| BlobUrls.GalleryNames | app.py:104 | Each gallery URL reads back to the blob name listed at its position. |
| BlobUrls.GalleryDistinct | app.py:104 | The gallery has no repeated URL exactly when the listing has no repeated name. |
| Container.ApplyPut | app.py:83-88 | A write with `overwrite=True` adds its key, creates or replaces the blob under it with the given content type, and leaves every other blob untouched. |
| Container.AfterUpload | app.py:60-88 | A rejected request leaves the container unchanged. An accepted one adds exactly its key, tagged with the part's mimetype, and every blob under another key keeps its content type. |
| Container.SameSecondSameNameOverwrites | app.py:78-88 | Consider two accepted uploads in the same second whose filenames sanitise to the same name. They leave one blob for the pair, holding the second upload's content type. |
| Container.DistinctKeysKeepBoth | app.py:78-88 | Consider two accepted uploads in different seconds, or with different sanitised names. They get different keys, and both blobs remain with their own content types. |
| Container.KeysAfterUploads | app.py:60-88 | Serving a run of accepted uploads adds exactly their blob keys to the container and no others. |
| Container.GalleryCountsBlobs | app.py:103-104 | A listing of a container gives exactly one URL per stored blob, and no URL appears twice. |
| Container.GalleryAfterDistinctUploads | app.py:60-104 | N accepted uploads into an empty container, no two in the same second under the same sanitised name, give a gallery of exactly N URLs. |

## Left out

- Flask routing, `render_template`, `jsonify` and the index and health endpoints (app.py:41-54, 114-115): framework plumbing with no decisions in it. The JSON reply is modelled as a record of status, `ok`, `error` and `url`.
- The storage SDK (app.py:32-39, 83-88, 103): client construction, container creation with its swallow-all `except`, `upload_blob` and `list_blobs` are network calls. The write is an abstract `Upload.Put` event, its effect is the map update in `Container.ApplyPut`, and the listing is an input sequence. Since the handler always passes `overwrite=True`, a write without overwrite is not modelled. The blob bytes are not modelled, only the content-type tag.
- `secure_filename` (app.py:78): werkzeug code that is not part of this model. It is an uninterpreted function parameter.
- `datetime.utcnow()` (app.py:79): a clock, passed in as a `Timestamp.Clock`.
- Timestamp.Format: always pads the year to four digits. For years below 1000, some Python builds print `%Y` without padding. This cannot arise from a current clock reading.
- werkzeug's derivation of `f.mimetype` from the Content-Type header (parameters dropped, the rest lower-cased): not modelled. `Upload.FilePart.mimetype` is that derived value, so a part declared `image/PNG; charset=binary` appears in the model as `image/png`.
- `f.seek` / `f.tell` (app.py:71-73): stream I/O. The measured size is a field of the request.
- Reading the environment and the startup `RuntimeError` checks (app.py:13-21): process configuration. The account URL and container name are given in `BlobUrls.Config`.
- The `except Exception` paths that answer HTTP 500, and the logging calls (app.py:91, 95-97, 106-108): they depend on arbitrary failures of foreign code and on side effects.
