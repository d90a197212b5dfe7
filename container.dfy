/**
 * The blob container as the handlers see it: a map from blob key to stored
 * blob. The storage service itself is not part of this model; this module
 * gives the meaning of the write the upload handler issues (create or
 * replace, since it always passes overwrite=True) and what a listing of the container is,
 * so that the overwrite behaviour of equal keys and the size of the gallery
 * can be stated.
 */
module Container {
  import opened Wrappers
  import Timestamp
  import BlobUrls
  import Upload

  /** What the container keeps of a blob: its content-type tag (the bytes are not modelled). */
  datatype StoredBlob = StoredBlob(contentType: string)

  type Store = map<string, StoredBlob>

  /** The effect of an optional write: it creates the blob, or replaces the one already under that key. */
  function ApplyPut(store: Store, put: Option<Upload.Put>): (s: Store)
    ensures put.None? ==> s == store
    ensures put.Some? ==> s.Keys == store.Keys + {put.value.name}
    ensures put.Some? ==> s[put.value.name] == StoredBlob(put.value.contentType)
    ensures put.Some? ==> forall n :: n in store && n != put.value.name ==> s[n] == store[n]
  {
    match put
    case None => store
    case Some(p) => store[p.name := StoredBlob(p.contentType)]
  }

  /** The container after one call of the upload handler. */
  function AfterUpload(store: Store, cfg: BlobUrls.Config, req: Upload.Request, now: Timestamp.Clock,
                       secureFilename: string -> string): (s: Store)
    requires Timestamp.ValidClock(now)
    // No rejected request changes the container.
    ensures Upload.Validate(req).Failure? ==> s == store
    // An accepted one adds its key, tagged with the part's mimetype, and leaves every other blob as it was.
    ensures Upload.Validate(req).Success? ==>
      && var name := Upload.HandleUpload(cfg, req, now, secureFilename).put.value.name;
      && s.Keys == store.Keys + {name}
      && s[name] == StoredBlob(req.file.value.mimetype)
      && forall n :: n in store && n != name ==> s[n] == store[n]
  {
    ApplyPut(store, Upload.HandleUpload(cfg, req, now, secureFilename).put)
  }

  /**
   * Two accepted uploads in the same second whose filenames sanitise to the
   * same name write the same key: the container ends up with one blob for the
   * pair, holding the second upload's content type.
   */
  lemma SameSecondSameNameOverwrites(store: Store, cfg: BlobUrls.Config, r1: Upload.Request,
                                     r2: Upload.Request, now: Timestamp.Clock,
                                     secureFilename: string -> string)
    requires Timestamp.ValidClock(now)
    requires Upload.Validate(r1).Success? && Upload.Validate(r2).Success?
    requires secureFilename(r1.file.value.filename) == secureFilename(r2.file.value.filename)
    ensures var name := Upload.BlobName(Timestamp.Format(now), secureFilename(r1.file.value.filename));
      var once := AfterUpload(store, cfg, r1, now, secureFilename);
      var twice := AfterUpload(once, cfg, r2, now, secureFilename);
      && twice.Keys == once.Keys == store.Keys + {name}
      && twice[name] == StoredBlob(r2.file.value.mimetype)
  {
  }

  /** Uploads in different seconds, or with different sanitised names, keep both blobs. */
  lemma DistinctKeysKeepBoth(store: Store, cfg: BlobUrls.Config, r1: Upload.Request, c1: Timestamp.Clock,
                             r2: Upload.Request, c2: Timestamp.Clock, secureFilename: string -> string)
    requires Timestamp.ValidClock(c1) && Timestamp.ValidClock(c2)
    requires Upload.Validate(r1).Success? && Upload.Validate(r2).Success?
    requires c1 != c2 || secureFilename(r1.file.value.filename) != secureFilename(r2.file.value.filename)
    ensures var n1 := Upload.BlobName(Timestamp.Format(c1), secureFilename(r1.file.value.filename));
      var n2 := Upload.BlobName(Timestamp.Format(c2), secureFilename(r2.file.value.filename));
      var after := AfterUpload(AfterUpload(store, cfg, r1, c1, secureFilename), cfg, r2, c2, secureFilename);
      && n1 != n2
      && after.Keys == store.Keys + {n1, n2}
      && after[n1] == StoredBlob(r1.file.value.mimetype)
      && after[n2] == StoredBlob(r2.file.value.mimetype)
  {
    Upload.BlobNameCollision(c1, secureFilename(r1.file.value.filename),
                             c2, secureFilename(r2.file.value.filename));
  }

  /** A listing of a container: every stored key exactly once, in some order. */
  predicate IsListingOf(names: seq<string>, store: Store) {
    && BlobUrls.Distinct(names)
    && store.Keys == set n | n in names
  }

  /** The set of the elements of a sequence without repeats has as many members as the sequence. */
  lemma {:induction false} DistinctCardinality(names: seq<string>)
    requires BlobUrls.Distinct(names)
    ensures |set n | n in names| == |names|
  {
    if names != [] {
      var rest := names[1..];
      DistinctCardinality(rest);
      assert (set n | n in names) == (set n | n in rest) + {names[0]};
      assert names[0] !in rest;
    }
  }

  /** The gallery of a container lists one URL per stored blob, all of them different. */
  lemma GalleryCountsBlobs(cfg: BlobUrls.Config, names: seq<string>, store: Store)
    requires IsListingOf(names, store)
    ensures |BlobUrls.Gallery(cfg, names)| == |store.Keys|
    ensures BlobUrls.Distinct(BlobUrls.Gallery(cfg, names))
  {
    DistinctCardinality(names);
    assert (set n | n in names) == store.Keys;
    BlobUrls.GalleryDistinct(cfg, names);
  }

  /** One call of the upload handler: the request and the clock reading at that moment. */
  datatype UploadCall = UploadCall(req: Upload.Request, now: Timestamp.Clock)

  predicate ValidClocks(calls: seq<UploadCall>) {
    forall i :: 0 <= i < |calls| ==> Timestamp.ValidClock(calls[i].now)
  }

  predicate AllAccepted(calls: seq<UploadCall>) {
    forall i :: 0 <= i < |calls| ==> Upload.Validate(calls[i].req).Success?
  }

  /** The container after the handler has served `calls`, one after the other. */
  function AfterUploads(store: Store, cfg: BlobUrls.Config, calls: seq<UploadCall>,
                        secureFilename: string -> string): Store
    requires ValidClocks(calls)
    decreases |calls|
  {
    if calls == [] then store
    else AfterUploads(AfterUpload(store, cfg, calls[0].req, calls[0].now, secureFilename), cfg, calls[1..], secureFilename)
  }

  /** The blob key an accepted call writes. */
  function CallKey(c: UploadCall, secureFilename: string -> string): string
    requires Timestamp.ValidClock(c.now) && Upload.Validate(c.req).Success?
  {
    Upload.BlobName(Timestamp.Format(c.now), secureFilename(c.req.file.value.filename))
  }

  /** The keys accepted calls write, in order. */
  function CallKeys(calls: seq<UploadCall>, secureFilename: string -> string): (keys: seq<string>)
    requires ValidClocks(calls) && AllAccepted(calls)
    ensures |keys| == |calls|
    ensures forall i :: 0 <= i < |calls| ==> keys[i] == CallKey(calls[i], secureFilename)
  {
    if calls == [] then [] else [CallKey(calls[0], secureFilename)] + CallKeys(calls[1..], secureFilename)
  }

  /** Serving accepted calls adds exactly their keys to the container. */
  lemma {:induction false} KeysAfterUploads(store: Store, cfg: BlobUrls.Config, calls: seq<UploadCall>,
                                            secureFilename: string -> string)
    requires ValidClocks(calls) && AllAccepted(calls)
    ensures AfterUploads(store, cfg, calls, secureFilename).Keys
      == store.Keys + set n | n in CallKeys(calls, secureFilename)
    decreases |calls|
  {
    if calls != [] {
      var c := calls[0];
      var next := AfterUpload(store, cfg, c.req, c.now, secureFilename);
      assert next.Keys == store.Keys + {CallKey(c, secureFilename)};
      KeysAfterUploads(next, cfg, calls[1..], secureFilename);
      assert CallKeys(calls, secureFilename) == [CallKey(c, secureFilename)] + CallKeys(calls[1..], secureFilename);
    }
  }

  /**
   * N accepted uploads into an empty container, no two of them in the same
   * second under the same sanitised name, leave N blobs, so any listing of the
   * container yields a gallery of exactly N URLs.
   */
  lemma {:induction false} GalleryAfterDistinctUploads(cfg: BlobUrls.Config, calls: seq<UploadCall>,
                                                       secureFilename: string -> string, names: seq<string>)
    requires ValidClocks(calls) && AllAccepted(calls)
    requires forall i, j :: 0 <= i < j < |calls| ==>
      calls[i].now != calls[j].now
      || secureFilename(calls[i].req.file.value.filename) != secureFilename(calls[j].req.file.value.filename)
    requires IsListingOf(names, AfterUploads(map[], cfg, calls, secureFilename))
    ensures |BlobUrls.Gallery(cfg, names)| == |calls|
  {
    var keys := CallKeys(calls, secureFilename);
    forall i, j | 0 <= i < j < |calls| ensures keys[i] != keys[j] {
      Upload.BlobNameCollision(calls[i].now, secureFilename(calls[i].req.file.value.filename),
                               calls[j].now, secureFilename(calls[j].req.file.value.filename));
    }
    DistinctCardinality(keys);
    KeysAfterUploads(map[], cfg, calls, secureFilename);
    GalleryCountsBlobs(cfg, names, AfterUploads(map[], cfg, calls, secureFilename));
  }
}
