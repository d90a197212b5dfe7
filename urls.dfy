/**
 * The public-URL rule shared by the upload and gallery handlers:
 * `{account URL}/{container}/{blob name}` (app.py:90 and app.py:104),
 * and the gallery listing, which applies that rule to each listed blob name.
 */
module BlobUrls {
  import opened Wrappers

  /** The process-wide settings the URL rule reads: the storage account URL and the container name. */
  datatype Config = Config(accountUrl: string, container: string)

  /** Everything in front of the blob name: `{account URL}/{container}/`. */
  function Prefix(cfg: Config): string {
    cfg.accountUrl + "/" + cfg.container + "/"
  }

  /** The public URL of the blob `name`. */
  function BlobUrl(cfg: Config, name: string): (url: string)
    ensures |url| == |cfg.accountUrl| + |cfg.container| + |name| + 2
    ensures url[..|cfg.accountUrl|] == cfg.accountUrl
    ensures url[|cfg.accountUrl|] == '/'
    ensures url[|cfg.accountUrl| + 1..|cfg.accountUrl| + 1 + |cfg.container|] == cfg.container
    ensures url[|url| - |name| - 1..] == "/" + name
  {
    var url := Prefix(cfg) + name;
    assert url[|url| - |name| - 1..] == [url[|url| - |name| - 1]] + url[|url| - |name|..];
    url
  }

  /** Recovers the blob name from a URL built for this configuration. */
  function NameOf(cfg: Config, url: string): (r: Option<string>)
    ensures r.Some? ==> |r.value| <= |url|
  {
    var p := Prefix(cfg);
    if |p| <= |url| && url[..|p|] == p then Some(url[|p|..]) else None
  }

  /** Blob name to URL and back gives the name. */
  lemma NameOfBlobUrl(cfg: Config, name: string)
    ensures NameOf(cfg, BlobUrl(cfg, name)) == Some(name)
  {
    var p := Prefix(cfg);
    assert BlobUrl(cfg, name)[..|p|] == p;
  }

  /** Every URL the rule can read back is the URL of the name it reads. */
  lemma BlobUrlOfNameOf(cfg: Config, url: string)
    requires NameOf(cfg, url).Some?
    ensures BlobUrl(cfg, NameOf(cfg, url).value) == url
  {
    var p := Prefix(cfg);
    assert url == url[..|p|] + url[|p|..];
  }

  /** Two blobs of one container share a URL only if they share a name. */
  lemma BlobUrlInjective(cfg: Config, n1: string, n2: string)
    ensures BlobUrl(cfg, n1) == BlobUrl(cfg, n2) <==> n1 == n2
  {
    NameOfBlobUrl(cfg, n1);
    NameOfBlobUrl(cfg, n2);
  }

  /**
   * The rule joins with a bare "/", so the URL holds "//" right after the
   * account URL exactly when the configured account URL ends in "/".
   */
  lemma DoubleSlashAfterAccountUrl(cfg: Config, name: string)
    requires cfg.accountUrl != ""
    ensures var a := cfg.accountUrl; var url := BlobUrl(cfg, name);
      url[|a| - 1..|a| + 1] == "//" <==> a[|a| - 1] == '/'
  {
    var a := cfg.accountUrl;
    var url := BlobUrl(cfg, name);
    assert url[|a| - 1] == a[|a| - 1];
    assert url[|a| - 1..|a| + 1] == [url[|a| - 1], url[|a|]];
  }

  /** The gallery: every listed blob name turned into its URL, in listing order. */
  function Gallery(cfg: Config, names: seq<string>): (urls: seq<string>)
    ensures |urls| == |names|
    ensures forall i :: 0 <= i < |names| ==> urls[i] == BlobUrl(cfg, names[i])
  {
    if names == [] then [] else [BlobUrl(cfg, names[0])] + Gallery(cfg, names[1..])
  }

  /** Listing two batches of names gives the two galleries one after the other. */
  lemma GalleryAppend(cfg: Config, a: seq<string>, b: seq<string>)
    ensures Gallery(cfg, a + b) == Gallery(cfg, a) + Gallery(cfg, b)
  {
  }

  /** The gallery loses no information: each URL reads back to the name listed at its position. */
  lemma GalleryNames(cfg: Config, names: seq<string>, i: int)
    requires 0 <= i < |names|
    ensures NameOf(cfg, Gallery(cfg, names)[i]) == Some(names[i])
  {
    NameOfBlobUrl(cfg, names[i]);
  }

  predicate Distinct<T(==)>(s: seq<T>) {
    forall i, j :: 0 <= i < j < |s| ==> s[i] != s[j]
  }

  /** A listing of distinct blob names gives a gallery of distinct URLs, and conversely. */
  lemma GalleryDistinct(cfg: Config, names: seq<string>)
    ensures Distinct(Gallery(cfg, names)) <==> Distinct(names)
  {
    var urls := Gallery(cfg, names);
    forall i, j | 0 <= i < j < |names|
      ensures urls[i] == urls[j] <==> names[i] == names[j]
    {
      BlobUrlInjective(cfg, names[i], names[j]);
    }
  }
}
