/**
 * Validation of an image delete request: the object path inside the storage
 * bucket, given directly or derived from the public URL of the object.
 */
module ImageSerializer {
  import opened Base
  import opened Text

  /** The validated fields of `ImageDeleteSerializer`; absent optional fields are `None`. */
  datatype DeleteRequest = DeleteRequest(bucket: string, filePath: Option<string>, url: Option<string>)

  /** Python truthiness of an optional string. */
  predicate Given(s: Option<string>) {
    s.Some? && s.value != ""
  }

  /** The separator the URL path is split on: `/<bucket>/`. */
  function Separator(bucket: string): (sep: string)
    ensures |sep| == |bucket| + 2 && sep[0] == '/' && sep[|sep| - 1] == '/'
    ensures sep[1..|sep| - 1] == bucket
  {
    "/" + bucket + "/"
  }

  const MissingMessage := "Either 'file_path' or 'url' must be provided."
  const BadUrlMessage := "Invalid Supabase URL format."

  /**
   * `ImageDeleteSerializer.validate`. `pathOf` stands for `urlparse(url).path`.
   * Without either field validation fails; a given `file_path` is kept as it is;
   * otherwise `file_path` becomes the part of the URL path after the first
   * `/<bucket>/`, and a path without one fails.
   */
  function Validate(data: DeleteRequest, pathOf: string -> string): (r: Result<DeleteRequest, PyError>)
    ensures !Given(data.filePath) && !Given(data.url) ==> r == Err(ValidationError(MissingMessage))
    ensures Given(data.filePath) ==> r == Ok(data)
    ensures !Given(data.filePath) && Given(data.url) ==>
      (r.Ok? <==> Contains(pathOf(data.url.value), Separator(data.bucket)))
    ensures r.Err? ==> r.error == ValidationError(MissingMessage) || r.error == ValidationError(BadUrlMessage)
    ensures r.Ok? ==> r.value.bucket == data.bucket && r.value.url == data.url && r.value.filePath.Some?
    ensures r.Ok? && !Given(data.filePath) ==> DecomposesAt(pathOf(data.url.value), Separator(data.bucket),
                                                             r.value.filePath.value)
  {
    if !Given(data.filePath) && !Given(data.url) then Err(ValidationError(MissingMessage))
    else if Given(data.url) && !Given(data.filePath) then
      var path := pathOf(data.url.value);
      var sep := Separator(data.bucket);
      match Find(path, sep)
      case Some(i) =>
        var rest := path[i + |sep|..];
        assert path == path[..i] + sep + rest;
        Ok(data.(filePath := Some(rest)))
      case None => Err(ValidationError(BadUrlMessage))
    else Ok(data)
  }

  /**
   * `path` is `prefix + sep + rest` for a prefix in which `sep` does not start:
   * `rest` is what follows the first occurrence of `sep`.
   */
  predicate DecomposesAt(path: string, sep: string, rest: string) {
    |rest| + |sep| <= |path|
    && path == path[..|path| - |rest| - |sep|] + sep + rest
    && forall j :: 0 <= j < |path| - |rest| - |sep| ==> !OccursAt(path, sep, j)
  }

  /**
   * The decomposition round trip: a URL whose path is a prefix without
   * `/<bucket>/`, then `/<bucket>/`, then `rest`, validates to `rest`.
   */
  lemma UrlRoundTrip(bucket: string, url: string, prefix: string, rest: string, pathOf: string -> string)
    requires url != ""
    requires pathOf(url) == prefix + Separator(bucket) + rest
    requires forall j :: 0 <= j < |prefix| ==> !OccursAt(prefix + Separator(bucket) + rest, Separator(bucket), j)
    ensures Validate(DeleteRequest(bucket, None, Some(url)), pathOf) == Ok(DeleteRequest(bucket, Some(rest), Some(url)))
  {
    var path := pathOf(url);
    var sep := Separator(bucket);
    assert OccursAt(path, sep, |prefix|) by {
      assert path[|prefix|..|prefix| + |sep|] == sep;
    }
    var r := Find(path, sep);
    assert r == Some(|prefix|);
    assert path[|prefix| + |sep|..] == rest;
  }

  /** A given `file_path` wins: the URL, valid or not, is never looked at. */
  lemma FilePathWins(bucket: string, filePath: string, url: Option<string>, p1: string -> string, p2: string -> string)
    requires filePath != ""
    ensures Validate(DeleteRequest(bucket, Some(filePath), url), p1) == Validate(DeleteRequest(bucket, Some(filePath), url), p2)
              == Ok(DeleteRequest(bucket, Some(filePath), url))
  {
  }
}
