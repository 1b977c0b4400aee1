/**
 * The Cloudflare Worker that serves stored images (functions/image-worker.js):
 * match `/images/{userId}/{imageName}`, read the object from the
 * `PROFILE_IMAGES` bucket and answer its bytes with caching and CORS
 * headers. The bucket is a map from key to object; a failure while reading
 * it is a parameter.
 */
module ImageWorker {
  import opened Common
  import opened Uri
  import opened R2Upload
  import opened UploadRoute
  import opened ImageUrl

  /** What the bucket holds for a key: its stored content type, its entity tag and its bytes. */
  datatype StoredObject = StoredObject(contentType: Option<string>, httpEtag: string, data: seq<bv8>)

  datatype WorkerBody = TextBody(text: string) | Bytes(data: seq<bv8>)

  datatype WorkerResponse = WorkerResponse(status: int, body: WorkerBody, headers: map<string, string>)

  /** Exactly one `/` splits the key into two non-empty parts. */
  predicate TwoSegments(key: string)
  {
    var i := IndexOf(key, '/');
    0 < i < |key| - 1 && '/' !in key[i + 1..]
  }

  /** `^/images/([^/]+)/([^/]+)$`: the key `userId/imageName` of a matching path. */
  function ParseImagePath(path: string): (key: Option<string>)
    ensures key.Some? <==> StartsWith(path, "/images/") && TwoSegments(path[8..])
    ensures key.Some? ==> path == "/images/" + key.value
  {
    if StartsWith(path, "/images/") && TwoSegments(path[8..]) then
      assert path == path[..8] + path[8..];
      Some(path[8..])
    else None
  }

  /** Any user id and image name without `/` form a path the worker serves under their key. */
  lemma ParseImagePathOf(userId: string, imageName: string)
    requires userId != "" && imageName != ""
    requires '/' !in userId && '/' !in imageName
    ensures ParseImagePath("/images/" + userId + "/" + imageName) == Some(userId + "/" + imageName)
  {
    var key := userId + "/" + imageName;
    var path := "/images/" + key;
    assert path == "/images/" + userId + "/" + imageName;
    assert path[..8] == "/images/";
    assert path[8..] == key;
    assert key[..|userId|] == userId && key[|userId|] == '/';
    assert IndexOf(key, '/') == |userId|;
    assert key[|userId| + 1..] == imageName;
  }

  /** The content type guessed from the key's extension. */
  function ExtensionType(key: string): (t: string)
    ensures EndsWith(key, ".jpg") || EndsWith(key, ".jpeg") ==> t == "image/jpeg"
    ensures t == "application/octet-stream" <==>
      !(EndsWith(key, ".jpg") || EndsWith(key, ".jpeg") || EndsWith(key, ".png") || EndsWith(key, ".gif") || EndsWith(key, ".webp"))
  {
    if EndsWith(key, ".jpg") || EndsWith(key, ".jpeg") then "image/jpeg"
    else if EndsWith(key, ".png") then "image/png"
    else if EndsWith(key, ".gif") then "image/gif"
    else if EndsWith(key, ".webp") then "image/webp"
    else "application/octet-stream"
  }

  /**
   * The content type as the worker computes it: `||` binds tighter than
   * `?:`, so a stored content type only selects the JPEG branch.
   */
  function ContentTypeAsWritten(stored: Option<string>, key: string): (t: string)
    ensures Truthy(stored) ==> t == "image/jpeg"
    ensures !Truthy(stored) ==> t == ExtensionType(key)
  {
    if Truthy(stored) || EndsWith(key, ".jpg") || EndsWith(key, ".jpeg") then "image/jpeg"
    else if EndsWith(key, ".png") then "image/png"
    else if EndsWith(key, ".gif") then "image/gif"
    else if EndsWith(key, ".webp") then "image/webp"
    else "application/octet-stream"
  }

  /** A PNG stored with its own content type is served as JPEG. */
  lemma StoredPngServedAsJpeg()
    ensures ContentTypeAsWritten(Some("image/png"), "u/abcd1234-a.png") == "image/jpeg"
    ensures ContentTypeCorrected(Some("image/png"), "u/abcd1234-a.png") == "image/png"
  {
  }

  /** Every stored type other than JPEG is lost as written, and kept by the correction. */
  lemma AsWrittenLosesStoredType(stored: Option<string>, key: string)
    requires Truthy(stored) && stored.value != "image/jpeg"
    ensures ContentTypeAsWritten(stored, key) != stored.value
    ensures ContentTypeCorrected(stored, key) == stored.value
  {
  }

  /** The content type as evidently intended: the stored one, else the extension's. */
  function ContentTypeCorrected(stored: Option<string>, key: string): (t: string)
    ensures t != ""
    ensures Truthy(stored) ==> t == stored.value
    ensures !Truthy(stored) ==> t == ExtensionType(key)
  {
    if Truthy(stored) then stored.value else ExtensionType(key)
  }

  /** The headers of a served image, given the content type chosen for it. */
  function ImageHeaders(obj: StoredObject, contentType: string): map<string, string>
  {
    map["Content-Type" := contentType,
        "Cache-Control" := "public, max-age=31536000",
        "ETag" := obj.httpEtag,
        "Access-Control-Allow-Origin" := "*",
        "Cross-Origin-Resource-Policy" := "cross-origin"]
  }

  /** `parseInt(url.searchParams.get(name) || '0')`. */
  function RequestedSize(query: Query, name: string): Option<int>
  {
    ParseInt(OrElse(QueryGet(query, name), "0"), Auto)
  }

  /**
   * The worker's `fetch` for a request whose path and decoded query are
   * given, with the content-type selection `typeOf` as a parameter.
   */
  function ServeImage(path: string, query: Query, bucket: map<string, StoredObject>, readFails: bool,
                      typeOf: (Option<string>, string) -> string): (r: WorkerResponse)
    ensures ParseImagePath(path).None? ==> r == WorkerResponse(404, TextBody("Image not found"), map[])
    ensures ParseImagePath(path).Some? && readFails ==> r == WorkerResponse(500, TextBody("Error serving image"), map[])
    ensures ParseImagePath(path).Some? && !readFails && ParseImagePath(path).value !in bucket ==>
      r == WorkerResponse(404, TextBody("Image not found"), map[])
    // served: the stored bytes, whatever size the query asks for
    ensures r.status == 200 <==> ParseImagePath(path).Some? && !readFails && ParseImagePath(path).value in bucket
    ensures r.status == 200 ==>
      var key := ParseImagePath(path).value;
      r.body == Bytes(bucket[key].data) && r.headers == ImageHeaders(bucket[key], typeOf(bucket[key].contentType, key))
  {
    match ParseImagePath(path)
    case None => WorkerResponse(404, TextBody("Image not found"), map[])
    case Some(key) =>
      if readFails then WorkerResponse(500, TextBody("Error serving image"), map[])
      else if key !in bucket then WorkerResponse(404, TextBody("Image not found"), map[])
      else
        var obj := bucket[key];
        var width := RequestedSize(query, "width");
        var height := RequestedSize(query, "height");
        var headers := ImageHeaders(obj, typeOf(obj.contentType, key));
        if !(width.Some? && width.value != 0) && !(height.Some? && height.value != 0) then
          WorkerResponse(200, Bytes(obj.data), headers)
        else
          WorkerResponse(200, Bytes(obj.data), headers)
  }

  /** The worker's `fetch` as written: a stored content type is served as `image/jpeg`. */
  function Fetch(path: string, query: Query, bucket: map<string, StoredObject>, readFails: bool): (r: WorkerResponse)
    ensures r.status == 200 <==> ParseImagePath(path).Some? && !readFails && ParseImagePath(path).value in bucket
    ensures r.status != 200 ==> r.headers == map[] && r.body.TextBody?
    ensures r.status == 200 ==>
      var key := ParseImagePath(path).value;
      r.body == Bytes(bucket[key].data) && "Content-Type" in r.headers &&
      r.headers["Content-Type"] == (if Truthy(bucket[key].contentType) then "image/jpeg" else ExtensionType(key))
  {
    ServeImage(path, query, bucket, readFails, ContentTypeAsWritten)
  }

  /** The worker's `fetch` with the content type as evidently intended. */
  function FetchCorrected(path: string, query: Query, bucket: map<string, StoredObject>, readFails: bool): (r: WorkerResponse)
    ensures r.status == 200 <==> ParseImagePath(path).Some? && !readFails && ParseImagePath(path).value in bucket
    ensures r.status == 200 ==>
      var key := ParseImagePath(path).value;
      r.body == Bytes(bucket[key].data) && "Content-Type" in r.headers &&
      r.headers["Content-Type"] == (if Truthy(bucket[key].contentType) then bucket[key].contentType.value else ExtensionType(key))
  {
    ServeImage(path, query, bucket, readFails, ContentTypeCorrected)
  }

  /**
   * The worker as written and as corrected answer alike except for the
   * Content-Type of a served image, which differs exactly when a stored
   * type other than JPEG is present.
   */
  lemma FetchDiffersOnlyInContentType(path: string, query: Query, bucket: map<string, StoredObject>, readFails: bool)
    ensures var w, c := Fetch(path, query, bucket, readFails), FetchCorrected(path, query, bucket, readFails);
      w.status == c.status && w.body == c.body && w.headers.Keys == c.headers.Keys &&
      (forall h :: h in w.headers && h != "Content-Type" ==> w.headers[h] == c.headers[h]) &&
      (w.headers == c.headers <==>
        w.status != 200 || !Truthy(bucket[ParseImagePath(path).value].contentType) ||
        bucket[ParseImagePath(path).value].contentType.value == "image/jpeg")
  {
    var w, c := Fetch(path, query, bucket, readFails), FetchCorrected(path, query, bucket, readFails);
    if w.status == 200 {
      var key := ParseImagePath(path).value;
      var obj := bucket[key];
      assert w.headers == ImageHeaders(obj, ContentTypeAsWritten(obj.contentType, key));
      assert c.headers == ImageHeaders(obj, ContentTypeCorrected(obj.contentType, key));
      if w.headers == c.headers {
        assert w.headers["Content-Type"] == c.headers["Content-Type"];
      }
    }
  }

  /** The query of a URL: what follows its first `?`, or nothing. */
  function SearchOf(url: string): string
  {
    var i := IndexOf(url, '?');
    if i == |url| then "" else url[i + 1..]
  }

  /**
   * The sizes `getImageUrl` puts on a URL are the sizes the worker reads
   * from it, 0 standing for none.
   */
  lemma WorkerReadsRequestedSize(key: string, o: ImageOptions, appUrl: Option<string>)
    requires '?' !in OrElse(appUrl, DefaultBase) + "/images/" + key
    ensures var q := ParseQuery(SearchOf(GetImageUrl(key, Some(o), appUrl)));
      q == ImageParams(o) &&
      RequestedSize(q, "width") == Some(OrZero(o.width)) &&
      RequestedSize(q, "height") == Some(OrZero(o.height))
  {
    SearchOfImageUrl(key, o, appUrl);
    ParseIntOfIntToString(OrZero(o.width), Auto);
    ParseIntOfIntToString(OrZero(o.height), Auto);
    WidthHeightLookup(o);
  }

  /** The query the worker sees on an image URL is the parameters `getImageUrl` appended. */
  lemma SearchOfImageUrl(key: string, o: ImageOptions, appUrl: Option<string>)
    requires '?' !in OrElse(appUrl, DefaultBase) + "/images/" + key
    ensures ParseQuery(SearchOf(GetImageUrl(key, Some(o), appUrl))) == ImageParams(o)
  {
    var base := OrElse(appUrl, DefaultBase) + "/images/" + key;
    var ps := ImageParams(o);
    var url := GetImageUrl(key, Some(o), appUrl);
    if ps == [] {
      assert IndexOf(url, '?') == |url|;
      assert ParseQuery("") == [];
    } else {
      assert url == base + "?" + BuildQuery(ps);
      assert url[..|base|] == base && url[|base|] == '?';
      assert IndexOf(url, '?') == |base|;
      assert url[|base| + 1..] == BuildQuery(ps);
      ParseBuildQuery(ps);
    }
  }

  lemma WidthHeightLookup(o: ImageOptions)
    ensures NumTruthy(o.width) ==> QueryGet(ImageParams(o), "width") == Some(IntToString(o.width.value))
    ensures NumTruthy(o.height) ==> QueryGet(ImageParams(o), "height") == Some(IntToString(o.height.value))
    ensures !NumTruthy(o.width) ==> OrElse(QueryGet(ImageParams(o), "width"), "0") == IntToString(OrZero(o.width))
    ensures !NumTruthy(o.height) ==> OrElse(QueryGet(ImageParams(o), "height"), "0") == IntToString(OrZero(o.height))
  {
    var ps := ImageParams(o);
    assert "width" != "height";
    if NumTruthy(o.height) && NumTruthy(o.width) {
      assert ps[1..] == [("height", IntToString(o.height.value))];
    }
    if !NumTruthy(o.width) {
      assert IntToString(0) == "0";
    }
    if !NumTruthy(o.height) {
      assert IntToString(0) == "0";
    }
  }

  /** An avatar URL asks the worker for a square of the requested size, 128 by default. */
  lemma AvatarSizeReachesWorker(key: string, size: Option<int>, appUrl: Option<string>)
    requires '?' !in OrElse(appUrl, DefaultBase) + "/images/" + key
    ensures var s := if size.Some? then size.value else 128;
      var q := ParseQuery(SearchOf(GetProfileAvatarUrl(key, size, appUrl)));
      RequestedSize(q, "width") == Some(s) && RequestedSize(q, "height") == Some(s)
  {
    var s := if size.Some? then size.value else 128;
    WorkerReadsRequestedSize(key, ImageOptions(Some(s), Some(s)), appUrl);
  }

  /**
   * The URL the upload route answers is the default image URL of the key,
   * and once the object is in the bucket the worker serves its bytes on
   * that path.
   */
  lemma UploadedImageIsServed(userId: string, uuid: string, fileName: string,
                              bucket: map<string, StoredObject>, query: Query)
    requires userId != "" && '/' !in userId && '/' !in uuid
    requires RouteKey(userId, uuid, fileName) in bucket
    ensures var key := RouteKey(userId, uuid, fileName);
      CdnUrl(key) == GetImageUrl(key, None, None) &&
      Fetch("/images/" + key, query, bucket, false) ==
        WorkerResponse(200, Bytes(bucket[key].data), ImageHeaders(bucket[key], ContentTypeAsWritten(bucket[key].contentType, key)))
  {
    var name := UniqueId(uuid) + "-" + Sanitize(fileName);
    assert '/' !in UniqueId(uuid) by {
      assert UniqueId(uuid) == uuid[..|UniqueId(uuid)|];
    }
    assert name[..|UniqueId(uuid)|] == UniqueId(uuid);
    assert '/' !in name by {
      forall k | 0 <= k < |name| ensures name[k] != '/' {
        if k < |UniqueId(uuid)| {
          assert name[k] == UniqueId(uuid)[k];
        } else if k > |UniqueId(uuid)| {
          assert name[k] == Sanitize(fileName)[k - |UniqueId(uuid)| - 1];
        }
      }
    }
    assert RouteKey(userId, uuid, fileName) == userId + "/" + name;
    ParseImagePathOf(userId, name);
  }
}
