/**
 * `uploadToR2` (utils/r2-upload.ts): derive an object key from the file
 * name, check the Cloudflare configuration, PUT the bytes and answer the
 * public URL. The UUID, the environment and the reply of the PUT are
 * parameters; the PUT the function makes is returned.
 */
module R2Upload {
  import opened Common

  /** The characters a stored file name may keep: `[a-zA-Z0-9\-\_\.]`. */
  predicate SafeChar(c: char)
  {
    IsLetter(c) || IsDigit(c) || c == '-' || c == '_' || c == '.'
  }

  predicate AllSafe(s: string)
  {
    forall k :: 0 <= k < |s| ==> SafeChar(s[k])
  }

  /** `name.replace(/[^a-zA-Z0-9\-\_\.]/g, '')`: keep the safe characters, in order. */
  function Sanitize(name: string): (r: string)
    ensures AllSafe(r)
    ensures |r| <= |name|
    ensures '/' !in r
  {
    if name == [] then ""
    else (if SafeChar(name[0]) then [name[0]] else []) + Sanitize(name[1..])
  }

  /** A name made of safe characters is kept as it is. */
  lemma {:induction false} SanitizeSafe(name: string)
    requires AllSafe(name)
    ensures Sanitize(name) == name
    decreases |name|
  {
    if name != [] {
      SanitizeSafe(name[1..]);
      assert name == [name[0]] + name[1..];
    }
  }

  /** Sanitising twice is sanitising once. */
  lemma SanitizeIdempotent(name: string)
    ensures Sanitize(Sanitize(name)) == Sanitize(name)
  {
    SanitizeSafe(Sanitize(name));
  }

  /** Sanitising works character by character: it distributes over concatenation. */
  lemma {:induction false} SanitizeConcat(a: string, b: string)
    ensures Sanitize(a + b) == Sanitize(a) + Sanitize(b)
    decreases |a|
  {
    if a == [] {
      assert a + b == b;
    } else {
      var head := if SafeChar(a[0]) then [a[0]] else [];
      assert (a + b)[0] == a[0];
      assert (a + b)[1..] == a[1..] + b;
      assert Sanitize(a + b) == head + Sanitize(a[1..] + b);
      assert Sanitize(a) == head + Sanitize(a[1..]);
      SanitizeConcat(a[1..], b);
      assert head + (Sanitize(a[1..]) + Sanitize(b)) == (head + Sanitize(a[1..])) + Sanitize(b);
    }
  }

  /** Every safe character of the name survives, and nothing else does. */
  lemma {:induction false} SanitizeKeeps(name: string, c: char)
    ensures c in Sanitize(name) <==> c in name && SafeChar(c)
    decreases |name|
  {
    if name != [] {
      SanitizeKeeps(name[1..], c);
      assert name == [name[0]] + name[1..];
    }
  }

  /** `uuidv4().substring(0, 8)`. */
  function UniqueId(uuid: string): (id: string)
    ensures |id| == if |uuid| < 8 then |uuid| else 8
    ensures StartsWith(uuid, id)
  {
    if |uuid| < 8 then uuid else uuid[..8]
  }

  /** `dir/uid-name`, or `uid-name` when the directory is empty. */
  function ObjectKey(directory: string, uid: string, fileName: string): (key: string)
    ensures directory != "" ==> StartsWith(key, directory + "/")
    ensures EndsWith(key, uid + "-" + Sanitize(fileName))
  {
    if directory != "" then directory + "/" + uid + "-" + Sanitize(fileName)
    else uid + "-" + Sanitize(fileName)
  }

  const BucketName := "profile-images"
  const CdnBase := "https://opendots-alphav1.pages.dev"

  function R2ApiUrl(accountId: string, key: string): string
  {
    "https://api.cloudflare.com/client/v4/accounts/" + accountId + "/r2/buckets/" + BucketName + "/objects/" + key
  }

  function CdnUrl(key: string): string
  {
    CdnBase + "/images/" + key
  }

  /** The PUT request sent to the Cloudflare API. */
  datatype PutRequest = PutRequest(url: string, authorization: string, contentType: string)

  /** What the PUT answers: success, a failure status with its text, or a thrown network error. */
  datatype PutReply = PutOk | PutFailed(status: int, text: string) | PutThrows(message: string)

  /** How `uploadToR2` ends: its result, or the message of what it throws. */
  datatype UploadResult = Uploaded(success: bool, url: string, key: string) | Thrown(message: string)

  datatype UploadOutcome = UploadOutcome(request: Option<PutRequest>, result: UploadResult)

  function UploadToR2(fileName: string, contentType: string, directory: string, uuid: string,
                      accountId: Option<string>, apiToken: Option<string>, reply: PutReply): (out: UploadOutcome)
    // a missing account id or token throws before any request is sent
    ensures !Truthy(accountId) ==> out == UploadOutcome(None, Thrown("Cloudflare Account ID not configured"))
    ensures Truthy(accountId) && !Truthy(apiToken) ==>
      out == UploadOutcome(None, Thrown("Cloudflare API token not configured"))
    // otherwise exactly one PUT of the derived key with the caller's content type
    ensures Truthy(accountId) && Truthy(apiToken) ==>
      out.request == Some(PutRequest(R2ApiUrl(accountId.value, ObjectKey(directory, UniqueId(uuid), fileName)),
                                     "Bearer " + apiToken.value, contentType))
    ensures out.result.Uploaded? <==> Truthy(accountId) && Truthy(apiToken) && reply.PutOk?
    ensures out.result.Uploaded? ==>
      var key := ObjectKey(directory, UniqueId(uuid), fileName);
      out.result == Uploaded(true, CdnUrl(key), key)
    ensures Truthy(accountId) && Truthy(apiToken) && reply.PutFailed? ==>
      out.result == Thrown("Failed to upload to R2: " + IntToString(reply.status) + " " + reply.text)
  {
    var key := ObjectKey(directory, UniqueId(uuid), fileName);
    if !Truthy(accountId) then UploadOutcome(None, Thrown("Cloudflare Account ID not configured"))
    else if !Truthy(apiToken) then UploadOutcome(None, Thrown("Cloudflare API token not configured"))
    else
      var request := Some(PutRequest(R2ApiUrl(accountId.value, key), "Bearer " + apiToken.value, contentType));
      match reply
      case PutOk => UploadOutcome(request, Uploaded(true, CdnUrl(key), key))
      case PutFailed(status, text) =>
        UploadOutcome(request, Thrown("Failed to upload to R2: " + IntToString(status) + " " + text))
      case PutThrows(message) => UploadOutcome(request, Thrown(message))
  }
}
