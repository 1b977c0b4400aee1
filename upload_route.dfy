/**
 * `POST /api/upload` (app/api/upload/route.ts): a guard cascade in front
 * of one PUT to R2, answering JSON. The signed-in user, the form's file,
 * the UUID, the environment, the PUT's reply and the failure of the
 * request plumbing are parameters.
 */
module UploadRoute {
  import opened Common
  import opened R2Upload

  /** The `file` field of the form. */
  datatype UploadFile = UploadFile(name: string, mimeType: string)

  datatype JsonBody = ErrorJson(error: string) | UploadedJson(success: bool, url: string, key: string)

  datatype JsonResponse = JsonResponse(status: int, body: JsonBody)

  /** The route's answer and the PUT it sent, if any. */
  datatype PostOutcome = PostOutcome(response: JsonResponse, request: Option<PutRequest>)

  /** What throws outside the upload's own `try`: creating the client or reading the user, or reading the form. */
  datatype Plumbing = Works | AuthThrows | FormThrows

  /** `user.id/uid-name`: the user's directory, the first 8 characters of the UUID, the sanitised name. */
  function RouteKey(userId: string, uuid: string, fileName: string): (key: string)
    ensures StartsWith(key, userId + "/")
    // the same key `uploadToR2` derives with the user id as directory
    ensures userId != "" ==> key == ObjectKey(userId, UniqueId(uuid), fileName)
  {
    userId + "/" + UniqueId(uuid) + "-" + Sanitize(fileName)
  }

  function Post(user: Option<string>, file: Option<UploadFile>, uuid: string, plumbing: Plumbing,
                accountId: Option<string>, apiToken: Option<string>, reply: PutReply)
    : (out: PostOutcome)
    // the user is checked before the form is read
    ensures plumbing != AuthThrows && user.None? ==>
      out.response == JsonResponse(401, ErrorJson("Unauthorized")) && out.request.None?
    ensures plumbing == AuthThrows || (user.Some? && plumbing == FormThrows) ==>
      out.response == JsonResponse(500, ErrorJson("Internal server error")) && out.request.None?
    ensures plumbing == Works && user.Some? && file.None? ==>
      out.response == JsonResponse(400, ErrorJson("No image provided")) && out.request.None?
    ensures plumbing == Works && user.Some? && file.Some? && !Truthy(accountId) ==>
      out.response == JsonResponse(500, ErrorJson("Cloudflare Account ID not configured")) && out.request.None?
    ensures plumbing == Works && user.Some? && file.Some? && Truthy(accountId) && !Truthy(apiToken) ==>
      out.response == JsonResponse(500, ErrorJson("Cloudflare API token not configured")) && out.request.None?
    // with everything in place, one PUT of the user's key carrying the file's type
    ensures plumbing == Works && user.Some? && file.Some? && Truthy(accountId) && Truthy(apiToken) ==>
      out.request == Some(PutRequest(R2ApiUrl(accountId.value, RouteKey(user.value, uuid, file.value.name)),
                                 "Bearer " + apiToken.value, file.value.mimeType))
    ensures out.response.body.UploadedJson? <==>
      plumbing == Works && user.Some? && file.Some? && Truthy(accountId) && Truthy(apiToken) && reply.PutOk?
    ensures out.response.body.UploadedJson? ==>
      var key := RouteKey(user.value, uuid, file.value.name);
      out.response == JsonResponse(200, UploadedJson(true, CdnUrl(key), key))
    ensures out.request.Some? && !reply.PutOk? ==> out.response == JsonResponse(500, ErrorJson("Failed to upload image"))
  {
    if plumbing == AuthThrows then PostOutcome(JsonResponse(500, ErrorJson("Internal server error")), None)
    else if user.None? then PostOutcome(JsonResponse(401, ErrorJson("Unauthorized")), None)
    else if plumbing == FormThrows then PostOutcome(JsonResponse(500, ErrorJson("Internal server error")), None)
    else if file.None? then PostOutcome(JsonResponse(400, ErrorJson("No image provided")), None)
    else
      var key := RouteKey(user.value, uuid, file.value.name);
      if !Truthy(accountId) then PostOutcome(JsonResponse(500, ErrorJson("Cloudflare Account ID not configured")), None)
      else if !Truthy(apiToken) then PostOutcome(JsonResponse(500, ErrorJson("Cloudflare API token not configured")), None)
      else
        var put := Some(PutRequest(R2ApiUrl(accountId.value, key), "Bearer " + apiToken.value, file.value.mimeType));
        assert plumbing == Works;
        if reply.PutOk? then PostOutcome(JsonResponse(200, UploadedJson(true, CdnUrl(key), key)), put)
        else PostOutcome(JsonResponse(500, ErrorJson("Failed to upload image")), put)
  }
}
