/**
 * The `ApiResponse` trait (backend/app/Traits/ApiResponse.php): the JSON
 * bodies and status codes of the success, error and paginated envelopes.
 */
module Responses {
  import opened Wrappers
  import opened Json
  import opened Models
  import opened Pagination

  /** A `JsonResponse`: the top-level JSON object and the HTTP status. */
  datatype JsonResponse = JsonResponse(body: map<string, Json>, status: int)

  function Nat(n: Option<nat>): Json {
    match n
    case Some(v) => Int(v)
    case None => Null
  }

  /** `successResponse($data, $message = null, $statusCode = 200)`. */
  function SuccessResponse(data: Json, message: Option<string> := None, statusCode: int := 200): (r: JsonResponse)
    ensures r.body.Keys == {"success", "message", "data"}
    ensures r.body["success"] == Bool(true) && r.status == statusCode
    ensures r.body["data"] == data && r.body["message"] == OptStr(message)
  {
    JsonResponse(map["success" := Bool(true), "message" := OptStr(message), "data" := data], statusCode)
  }

  /** `errorResponse($message, $data = null, $statusCode = 500)`. */
  function ErrorResponse(message: string, data: Json := Null, statusCode: int := 500): (r: JsonResponse)
    ensures r.body.Keys == {"success", "message", "data"}
    ensures r.body["success"] == Bool(false) && r.status == statusCode
    ensures r.body["data"] == data && r.body["message"] == Str(message)
  {
    JsonResponse(map["success" := Bool(false), "message" := Str(message), "data" := data], statusCode)
  }

  /** The `meta` object: the paginator's counts and positions. */
  function Meta(p: Page<Todo>): (m: map<string, Json>)
    ensures m.Keys == {"current_page", "last_page", "per_page", "total", "from", "to", "has_more_pages"}
    ensures m["from"] == (if p.items == [] then Null else Int(Offset(p.perPage, p.currentPage) + 1))
    ensures m["to"] == (if p.items == [] then Null else Int(Offset(p.perPage, p.currentPage) + |p.items|))
  {
    map[
      "current_page" := Int(p.currentPage),
      "last_page" := Int(LastPage(p)),
      "per_page" := Int(p.perPage),
      "total" := Int(p.total),
      "from" := Nat(FirstItem(p)),
      "to" := Nat(LastItem(p)),
      "has_more_pages" := Bool(HasMorePages(p))]
  }

  /**
   * `paginatedResponse($paginator, $message = null, $statusCode = 200)`:
   * the flag is under `status`, not `success`; `data` is the page's rows.
   */
  function PaginatedResponse(p: Page<Todo>, message: Option<string> := None, statusCode: int := 200): (r: JsonResponse)
    ensures r.body.Keys == {"status", "message", "data", "meta"}
    ensures r.body["status"] == Bool(true) && r.status == statusCode
    ensures r.body["data"].Arr? && |r.body["data"].items| == |p.items|
    ensures forall k :: 0 <= k < |p.items| ==> r.body["data"].items[k] == ToJson(p.items[k])
    ensures r.body["message"] == OptStr(message)
    ensures r.body["meta"] == Obj(Meta(p))
  {
    JsonResponse(map[
      "status" := Bool(true),
      "message" := OptStr(message),
      "data" := Arr(seq(|p.items|, k requires 0 <= k < |p.items| => ToJson(p.items[k]))),
      "meta" := Obj(Meta(p))], statusCode)
  }

  /** Without explicit codes, a success answers 200 and an error 500. */
  lemma DefaultStatusCodes(data: Json, message: string)
    ensures SuccessResponse(data).status == 200
    ensures SuccessResponse(data).body["message"] == Null
    ensures ErrorResponse(message).status == 500
    ensures ErrorResponse(message).body["data"] == Null
  {
  }

  /** For the same message, data and status, the two envelopes differ only in the `success` flag. */
  lemma SuccessAndErrorDifferOnlyInFlag(message: string, data: Json, statusCode: int)
    ensures var s, e := SuccessResponse(data, Some(message), statusCode), ErrorResponse(message, data, statusCode);
            && s.status == e.status
            && s.body.Keys == e.body.Keys
            && (forall k :: k in s.body && k != "success" ==> s.body[k] == e.body[k])
            && s.body["success"] != e.body["success"]
  {
  }

  /** A paginated body has no `success` key, so a client reading `success` finds nothing there. */
  lemma PaginatedHasNoSuccessKey(p: Page<Todo>, message: Option<string>, statusCode: int)
    ensures "success" !in PaginatedResponse(p, message, statusCode).body
    ensures "status" in PaginatedResponse(p, message, statusCode).body
  {
  }

  /** The `meta` object mirrors the paginator. */
  lemma MetaMirrorsPaginator(p: Page<Todo>)
    ensures var m := Meta(p);
            && m["current_page"] == Int(p.currentPage)
            && m["per_page"] == Int(p.perPage)
            && m["total"] == Int(p.total)
            && m["last_page"] == Int(LastPage(p))
            && m["from"] == Nat(FirstItem(p))
            && m["to"] == Nat(LastItem(p))
            && (m["from"] == Null <==> p.items == [])
            && (m["to"] == Null <==> p.items == [])
            && m["has_more_pages"] == Bool(p.currentPage < LastPage(p))
  {
  }
}
