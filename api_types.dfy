/** The response envelope of the back-end API and the error the HTTP client
    throws for a failed response. */
module ApiTypes {

  import opened Wrappers
  import opened Js

  /** `ApiResponse<T>`: `result` is always there, `data` may be missing. */
  datatype ApiResponse<T> = ApiResponse(resultCode: string, resultMessage: string, data: Option<T>, result: T)

  /** `PaginationInfo`: the page number, the page size and the row count. */
  datatype PaginationInfo = PaginationInfo(page: int, size: int, totalCount: int)

  /** `PaginatedResponse<T>`: the pagination information and one page of rows. */
  datatype PaginatedResponse<T> = PaginatedResponse(paginationInfo: PaginationInfo, result: seq<T>)

  /** The JSON object a paginated response arrives as. */
  function PaginatedJson(r: PaginatedResponse<JsValue>): (v: JsValue)
    ensures v.Obj? && v.fields.Keys == {"paginationInfo", "result"}
    ensures GetProperty(v, "result") == Value(Arr(r.result))
    ensures var info := v.fields["paginationInfo"];
      info.Obj? && info.fields.Keys == {"page", "size", "totalCount"}
      && GetProperty(info, "page") == Value(Num(r.paginationInfo.page))
      && GetProperty(info, "size") == Value(Num(r.paginationInfo.size))
      && GetProperty(info, "totalCount") == Value(Num(r.paginationInfo.totalCount))
  {
    var p := r.paginationInfo;
    var info := Obj(map["page" := Num(p.page), "size" := Num(p.size), "totalCount" := Num(p.totalCount)]);
    Obj(map["paginationInfo" := info, "result" := Arr(r.result)])
  }

  /** The JSON object an envelope arrives as. */
  function EnvelopeJson(r: ApiResponse<JsValue>): (v: JsValue)
    ensures v.Obj?
    ensures v.fields.Keys == {"resultCode", "resultMessage", "result"} + (if r.data.Some? then {"data"} else {})
    ensures GetProperty(v, "resultCode") == Value(Str(r.resultCode))
    ensures GetProperty(v, "resultMessage") == Value(Str(r.resultMessage))
    ensures GetProperty(v, "result") == Value(r.result)
    ensures GetProperty(v, "data") == Value(if r.data.Some? then r.data.value else Undefined)
  {
    var required := map["resultCode" := Str(r.resultCode), "resultMessage" := Str(r.resultMessage), "result" := r.result];
    Obj(if r.data.Some? then required["data" := r.data.value] else required)
  }

  /** `ApiError`: an `Error` named `ApiError` that also carries the HTTP status
      and the parsed error body. */
  class ApiError {
    var name: string
    var message: string
    var status: int
    var data: JsValue

    /** `new ApiError(message, status, data)`; an omitted `data` is `null`. */
    constructor (message: string, status: int, data: JsValue)
      ensures this.name == "ApiError" && this.message == message && this.status == status
      ensures this.data == if data.Undefined? then Null else data
    {
      this.name := "ApiError";
      this.message := message;
      this.status := status;
      this.data := if data.Undefined? then Null else data;
    }
  }
}
