/** What the client code exchanges with the platform `fetch`: the request it
    sends, the response it reads, and the values a failed call throws. The
    network itself is a parameter of the callers. */
module Fetch {

  import opened Js
  import opened FetchHeaders

  /** A value `JSON.parse` can produce. */
  type Json = v: JsValue | IsJson(v) witness Null

  /** What `response.json()` settles to: the parsed value, or the
      `SyntaxError` message of a body that is not JSON. */
  datatype BodyParse = Parsed(json: Json) | Unparseable(message: string)

  datatype Response = Response(status: int, body: BodyParse)

  /** `response.ok`. */
  predicate Ok(status: int)
  {
    200 <= status <= 299
  }

  /** A `FormData` object, passed through untouched. */
  datatype FormData = FormData(entries: seq<(string, string)>)

  /** The body a request carries: none, a form, or `JSON.stringify(value)`. */
  datatype RequestBody = NoBody | FormBody(form: FormData) | JsonText(value: JsValue)

  /** A request: its URL, its HTTP method, its headers and its body. */
  datatype Request = Request(url: string, verb: string, headers: seq<Header>, body: RequestBody)

  /** A thrown value: an `Error` (its `name` and `message`) or anything else. */
  datatype Thrown = Error(name: string, message: string) | NonError(value: JsValue)

  /** How a `fetch` call settles. */
  datatype FetchResult = Responded(response: Response) | Rejected(reason: Thrown)
}
