/** Optional values. */
module Wrappers {

  datatype Option<+T> = None | Some(value: T)
}

/** The JavaScript values that cross the routes: request bodies, what
    `JSON.parse` returns, and response bodies.  Numbers are integers here. */
module Json {
  import opened Wrappers
  import opened JsString

  datatype Json =
    | JNull
    | JBool(b: bool)
    | JNum(n: int)
    | JStr(s: string)
    | JArr(items: seq<Json>)
    | JObj(fields: map<string, Json>)

  /** JavaScript truthiness of a value that may be `undefined` (`None`). */
  predicate Truthy(v: Option<Json>) {
    match v
    case None => false
    case Some(JNull) => false
    case Some(JBool(b)) => b
    case Some(JNum(n)) => n != 0
    case Some(JStr(s)) => s != ""
    case Some(JArr(_)) => true
    case Some(JObj(_)) => true
  }

  /** `v.key` for a value `JSON.parse` produced: an object's own field, and
      `undefined` for everything else.  (On `null` the source's property access
      throws inside a `try` whose `catch` takes the same fallback as
      `undefined`; the callers below rely only on that.) */
  function Field(v: Json, key: string): (r: Option<Json>)
    ensures r.Some? <==> v.JObj? && key in v.fields
    ensures r.Some? ==> r.value == v.fields[key]
  {
    if v.JObj? && key in v.fields then Some(v.fields[key]) else None
  }

  /** A field of a request body object, `undefined` when absent. */
  function Lookup(body: map<string, Json>, key: string): (r: Option<Json>)
    ensures r.Some? <==> key in body
    ensures r.Some? ==> r.value == body[key]
  {
    if key in body then Some(body[key]) else None
  }

  /** `typeof v === 'string' && v.trim() !== ''` */
  predicate IsNonBlankString(v: Option<Json>) {
    v.Some? && v.value.JStr? && !IsBlank(v.value.s)
  }

  /** The decimal rendering of an integer, with a minus sign when negative. */
  function IntToString(n: int): (r: string)
    ensures r != []
  {
    if n < 0 then "-" + NatToString(-n) else NatToString(n)
  }

  /** `String(v)`, which a template literal `${v}` applies: arrays join their
      elements with commas (a `null` element becomes empty), objects print as
      `[object Object]`. */
  function ToJsString(v: Json): string
    decreases v
  {
    match v
    case JNull => "null"
    case JBool(b) => if b then "true" else "false"
    case JNum(n) => IntToString(n)
    case JStr(s) => s
    case JArr(items) =>
      JoinWith(seq(|items|, i requires 0 <= i < |items| =>
                 if items[i].JNull? then "" else ToJsString(items[i])), ',')
    case JObj(_) => "[object Object]"
  }

  /** `${v}` for a value that may be `undefined`. */
  function Interpolate(v: Option<Json>): string {
    if v.Some? then ToJsString(v.value) else "undefined"
  }

  /** The `{ error: message }` body every route uses for its error replies. */
  function ErrorBody(message: string): (r: Json)
    ensures r.JObj? && r.fields.Keys == {"error"}
    ensures r.fields["error"] == JStr(message)
  {
    JObj(map["error" := JStr(message)])
  }

  /** The 400 message of the routes that take `PRIMARY_TEXT`. */
  const MissingTextMessage: string := "PRIMARY_TEXT is required and must be a non-empty string"

  /** The 500 message of those routes when `GEMINI_API_KEY` is unset. */
  const NotConfiguredMessage: string := "AI service is not configured"

  /** What a route hands back: a JSON reply with a status code, or an
      exception that escapes the route, which the framework answers with a
      500 of its own. */
  datatype HttpResponse =
    | Respond(status: nat, body: Json)
    | Unhandled(reason: string)

  /** The generative model's answer to one prompt: its text, or the message
      of the exception the client library threw. */
  datatype ModelReply = Generated(text: string) | Failed(message: string)
}
