/** The fix-grammar route (src/app/api/fix-grammar/route.js): the shared
    cleaning, a structural acceptance check, a fixed fallback, and the
    field-by-field defaulting of `corrected`, `errors` and `tips`. */
module FixGrammar {
  import opened Wrappers
  import opened JsString
  import opened Json
  import opened Cleaning

  const RouteKey: string := "fix-grammar"
  const FailureMessage: string := "Failed to process grammar correction request"

  const FallbackTips: seq<Json> := [
    JStr("Consider reviewing sentence structure and punctuation"),
    JStr("Check for proper subject-verb agreement")]
  const MissingTips: seq<Json> := [JStr("Consider reviewing grammar and punctuation")]
  const EmptyTips: seq<Json> := [
    JStr("Great job! Your text appears to be grammatically correct"),
    JStr("Consider varying sentence length for better readability")]

  /** `Array.isArray(v)` for a value that may be `undefined`. */
  predicate IsArray(v: Option<Json>) {
    v.Some? && v.value.JArr?
  }

  /** A truthy string: what survives `!x || typeof x !== 'string'`. */
  predicate IsFilledString(v: Option<Json>) {
    v.Some? && v.value.JStr? && v.value.s != ""
  }

  /** The parse is kept when `corrected` is truthy and `errors` and `tips`
      are arrays. */
  predicate Accepted(parsed: Option<Json>) {
    && parsed.Some?
    && Truthy(Field(parsed.value, "corrected"))
    && IsArray(Field(parsed.value, "errors"))
    && IsArray(Field(parsed.value, "tips"))
  }

  /** The object of the `catch` branch. */
  function FallbackFields(text: string): (m: map<string, Json>)
    ensures m.Keys == {"corrected", "errors", "tips"}
  {
    map["corrected" := JStr(text), "errors" := JArr([]), "tips" := JArr(FallbackTips)]
  }

  /** The final validation: each of the three fields replaced by its default
      when it has the wrong shape, every other field kept. */
  function Defaulted(fields: map<string, Json>, text: string): (m: map<string, Json>)
    requires text != ""
    ensures m.Keys == fields.Keys + {"corrected", "errors", "tips"}
    ensures forall k :: k in fields && k !in {"corrected", "errors", "tips"} ==> m[k] == fields[k]
    ensures m["corrected"].JStr? && m["corrected"].s != ""
    ensures m["errors"].JArr? && m["tips"].JArr? && |m["tips"].items| > 0
    ensures IsFilledString(Lookup(fields, "corrected")) ==> m["corrected"] == fields["corrected"]
    ensures !IsFilledString(Lookup(fields, "corrected")) ==> m["corrected"] == JStr(text)
    ensures IsArray(Lookup(fields, "errors")) ==> m["errors"] == fields["errors"]
    ensures !IsArray(Lookup(fields, "errors")) ==> m["errors"] == JArr([])
    ensures !IsArray(Lookup(fields, "tips")) ==> m["tips"] == JArr(MissingTips)
    ensures IsArray(Lookup(fields, "tips")) && fields["tips"].items == [] ==> m["tips"] == JArr(EmptyTips)
    ensures IsArray(Lookup(fields, "tips")) && fields["tips"].items != [] ==> m["tips"] == fields["tips"]
  {
    var corrected := if IsFilledString(Lookup(fields, "corrected")) then fields["corrected"] else JStr(text);
    var errors := if IsArray(Lookup(fields, "errors")) then fields["errors"] else JArr([]);
    var tips := if IsArray(Lookup(fields, "tips")) then fields["tips"] else JArr(MissingTips);
    var tips' := if tips.items == [] then JArr(EmptyTips) else tips;
    fields["corrected" := corrected]["errors" := errors]["tips" := tips']
  }

  /** The final validation as the route runs it, patching `aiResponse` one
      field at a time. */
  method RepairFields(fields: map<string, Json>, text: string) returns (aiResponse: map<string, Json>)
    requires text != ""
    ensures aiResponse == Defaulted(fields, text)
  {
    aiResponse := fields;
    if !IsFilledString(Lookup(aiResponse, "corrected")) {
      aiResponse := aiResponse["corrected" := JStr(text)];
    }
    if !IsArray(Lookup(aiResponse, "errors")) {
      aiResponse := aiResponse["errors" := JArr([])];
    }
    if !IsArray(Lookup(aiResponse, "tips")) {
      aiResponse := aiResponse["tips" := JArr(MissingTips)];
    }
    if |aiResponse["tips"].items| == 0 {
      aiResponse := aiResponse["tips" := JArr(EmptyTips)];
    }
  }

  /** The fallback object needs no defaulting. */
  lemma FallbackIsFinal(text: string)
    requires text != ""
    ensures Defaulted(FallbackFields(text), text) == FallbackFields(text)
  {
    var m := Defaulted(FallbackFields(text), text);
    assert m.Keys == FallbackFields(text).Keys;
  }

  /** The object the route wraps, for a parse result. */
  function ReplyFields(parsed: Option<Json>, text: string): map<string, Json>
    requires text != ""
  {
    Defaulted(if Accepted(parsed) then parsed.value.fields else FallbackFields(text), text)
  }

  /** An accepted parse keeps its arrays; only a `corrected` that is truthy
      but not a string is replaced. */
  lemma AcceptedKeepsArrays(parsed: Option<Json>, text: string)
    requires text != "" && Accepted(parsed)
    ensures var m := ReplyFields(parsed, text);
      && m["errors"] == parsed.value.fields["errors"]
      && (parsed.value.fields["tips"].items != [] ==> m["tips"] == parsed.value.fields["tips"])
      && (parsed.value.fields["corrected"].JStr? ==> m["corrected"] == parsed.value.fields["corrected"])
  {
  }

  /** The `POST` handler.  `generate` receives the interpolated text. */
  method Post(request: Option<Json>, apiKeySet: bool, generate: string -> ModelReply,
              parse: string -> Option<Json>)
    returns (response: HttpResponse)
    ensures request.None? || request.value.JNull? ==> response == Respond(500, ErrorBody(FailureMessage))
    ensures request.Some? && !request.value.JNull? ==>
      var primary := Field(request.value, "PRIMARY_TEXT");
      && (!IsNonBlankString(primary) ==> response == Respond(400, ErrorBody(MissingTextMessage)))
      && (IsNonBlankString(primary) && !apiKeySet ==> response == Respond(500, ErrorBody(NotConfiguredMessage)))
      && (IsNonBlankString(primary) && apiKeySet ==>
            match generate(primary.value.s)
            case Failed(_) => response == Respond(500, ErrorBody(FailureMessage))
            case Generated(raw) =>
              response == Respond(200, JObj(map[RouteKey := JObj(ReplyFields(parse(Cleaned(raw)), primary.value.s))])))
  {
    if request.None? || request.value.JNull? {
      return Respond(500, ErrorBody(FailureMessage));
    }
    var primary := Field(request.value, "PRIMARY_TEXT");
    if !IsNonBlankString(primary) {
      return Respond(400, ErrorBody(MissingTextMessage));
    }
    if !apiKeySet {
      return Respond(500, ErrorBody(NotConfiguredMessage));
    }
    var text := primary.value.s;
    var reply := generate(text);
    if reply.Failed? {
      return Respond(500, ErrorBody(FailureMessage));
    }
    var cleaned := CleanModelText(reply.text);
    var parsed := parse(cleaned);
    var base := if Accepted(parsed) then parsed.value.fields else FallbackFields(text);
    var aiResponse := RepairFields(base, text);
    response := Respond(200, JObj(map[RouteKey := JObj(aiResponse)]));
  }
}
