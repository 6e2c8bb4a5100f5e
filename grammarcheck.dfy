/** The grammar-check route (src/app/api/grammar-check/route.js): the
    first-`{`-to-last-`}` slice of the model's reply, parsed as it is, or a
    fixed "unable to process" result when it does not parse. */
module GrammarCheck {
  import opened Wrappers
  import opened JsString
  import opened Json
  import opened Cleaning

  const MissingTextMessage: string := "Text to check is required"
  const FailureMessage: string := "Failed to check grammar. Please try again."

  /** What the prompt carries: the text to check. */
  datatype Prompt = Prompt(text: string)

  /** The result used when the slice does not parse: the text echoed as
      `corrected` and marked as not correct. */
  function FallbackCheck(text: Json): (j: Json)
    ensures j.JObj? && j.fields.Keys == {"corrected", "errors", "tips", "isCorrect"}
    ensures j.fields["corrected"] == text && j.fields["isCorrect"] == JBool(false)
    ensures j.fields["errors"].JArr? && |j.fields["errors"].items| == 1
    ensures j.fields["tips"].JArr? && |j.fields["tips"].items| == 1
  {
    JObj(map[
      "corrected" := text,
      "errors" := JArr([JStr("Unable to process the text at this time.")]),
      "tips" := JArr([JStr("Please try again later.")]),
      "isCorrect" := JBool(false)])
  }

  /** The result the route returns for the model's reply `reply`. */
  function CheckResult(reply: string, text: Json, parse: string -> Option<Json>): Json {
    var parsed := parse(SliceCandidate(reply));
    if parsed.Some? then parsed.value else FallbackCheck(text)
  }

  /** The `POST` handler.  `request` is the parsed body (`None` when it is not
      JSON); `generate` receives the prompt; `parse` stands for `JSON.parse`. */
  method Post(request: Option<Json>, generate: Prompt -> ModelReply, parse: string -> Option<Json>)
    returns (response: HttpResponse)
    // Destructuring a `null` body throws into the `catch`.
    ensures request.None? || request.value.JNull? ==> response == Respond(500, ErrorBody(FailureMessage))
    ensures request.Some? && !request.value.JNull? ==>
      var text := Field(request.value, "text");
      && (!Truthy(text) ==> response == Respond(400, ErrorBody(MissingTextMessage)))
      && (Truthy(text) ==>
            match generate(Prompt(Interpolate(text)))
            case Failed(_) => response == Respond(500, ErrorBody(FailureMessage))
            case Generated(reply) => response == Respond(200, CheckResult(reply, text.value, parse)))
  {
    if request.None? || request.value.JNull? {
      return Respond(500, ErrorBody(FailureMessage));
    }
    var text := Field(request.value, "text");
    if !Truthy(text) {
      return Respond(400, ErrorBody(MissingTextMessage));
    }
    var reply := generate(Prompt(Interpolate(text)));
    if reply.Failed? {
      return Respond(500, ErrorBody(FailureMessage));
    }
    var content := reply.text;
    var jsonStart := IndexOf(content, '{');
    var jsonEnd := LastIndexOf(content, '}') + 1;
    var jsonString := Slice(content, jsonStart, jsonEnd);
    assert jsonString == SliceCandidate(content);
    var result;
    match parse(jsonString) {
      case Some(parsed) => result := parsed;
      case None => result := FallbackCheck(text.value);
    }
    response := Respond(200, result);
  }

  /** A reply without `}` slices to the empty string; unless the parser
      accepts that, the fallback result is returned. */
  lemma NoClosingBraceFallsBack(reply: string, text: Json, parse: string -> Option<Json>)
    requires '}' !in reply && parse("").None?
    ensures CheckResult(reply, text, parse) == FallbackCheck(text)
  {
  }

  /** An object surrounded by brace-free chatter is parsed by itself and
      returned unvalidated. */
  lemma WrappedObjectReturned(pre: string, body: string, post: string, text: Json,
                              parse: string -> Option<Json>)
    requires '{' !in pre && '}' !in post
    requires |body| >= 2 && body[0] == '{' && body[|body| - 1] == '}'
    requires parse(body).Some?
    ensures CheckResult(pre + body + post, text, parse) == parse(body).value
  {
    SliceCandidateOfWrapped(pre, body, post);
  }

  /** With a brace pair in the reply, the result is the parse of its
      greedy brace span, or the fallback when that does not parse. */
  lemma CheckResultOfBraceSpan(reply: string, text: Json, parse: string -> Option<Json>)
    requires BraceSpan(reply).Some?
    ensures CheckResult(reply, text, parse) ==
      match parse(BraceSpan(reply).value)
      case Some(parsed) => parsed
      case None => FallbackCheck(text)
  {
    SliceCandidateIsBraceSpan(reply);
  }
}
