/** The reply-generate route (src/app/api/reply-generate/route.js): its own
    fence rule, a fixed fallback when the reply does not parse, and a check
    that the result is a non-empty array, which is then returned unchanged. */
module ReplyGenerate {
  import opened Wrappers
  import opened JsString
  import opened Json
  import opened Cleaning

  const RouteKey: string := "reply-suggestion"
  const MissingInputMessage: string := "Primary text is required"
  const InvalidFormatMessage: string := "Invalid response format from AI model"
  const ConfigurationMessage: string := "AI service configuration error"
  const FailureMessage: string := "Failed to generate reply suggestions"

  /** The suggestions used when the cleaned reply does not parse. */
  const FallbackReplies: seq<Json> := [
    JStr("Thank you for your message. I'll get back to you soon."),
    JStr("Thanks for reaching out! I appreciate you sharing this with me."),
    JStr("Got it, thanks for letting me know!")]

  /** What the prompt carries: the message to answer and the context block,
      present only when `contextText` is truthy. */
  datatype Prompt = Prompt(input: string, context: Option<string>)

  function ReplyPrompt(input: string, contextText: Option<Json>): (p: Prompt)
    ensures p.input == input
    ensures p.context.Some? <==> Truthy(contextText)
    ensures p.context.Some? ==> p.context.value == Interpolate(contextText)
  {
    Prompt(input, if Truthy(contextText) then Some(Interpolate(contextText)) else None)
  }

  /** The 500 body of the `catch`: a thrown message naming the API key is
      reported as a configuration error. */
  function CatchBody(message: string): (j: Json)
    ensures Includes(message, "API key") ==> j == ErrorBody(ConfigurationMessage)
    ensures !Includes(message, "API key") ==> j == ErrorBody(FailureMessage)
  {
    ErrorBody(if Includes(message, "API key") then ConfigurationMessage else FailureMessage)
  }

  /** The options the route returns, or `None` for the 500 'invalid format'
      reply: a failed parse becomes the fixed suggestions, a parsed value must
      be a non-empty array and is otherwise kept as it is. */
  function Suggestions(parsed: Option<Json>): (r: Option<Json>)
    ensures r.Some? ==> r.value.JArr? && |r.value.items| > 0
    ensures parsed.None? ==> r == Some(JArr(FallbackReplies))
    ensures parsed.Some? ==> (r.Some? <==> parsed.value.JArr? && parsed.value.items != [])
    ensures parsed.Some? && r.Some? ==> r == parsed
  {
    if parsed.None? then Some(JArr(FallbackReplies))
    else if parsed.value.JArr? && |parsed.value.items| > 0 then parsed
    else None
  }

  /** A fenced array of suggestions reaches the parser without its fences. */
  lemma FencedArrayParsed(body: string, parse: string -> Option<Json>)
    requires body != [] && !IsSpace(body[0]) && !IsSpace(body[|body| - 1])
    requires parse(body).Some? && parse(body).value.JArr? && parse(body).value.items != []
    ensures Suggestions(parse(ReplyText("```json\n" + body + "\n```"))) == parse(body)
  {
    ReplyTextFenced(body);
  }

  /** The `POST` handler.  `request` is the parsed body (`None` when it is not
      JSON); `generate` receives the prompt; `parse` stands for `JSON.parse`. */
  method Post(request: Option<Json>, generate: Prompt -> ModelReply, parse: string -> Option<Json>)
    returns (response: HttpResponse)
    // Destructuring a `null` body, or calling `trim` on a truthy non-string,
    // throws into the `catch`, whose message does not mention the API key.
    ensures request.None? || request.value.JNull? ==> response == Respond(500, ErrorBody(FailureMessage))
    ensures request.Some? && !request.value.JNull? ==>
      var input := Field(request.value, "inputText");
      && (!Truthy(input) || (input.value.JStr? && IsBlank(input.value.s)) ==>
            response == Respond(400, ErrorBody(MissingInputMessage)))
      && (Truthy(input) && !input.value.JStr? ==> response == Respond(500, ErrorBody(FailureMessage)))
      && (IsNonBlankString(input) ==>
            match generate(ReplyPrompt(input.value.s, Field(request.value, "contextText")))
            case Failed(message) => response == Respond(500, CatchBody(message))
            case Generated(raw) =>
              var options := Suggestions(parse(ReplyText(raw)));
              && (options.None? ==> response == Respond(500, ErrorBody(InvalidFormatMessage)))
              && (options.Some? ==>
                    response == Respond(200, JObj(map[RouteKey := JObj(map["options" := options.value])]))))
  {
    if request.None? || request.value.JNull? {
      return Respond(500, ErrorBody(FailureMessage));
    }
    var input := Field(request.value, "inputText");
    if !Truthy(input) {
      return Respond(400, ErrorBody(MissingInputMessage));
    }
    if !input.value.JStr? {
      return Respond(500, ErrorBody(FailureMessage));
    }
    if IsBlank(input.value.s) {
      return Respond(400, ErrorBody(MissingInputMessage));
    }
    var reply := generate(ReplyPrompt(input.value.s, Field(request.value, "contextText")));
    if reply.Failed? {
      return Respond(500, CatchBody(reply.message));
    }
    var text := StripReplyFences(reply.text);
    var parsed := parse(text);
    var options := if parsed.None? then JArr(FallbackReplies) else parsed.value;
    if !options.JArr? || |options.items| == 0 {
      return Respond(500, ErrorBody(InvalidFormatMessage));
    }
    response := Respond(200, JObj(map[RouteKey := JObj(map["options" := options])]));
  }
}
