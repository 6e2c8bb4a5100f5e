/** The answer-evaluation route (src/app/api/evaluate/route.js): the
    first-`{`-to-last-`}` slice of the model's reply, parsed as it is, or a
    fixed encouraging evaluation when it does not parse. */
module Evaluate {
  import opened Wrappers
  import opened JsString
  import opened Json
  import opened Cleaning

  const MissingFieldsMessage: string := "Question and answer are required"
  const FailureMessage: string := "Failed to evaluate answer. Please try again."

  /** What the prompt carries: the question and the student's answer. */
  datatype Prompt = Prompt(question: string, answer: string)

  /** The evaluation used when the slice does not parse; `improved` echoes
      the submitted answer. */
  function FallbackEvaluation(answer: Json): (j: Json)
    ensures j.JObj? && j.fields.Keys == {"score", "feedback", "mistakes", "improved", "strengths"}
    ensures j.fields["score"] == JNum(7) && j.fields["improved"] == answer
    ensures j.fields["mistakes"].JArr? && |j.fields["mistakes"].items| == 1
    ensures j.fields["strengths"].JArr? && |j.fields["strengths"].items| == 2
  {
    JObj(map[
      "score" := JNum(7),
      "feedback" := JStr("Good effort! Keep practicing to improve your fluency."),
      "mistakes" := JArr([JStr("Consider reviewing grammar rules for better accuracy.")]),
      "improved" := answer,
      "strengths" := JArr([JStr("You expressed your thoughts clearly."),
                           JStr("Good attempt at answering the question.")])])
  }

  /** The evaluation the route returns for the model's reply `text`. */
  function Evaluation(text: string, answer: Json, parse: string -> Option<Json>): Json {
    var parsed := parse(SliceCandidate(text));
    if parsed.Some? then parsed.value else FallbackEvaluation(answer)
  }

  /** The `POST` handler.  `request` is the parsed body (`None` when it is not
      JSON); `generate` receives the prompt; `parse` stands for `JSON.parse`. */
  method Post(request: Option<Json>, generate: Prompt -> ModelReply, parse: string -> Option<Json>)
    returns (response: HttpResponse)
    // Destructuring a `null` body throws into the `catch`.
    ensures request.None? || request.value.JNull? ==> response == Respond(500, ErrorBody(FailureMessage))
    ensures request.Some? && !request.value.JNull? ==>
      var question, answer := Field(request.value, "question"), Field(request.value, "answer");
      && (!Truthy(question) || !Truthy(answer) ==> response == Respond(400, ErrorBody(MissingFieldsMessage)))
      && (Truthy(question) && Truthy(answer) ==>
            match generate(Prompt(Interpolate(question), Interpolate(answer)))
            case Failed(_) => response == Respond(500, ErrorBody(FailureMessage))
            case Generated(text) => response == Respond(200, Evaluation(text, answer.value, parse)))
  {
    if request.None? || request.value.JNull? {
      return Respond(500, ErrorBody(FailureMessage));
    }
    var question, answer := Field(request.value, "question"), Field(request.value, "answer");
    if !Truthy(question) || !Truthy(answer) {
      return Respond(400, ErrorBody(MissingFieldsMessage));
    }
    var reply := generate(Prompt(Interpolate(question), Interpolate(answer)));
    if reply.Failed? {
      return Respond(500, ErrorBody(FailureMessage));
    }
    var text := reply.text;
    var jsonStart := IndexOf(text, '{');
    var jsonEnd := LastIndexOf(text, '}') + 1;
    var jsonString := Slice(text, jsonStart, jsonEnd);
    assert jsonString == SliceCandidate(text);
    var evaluation;
    match parse(jsonString) {
      case Some(parsed) => evaluation := parsed;
      case None => evaluation := FallbackEvaluation(answer.value);
    }
    response := Respond(200, evaluation);
  }

  /** A reply without `}` slices to the empty string; unless the parser
      accepts that, the fallback evaluation is returned. */
  lemma NoClosingBraceFallsBack(text: string, answer: Json, parse: string -> Option<Json>)
    requires '}' !in text && parse("").None?
    ensures Evaluation(text, answer, parse) == FallbackEvaluation(answer)
  {
  }

  /** An object surrounded by brace-free chatter is parsed by itself and
      returned without any validation of its fields. */
  lemma WrappedObjectReturned(pre: string, body: string, post: string, answer: Json,
                              parse: string -> Option<Json>)
    requires '{' !in pre && '}' !in post
    requires |body| >= 2 && body[0] == '{' && body[|body| - 1] == '}'
    requires parse(body).Some?
    ensures Evaluation(pre + body + post, answer, parse) == parse(body).value
  {
    SliceCandidateOfWrapped(pre, body, post);
  }

  /** With a brace pair in the reply, the evaluation is the parse of its
      greedy brace span, or the fallback when that does not parse. */
  lemma EvaluationOfBraceSpan(text: string, answer: Json, parse: string -> Option<Json>)
    requires BraceSpan(text).Some?
    ensures Evaluation(text, answer, parse) ==
      match parse(BraceSpan(text).value)
      case Some(parsed) => parsed
      case None => FallbackEvaluation(answer)
  {
    SliceCandidateIsBraceSpan(text);
  }
}
