/** The practice-question route (src/app/api/generate-question/route.js):
    choosing the question type (at random when asked), the per-type template
    with its default topic, the first-`{`-to-last-`}` slice of the reply, and
    the per-type pool of fallback questions.  `Math.random` appears as the
    index it produces. */
module Question {
  import opened Wrappers
  import opened JsString
  import opened Json
  import opened Cleaning

  const FailureMessage: string := "Failed to generate question. Please try again."

  datatype QuestionType = Conversation | Dsa | Tech | Aptitude

  /** `questionTypes`, in declaration order. */
  const QuestionTypes: seq<QuestionType> := [Conversation, Dsa, Tech, Aptitude]

  /** The name a type has in the request and in the returned `type` field. */
  function TypeName(t: QuestionType): string {
    match t
    case Conversation => "conversation"
    case Dsa => "dsa"
    case Tech => "tech"
    case Aptitude => "aptitude"
  }

  /** The `case` of the `switch` a name reaches, if any. */
  function TypeNamed(name: string): (r: Option<QuestionType>)
    ensures r.Some? ==> TypeName(r.value) == name
  {
    if name == "conversation" then Some(Conversation)
    else if name == "dsa" then Some(Dsa)
    else if name == "tech" then Some(Tech)
    else if name == "aptitude" then Some(Aptitude)
    else None
  }

  /** Every type is reached by its own name. */
  lemma TypeNameRoundTrip(t: QuestionType)
    ensures TypeNamed(TypeName(t)) == Some(t)
  {
  }

  /** `selectedType`: `questionType` defaults to 'random' when the field is
      absent; 'random' takes `questionTypes[typeRoll]`; any other value is
      used as it is, and a value no `case` names reaches the `default`
      branch, which assigns to the constant `selectedType` and throws. */
  function SelectType(questionType: Option<Json>, typeRoll: nat): (r: Option<QuestionType>)
    requires typeRoll < |QuestionTypes|
    ensures questionType.None? || questionType == Some(JStr("random")) ==> r == Some(QuestionTypes[typeRoll])
    ensures r.None? <==> questionType.Some? && questionType != Some(JStr("random")) &&
                         (!questionType.value.JStr? || TypeNamed(questionType.value.s).None?)
  {
    var name := if questionType.None? then JStr("random") else questionType.value;
    if name == JStr("random") then Some(QuestionTypes[typeRoll])
    else if name.JStr? then TypeNamed(name.s)
    else None
  }

  /** Each type is chosen by one roll of a random request. */
  lemma RandomReachesEveryType(t: QuestionType)
    ensures exists roll: nat :: roll < |QuestionTypes| && SelectType(None, roll) == Some(t)
  {
    var roll: nat := match t case Conversation => 0 case Dsa => 1 case Tech => 2 case Aptitude => 3;
    assert SelectType(None, roll) == Some(t);
  }

  /** The topic a template names when the request gives none. */
  function DefaultTopic(t: QuestionType): string {
    match t
    case Conversation => "general"
    case Dsa => "arrays, strings, or basic algorithms"
    case Tech => "web development, programming concepts, or technology trends"
    case Aptitude => "logical reasoning, quantitative, or analytical thinking"
  }

  /** What a template carries: its type, the topic and the difficulty.  The
      prose of the templates is not part of this model. */
  datatype Prompt = Prompt(kind: QuestionType, topic: string, difficulty: string)

  /** The template of a type: `${topic || default}` and `${difficulty}`, the
      difficulty defaulting to 'beginner' only when the field is absent. */
  function QuestionPrompt(t: QuestionType, topic: Option<Json>, difficulty: Option<Json>): (p: Prompt)
    ensures p.kind == t
    ensures Truthy(topic) ==> p.topic == Interpolate(topic)
    ensures !Truthy(topic) ==> p.topic == DefaultTopic(t)
    ensures difficulty.None? ==> p.difficulty == "beginner"
    ensures difficulty.Some? ==> p.difficulty == Interpolate(difficulty)
  {
    Prompt(t, if Truthy(topic) then Interpolate(topic) else DefaultTopic(t),
           if difficulty.None? then "beginner" else Interpolate(difficulty))
  }

  /** A question of the fallback pool: its wording, topic, expected length
      and the extra fields (a hint or a solution) some of them carry. */
  datatype PoolQuestion = PoolQuestion(english: string, topic: string, expectedLength: string,
                                       extra: map<string, Json>)

  const HobbyQuestion: PoolQuestion :=
    PoolQuestion("What is your favorite hobby and why do you enjoy it?", "Hobbies", "Medium", map[])
  const FriendQuestion: PoolQuestion :=
    PoolQuestion("Describe your best friend to me.", "Relationships", "Medium", map[])
  const ReverseQuestion: PoolQuestion :=
    PoolQuestion("How would you reverse a string without using built-in functions?", "Strings", "Medium",
                 map["hint" := JStr("Think about swapping characters from both ends")])
  const BigOQuestion: PoolQuestion :=
    PoolQuestion("Explain what Big O notation means and give an example.", "Complexity Analysis", "Medium", map[])
  const StackQuestion: PoolQuestion :=
    PoolQuestion("What is the difference between frontend and backend development?", "Web Development", "Medium", map[])
  const GitQuestion: PoolQuestion :=
    PoolQuestion("Why is version control (like Git) important in software development?", "Development Tools", "Medium", map[])
  const WidgetQuestion: PoolQuestion :=
    PoolQuestion("If it takes 5 machines 5 minutes to make 5 widgets, how long would it take 100 machines to make 100 widgets?",
                 "Logical Reasoning", "Short",
                 map["solution" := JStr("5 minutes - each machine makes 1 widget in 5 minutes")])
  const SquaresQuestion: PoolQuestion :=
    PoolQuestion("Find the next number in the sequence: 1, 4, 9, 16, 25, ?", "Patterns", "Short",
                 map["solution" := JStr("36 - these are perfect squares (1², 2², 3², 4², 5², 6²)")])

  /** The pool entries of `fallbackQuestions`, two per type. */
  function PoolOf(t: QuestionType): (pool: seq<PoolQuestion>)
    ensures |pool| == 2
  {
    match t
    case Conversation => [HobbyQuestion, FriendQuestion]
    case Dsa => [ReverseQuestion, BigOQuestion]
    case Tech => [StackQuestion, GitQuestion]
    case Aptitude => [WidgetQuestion, SquaresQuestion]
  }

  /** A pool entry as the object the route returns, its `type` naming the
      pool it came from. */
  function PoolJson(q: PoolQuestion, t: QuestionType): (j: Json)
    ensures j.JObj? && "type" in j.fields && j.fields["type"] == JStr(TypeName(t))
    ensures j.fields.Keys == {"english", "topic", "expectedLength", "type"} + q.extra.Keys
  {
    JObj(q.extra + map["english" := JStr(q.english), "topic" := JStr(q.topic),
                       "expectedLength" := JStr(q.expectedLength), "type" := JStr(TypeName(t))])
  }

  /** `fallbackQuestions[selectedType]`: two fixed questions per type. */
  function FallbackPool(t: QuestionType): (pool: seq<Json>)
    ensures |pool| == 2
    ensures forall i :: 0 <= i < |pool| ==>
              pool[i].JObj? && "type" in pool[i].fields && pool[i].fields["type"] == JStr(TypeName(t))
  {
    var entries := PoolOf(t);
    [PoolJson(entries[0], t), PoolJson(entries[1], t)]
  }

  /** The question the route returns for the model's reply `text`. */
  function QuestionData(text: string, t: QuestionType, poolRoll: nat, parse: string -> Option<Json>): Json
    requires poolRoll < 2
  {
    var parsed := parse(SliceCandidate(text));
    if parsed.Some? then parsed.value else FallbackPool(t)[poolRoll]
  }

  /** When the reply does not parse, the question comes from the pool of the
      selected type and its `type` field names that type. */
  lemma FallbackMatchesType(text: string, t: QuestionType, poolRoll: nat, parse: string -> Option<Json>)
    requires poolRoll < 2 && parse(SliceCandidate(text)).None?
    ensures var q := QuestionData(text, t, poolRoll, parse);
      q in FallbackPool(t) && q.JObj? && "type" in q.fields && q.fields["type"] == JStr(TypeName(t))
  {
  }

  /** The `POST` handler.  `request` is the parsed body (`None` when it is not
      JSON); `typeRoll` and `poolRoll` are the indices `Math.random` yields;
      `generate` receives the prompt; `parse` stands for `JSON.parse`. */
  method Post(request: Option<Json>, typeRoll: nat, poolRoll: nat,
              generate: Prompt -> ModelReply, parse: string -> Option<Json>)
    returns (response: HttpResponse)
    requires typeRoll < |QuestionTypes| && poolRoll < 2
    // Destructuring a `null` body throws into the `catch`.
    ensures request.None? || request.value.JNull? ==> response == Respond(500, ErrorBody(FailureMessage))
    ensures request.Some? && !request.value.JNull? ==>
      var selected := SelectType(Field(request.value, "questionType"), typeRoll);
      && (selected.None? ==> response == Respond(500, ErrorBody(FailureMessage)))
      && (selected.Some? ==>
            var prompt := QuestionPrompt(selected.value, Field(request.value, "topic"), Field(request.value, "difficulty"));
            match generate(prompt)
            case Failed(_) => response == Respond(500, ErrorBody(FailureMessage))
            case Generated(text) => response == Respond(200, QuestionData(text, selected.value, poolRoll, parse)))
  {
    if request.None? || request.value.JNull? {
      return Respond(500, ErrorBody(FailureMessage));
    }
    var selected := SelectType(Field(request.value, "questionType"), typeRoll);
    if selected.None? {
      return Respond(500, ErrorBody(FailureMessage));
    }
    var prompt := QuestionPrompt(selected.value, Field(request.value, "topic"), Field(request.value, "difficulty"));
    var reply := generate(prompt);
    if reply.Failed? {
      return Respond(500, ErrorBody(FailureMessage));
    }
    var text := reply.text;
    var jsonStart := IndexOf(text, '{');
    var jsonEnd := LastIndexOf(text, '}') + 1;
    var jsonString := Slice(text, jsonStart, jsonEnd);
    assert jsonString == SliceCandidate(text);
    var questionData;
    match parse(jsonString) {
      case Some(parsed) => questionData := parsed;
      case None =>
        var fallbacks := FallbackPool(selected.value);
        questionData := fallbacks[poolRoll];
    }
    response := Respond(200, questionData);
  }

  /** An explicit `null` type is not replaced by the 'random' default: it
      reaches the `default` branch, so `Post` fails with 500. */
  lemma NullTypeFails(request: Json, typeRoll: nat)
    requires typeRoll < |QuestionTypes|
    requires request.JObj? && "questionType" in request.fields
    requires request.fields["questionType"] == JNull
    ensures SelectType(Field(request, "questionType"), typeRoll).None?
  {
  }

  /** With a brace pair in the reply, the question is the parse of its greedy
      brace span, or the pool question when that does not parse. */
  lemma QuestionOfBraceSpan(text: string, t: QuestionType, poolRoll: nat, parse: string -> Option<Json>)
    requires poolRoll < 2 && BraceSpan(text).Some?
    ensures QuestionData(text, t, poolRoll, parse) ==
      match parse(BraceSpan(text).value)
      case Some(parsed) => parsed
      case None => FallbackPool(t)[poolRoll]
  {
    SliceCandidateIsBraceSpan(text);
  }
}
