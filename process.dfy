/** The markdown-section structurer of src/app/api/process/route.js: the
    prompt table, `processAIResponse` (segmentation, one option per section,
    metadata, encouragement), its exception fallback, and the `POST` handler
    that validates the request and shapes the reply and the history entry. */
module Process {
  import opened Wrappers
  import opened JsString
  import opened Json
  import opened Segmenter
  import opened Extractor

  /** The keys of `actionPrompts`, in declaration order. */
  const Actions: seq<string> := ["reply", "grammar", "simplify", "polite"]

  /** What the prompt of an action carries: which template, the user's text
      and the context line that only the reply template has.  The prose of the
      templates is not part of this model. */
  datatype Prompt = Prompt(action: string, text: string, context: Option<string>)

  /** `actionPrompts[action](text, reference)`: the text is interpolated into
      every template; the reply template adds `Context: …` when the reference
      is truthy, and the other templates ignore the reference. */
  function ActionPrompt(action: string, text: Option<Json>, reference: Option<Json>): (p: Prompt)
    requires action in Actions
    ensures p.action == action && p.text == Interpolate(text)
    ensures p.context.Some? <==> action == "reply" && Truthy(reference)
  {
    var context := if action == "reply" && Truthy(reference) then Some(Interpolate(reference)) else None;
    Prompt(action, Interpolate(text), context)
  }

  const DefaultEncouragement: string := "You're doing great! Keep practicing."

  /** The `messages` table of `getEncouragementMessage`. */
  const Encouragements: map<string, string> := map[
    "reply" := "Great! Pick the tone that feels right for your situation.",
    "grammar" := "You're improving! These corrections will help you communicate more clearly.",
    "simplify" := "Perfect! Simpler language often works better.",
    "polite" := "Nice work! Polite communication opens doors."]

  /** `getEncouragementMessage(action)`: one message per known action, the
      default for every other key. */
  function Encouragement(action: string): (m: string)
    ensures m != ""
    ensures m == DefaultEncouragement <==> action !in Actions
  {
    if action in Encouragements then Encouragements[action] else DefaultEncouragement
  }

  /** `pieces.filter(section => section.trim())`: the non-blank pieces, in order. */
  function NonBlank(pieces: seq<string>): (r: seq<string>)
    ensures |r| <= |pieces|
    ensures forall i :: 0 <= i < |r| ==> !IsBlank(r[i])
    ensures forall x :: x in r <==> x in pieces && !IsBlank(x)
  {
    if pieces == [] then []
    else (if IsBlank(pieces[0]) then [] else [pieces[0]]) + NonBlank(pieces[1..])
  }

  /** The filter keeps order: filtering a concatenation filters each part. */
  lemma {:induction false} NonBlankAppend(a: seq<string>, b: seq<string>)
    ensures NonBlank(a + b) == NonBlank(a) + NonBlank(b)
  {
    if a != [] {
      assert (a + b)[1..] == a[1..] + b;
      NonBlankAppend(a[1..], b);
    } else {
      assert a + b == b;
    }
  }

  /** The sections `processAIResponse` hands to `parseOptionSection`. */
  function Sections(raw: string): seq<string> {
    NonBlank(SplitAtHeaders(raw))
  }

  /** The options the normal path of `processAIResponse` produces: one per
      section (see `OptionAt`). */
  function OptionsOf(raw: string): (options: seq<OptionRecord>)
    ensures |options| == |Sections(raw)|
  {
    OptionsUpTo(TrimEach(Sections(raw)), |Sections(raw)|)
  }

  /** The trimmed sections: what each call of `parseOptionSection` receives. */
  function TrimEach(sections: seq<string>): (texts: seq<string>)
    ensures |texts| == |sections|
    ensures forall i :: 0 <= i < |texts| ==> texts[i] == Trim(sections[i])
  {
    seq(|sections|, i requires 0 <= i < |sections| => Trim(sections[i]))
  }

  /** The options parsed from the first `n` texts, each with its position. */
  function OptionsUpTo(texts: seq<string>, n: nat): (options: seq<OptionRecord>)
    requires n <= |texts|
    ensures |options| == n
  {
    seq(n, i requires 0 <= i < n => OptionOf(texts[i], i))
  }

  /** Among the first `n` texts, option `i` is parsed from text `i`. */
  lemma OptionsUpToAt(texts: seq<string>, n: nat, i: nat)
    requires i < n <= |texts|
    ensures OptionsUpTo(texts, n)[i] == OptionOf(texts[i], i)
  {
  }

  /** Option `i` of the normal path is section `i`, trimmed and parsed with
      index `i`: the standard record `option_{i+1}`. */
  lemma OptionAt(raw: string, i: nat)
    requires i < |Sections(raw)|
    ensures OptionsOf(raw)[i] == OptionOf(Trim(Sections(raw)[i]), i)
  {
    OptionsUpToAt(TrimEach(Sections(raw)), |Sections(raw)|, i);
  }

  /** Option `i` of the normal path is the standard record `option_{i+1}`. */
  lemma OptionNumbered(raw: string, i: nat)
    requires i < |OptionsOf(raw)|
    ensures OptionsOf(raw)[i].id == OptionId(i + 1) && OptionsOf(raw)[i].kind == Standard
  {
    OptionAt(raw, i);
  }

  /** `options.some(opt => opt.note)` */
  predicate SomeNote(options: seq<OptionRecord>) {
    exists i :: 0 <= i < |options| && options[i].note != ""
  }

  /** `options.some(opt => opt.explanation)` */
  predicate SomeExplanation(options: seq<OptionRecord>) {
    exists i :: 0 <= i < |options| && options[i].explanation != ""
  }

  datatype Metadata = Metadata(
    totalOptions: nat,
    hasNotes: bool,
    hasExplanations: bool,
    processingError: bool)

  /** The `structuredResponse` object (its timestamp left out). */
  datatype StructuredResponse = StructuredResponse(
    success: bool,
    action: Json,
    rawResponse: string,
    options: seq<OptionRecord>,
    metadata: Metadata,
    encouragement: Option<string>,
    error: Option<string>)

  /** One more pushed option extends the list by the parse of the next text. */
  lemma OptionsUpToNext(texts: seq<string>, n: nat)
    requires n < |texts|
    ensures OptionsUpTo(texts, n + 1) == OptionsUpTo(texts, n) + [OptionOf(texts[n], n)]
  {
    var longer, pushed := OptionsUpTo(texts, n + 1), OptionsUpTo(texts, n) + [OptionOf(texts[n], n)];
    forall i | 0 <= i < n + 1 ensures longer[i] == pushed[i] {
      if i < n {
        assert pushed[i] == OptionsUpTo(texts, n)[i];
      }
    }
  }

  /** The `forEach` of `processAIResponse`: each section, trimmed, is parsed
      with its index and pushed (the sections are the non-blank pieces, so
      the `section.trim()` guard always holds). */
  method ParseSections(sections: seq<string>) returns (options: seq<OptionRecord>)
    requires forall i :: 0 <= i < |sections| ==> !IsBlank(sections[i])
    ensures options == OptionsUpTo(TrimEach(sections), |sections|)
  {
    ghost var texts := TrimEach(sections);
    options := [];
    var index := 0;
    while index < |sections|
      invariant 0 <= index <= |sections|
      invariant options == OptionsUpTo(texts, index)
    {
      var section := sections[index];
      if !IsBlank(section) {
        var option := ParseOptionSection(Trim(section), index);
        OptionsUpToNext(texts, index);
        options := options + [option];
      }
      index := index + 1;
    }
  }

  /** `processAIResponse(rawResponse, action)` on its normal path: one parsed
      option per non-blank section, then the metadata and the encouragement. */
  method ProcessAIResponse(raw: string, action: Json) returns (response: StructuredResponse)
    ensures response.success && response.action == action && response.rawResponse == raw
    ensures response.options == OptionsOf(raw)
    ensures response.metadata.totalOptions == |response.options|
    ensures response.metadata.hasNotes <==> SomeNote(response.options)
    ensures response.metadata.hasExplanations <==> SomeExplanation(response.options)
    ensures !response.metadata.processingError
    ensures response.encouragement == Some(Encouragement(ToJsString(action)))
    ensures response.error == None
  {
    var options := ParseSections(Sections(raw));
    var hasNotes := SomeNote(options);
    var hasExplanations := SomeExplanation(options);
    response := StructuredResponse(
      true, action, raw, options,
      Metadata(|options|, hasNotes, hasExplanations, false),
      Some(Encouragement(ToJsString(action))), None);
  }

  /** The `catch` branch of `processAIResponse`: one `fallback` option holding
      the whole trimmed reply.  Splitting and matching a string never throw,
      so the route never takes it; it is kept as the contract of that branch. */
  function FallbackResponse(raw: string, action: Json): (response: StructuredResponse)
    ensures !response.success && response.rawResponse == raw
    ensures |response.options| == 1 == response.metadata.totalOptions
    ensures response.options[0].kind == Fallback && response.options[0].content == Trim(raw)
    ensures response.metadata.processingError && response.encouragement == None
  {
    StructuredResponse(
      false, action, raw,
      [OptionRecord("fallback", "Response", Trim(raw), "", "", Fallback)],
      Metadata(1, false, false, true),
      None, Some("Response processing failed, using fallback structure"))
  }

  /** Options of the normal path have distinct ids. */
  lemma OptionIdsDistinct(raw: string, i: nat, j: nat)
    requires i < j < |OptionsOf(raw)|
    ensures OptionsOf(raw)[i].id != OptionsOf(raw)[j].id
  {
    OptionNumbered(raw, i);
    OptionNumbered(raw, j);
    NumberedApart(OptionsOf(raw)[i], OptionsOf(raw)[j], i, j);
  }

  /** Records numbered at different positions have different ids. */
  lemma NumberedApart(x: OptionRecord, y: OptionRecord, m: nat, n: nat)
    requires m != n
    requires x.id == OptionId(m + 1) && y.id == OptionId(n + 1)
    ensures x.id != y.id
  {
    OptionIdsDiffer(m + 1, n + 1);
  }

  /** The normal path never produces the `fallback` record. */
  lemma NormalPathIsNotFallback(raw: string, action: Json, k: nat)
    requires k < |OptionsOf(raw)|
    ensures OptionsOf(raw)[k] != FallbackResponse(raw, action).options[0]
  {
    OptionNumbered(raw, k);
  }

  /** Whitespace-only text gives no option at all (and the normal path still
      reports success). */
  lemma BlankRawGivesNoOptions(raw: string)
    requires IsBlank(raw)
    ensures OptionsOf(raw) == []
  {
    BlankHasNoHeader(raw);
    NoHeaderNoSplit(raw);
    assert SplitAtHeaders(raw)[1..] == [];
  }

  /** Text without a section header becomes one ordinary option, `option_1`,
      parsed from the whole trimmed text. */
  lemma NoHeaderGivesOneOption(raw: string)
    requires !HasHeader(raw) && !IsBlank(raw)
    ensures OptionsOf(raw) == [OptionOf(Trim(raw), 0)]
    ensures OptionsOf(raw)[0].id == "option_1" && OptionsOf(raw)[0].kind == Standard
  {
    HeaderlessIsOneSection(raw);
    OptionAt(raw, 0);
    OptionNumbered(raw, 0);
    FirstOptionId();
  }

  lemma FirstOptionId()
    ensures OptionId(1) == "option_1"
  {
  }

  /** Text without a header that is not blank is the one section. */
  lemma HeaderlessIsOneSection(raw: string)
    requires !HasHeader(raw) && !IsBlank(raw)
    ensures Sections(raw) == [raw]
  {
    NoHeaderNoSplit(raw);
    assert SplitAtHeaders(raw)[1..] == [];
  }

  /** Text before the first header that is not blank becomes `option_1`. */
  lemma PreambleIsFirstOption(raw: string)
    requires !IsBlank(raw[..FirstHeaderFrom(raw, 0)])
    ensures |OptionsOf(raw)| >= 1
    ensures OptionsOf(raw)[0] == OptionOf(Trim(raw[..FirstHeaderFrom(raw, 0)]), 0)
  {
    FirstPieceIsPreamble(raw, 0, 0);
    var pieces := SplitAtHeaders(raw);
    assert pieces == [pieces[0]] + pieces[1..];
    var sections := Sections(raw);
    assert sections[0] == pieces[0];
    OptionsUpToAt(TrimEach(sections), |sections|, 0);
  }

  /** The `options` array of a reply: one object per record.  A `fallback`
      record has no note and no explanation. */
  function OptionJson(o: OptionRecord): Json {
    match o.kind
    case Standard =>
      JObj(map["id" := JStr(o.id), "title" := JStr(o.title), "content" := JStr(o.content),
               "note" := JStr(o.note), "explanation" := JStr(o.explanation), "type" := JStr("standard")])
    case Fallback =>
      JObj(map["id" := JStr(o.id), "title" := JStr(o.title), "content" := JStr(o.content),
               "type" := JStr("fallback")])
  }

  /** An option object carries the record's id, title, content and type; the
      note and explanation exactly when it is a standard record. */
  lemma OptionJsonFields(o: OptionRecord)
    ensures var j := OptionJson(o);
      && Field(j, "id") == Some(JStr(o.id)) && Field(j, "title") == Some(JStr(o.title))
      && Field(j, "content") == Some(JStr(o.content))
      && Field(j, "type") == Some(JStr(if o.kind == Standard then "standard" else "fallback"))
      && (o.kind == Standard <==> Field(j, "note").Some? && Field(j, "explanation").Some?)
      && (o.kind == Standard ==>
            Field(j, "note") == Some(JStr(o.note)) && Field(j, "explanation") == Some(JStr(o.explanation)))
  {
  }

  function MetadataJson(m: Metadata): Json {
    var fields := map["totalOptions" := JNum(m.totalOptions), "hasNotes" := JBool(m.hasNotes),
                      "hasExplanations" := JBool(m.hasExplanations)];
    JObj(if m.processingError then fields["processingError" := JBool(true)] else fields)
  }

  /** The metadata object carries the three counts and flags, and
      `processingError: true` only when processing failed. */
  lemma MetadataJsonFields(m: Metadata)
    ensures var j := MetadataJson(m);
      && Field(j, "totalOptions") == Some(JNum(m.totalOptions))
      && Field(j, "hasNotes") == Some(JBool(m.hasNotes))
      && Field(j, "hasExplanations") == Some(JBool(m.hasExplanations))
      && Field(j, "processingError") == if m.processingError then Some(JBool(true)) else None
  {
  }

  /** `options[0]?.content || 'No result generated'` */
  function ResultText(options: seq<OptionRecord>): string {
    if |options| > 0 && options[0].content != "" then options[0].content else "No result generated"
  }

  datatype SearchableFields = SearchableFields(
    hasMultipleOptions: bool,
    optionCount: nat,
    actionType: Json,
    processingSuccess: bool)

  /** What the route hands to the history store (timestamp and request headers
      left out). */
  datatype HistoryEntry = HistoryEntry(
    inputText: Json,
    referenceText: Option<Json>,
    action: Json,
    structuredResult: StructuredResponse,
    searchableFields: SearchableFields)

  /** The history entry of a processed request: the searchable fields
      summarise the structured result. */
  function EntryOf(text: Json, reference: Option<Json>, action: Json, structured: StructuredResponse): (e: HistoryEntry)
    ensures e.structuredResult == structured && e.action == action == e.searchableFields.actionType
    ensures e.searchableFields.optionCount == |structured.options|
    ensures e.searchableFields.hasMultipleOptions <==> |structured.options| >= 2
    ensures e.searchableFields.processingSuccess == structured.success
  {
    var count := |structured.options|;
    HistoryEntry(text, reference, action, structured,
                 SearchableFields(count > 1, count, action, structured.success))
  }

  /** The `options` array of a reply, one object per record in order. */
  function OptionsJson(options: seq<OptionRecord>): (items: seq<Json>)
    ensures |items| == |options|
    ensures forall i :: 0 <= i < |items| ==> items[i] == OptionJson(options[i])
  {
    seq(|options|, i requires 0 <= i < |options| => OptionJson(options[i]))
  }

  /** The keys of a success reply are distinct. */
  lemma ReplyKeysDiffer()
    ensures "success" != "action" && "success" != "options" && "success" != "result"
    ensures "action" != "options" && "action" != "result" && "options" != "result"
  {
    assert "success"[0] != "action"[0];
    assert "success"[0] != "options"[0];
    assert |"success"| != |"result"|;
    assert "action"[0] != "options"[0];
    assert "action"[0] != "result"[0];
    assert |"options"| != |"result"|;
  }

  /** The keys of the report part of a success reply differ from each other
      and from the rest: no two have the same length. */
  lemma ReportKeysDiffer()
    ensures |"success"| == |"options"| == 7 && |"action"| == |"result"| == 6
    ensures |"metadata"| == 8 && |"processingInfo"| == 14 && |"encouragement"| == 13
  {
  }

  /** The `processingInfo` object of a success reply. */
  function ProcessingInfo(found: nat, rawLength: nat, success: bool, saved: bool): Json {
    JObj(map["optionsFound" := JNum(found), "rawResponseLength" := JNum(rawLength),
             "processingSuccess" := JBool(success), "databaseSaved" := JBool(saved)])
  }

  /** The processing summary reports what it was given under its four keys. */
  lemma ProcessingInfoFields(found: nat, rawLength: nat, success: bool, saved: bool)
    ensures var j := ProcessingInfo(found, rawLength, success, saved);
      && Field(j, "optionsFound") == Some(JNum(found))
      && Field(j, "rawResponseLength") == Some(JNum(rawLength))
      && Field(j, "processingSuccess") == Some(JBool(success))
      && Field(j, "databaseSaved") == Some(JBool(saved))
  {
  }

  /** The success reply: the structured result spread out, the first option's
      content as `result`, and the processing summary (timestamp left out).
      An `undefined` encouragement is left out of the serialised object. */
  function ReplyBody(action: Json, rawLength: nat, structured: StructuredResponse, saved: bool): (j: Json)
    ensures Field(j, "success") == Some(JBool(true))
    ensures Field(j, "action") == Some(action)
    ensures Field(j, "result") == Some(JStr(ResultText(structured.options)))
    ensures Field(j, "options") == Some(JArr(OptionsJson(structured.options)))
  {
    ReplyKeysDiffer();
    var options := structured.options;
    var info := ProcessingInfo(|options|, rawLength, structured.success, saved);
    var report := map["metadata" := MetadataJson(structured.metadata), "processingInfo" := info];
    var encouraged := match structured.encouragement
      case Some(message) => report["encouragement" := JStr(message)]
      case None => report;
    JObj(encouraged["success" := JBool(true)]["action" := action]["options" := JArr(OptionsJson(options))]
                   ["result" := JStr(ResultText(options))])
  }

  /** The rest of the success reply: the metadata, the encouragement when
      there is one, and the processing summary. */
  lemma ReplyBodyReport(action: Json, rawLength: nat, structured: StructuredResponse, saved: bool)
    ensures var j := ReplyBody(action, rawLength, structured, saved);
      && Field(j, "metadata") == Some(MetadataJson(structured.metadata))
      && Field(j, "encouragement") ==
           (if structured.encouragement.Some? then Some(JStr(structured.encouragement.value)) else None)
      && Field(j, "processingInfo") ==
           Some(ProcessingInfo(|structured.options|, rawLength, structured.success, saved))
  {
    ReportKeysDiffer();
  }

  function MissingFieldsBody(): (j: Json)
    ensures Field(j, "error") == Some(JStr("Missing required fields"))
    ensures Field(j, "message") == Some(JStr("Please provide both text and action type."))
  {
    JObj(map["error" := JStr("Missing required fields"),
             "message" := JStr("Please provide both text and action type.")])
  }

  function InvalidActionBody(): (j: Json)
    ensures j.JObj? && "error" in j.fields && j.fields["error"] == JStr("Invalid action")
    ensures "availableActions" in j.fields && j.fields["availableActions"] == JArr(seq(|Actions|, i requires 0 <= i < |Actions| => JStr(Actions[i])))
  {
    JObj(map["error" := JStr("Invalid action"),
             "message" := JStr("Please choose a valid action type."),
             "availableActions" := JArr(seq(|Actions|, i requires 0 <= i < |Actions| => JStr(Actions[i])))])
  }

  /** The `POST` handler.  `request` is the parsed body (`None` when
      `request.json()` rejects), `generate` the model gateway, `connected`
      whether `databaseService.connect()` resolves and `saved` what the
      history store reports. */
  method Post(request: Option<Json>, generate: Prompt -> ModelReply, connected: bool, saved: bool)
    returns (response: HttpResponse, entry: Option<HistoryEntry>)
    // A body that is not JSON, or `null`, throws before validation; the `catch`
    // then reads the block-scoped `action` and throws a ReferenceError itself.
    ensures request.None? || request.value.JNull? ==> response.Unhandled? && entry.None?
    ensures request.Some? && !request.value.JNull? ==>
      var text, reference, action := Field(request.value, "text"),
          Field(request.value, "reference"), Field(request.value, "action");
      && (!Truthy(text) || !Truthy(action) ==> response == Respond(400, MissingFieldsBody()) && entry.None?)
      && (Truthy(text) && Truthy(action) && ToJsString(action.value) !in Actions ==>
            response == Respond(400, InvalidActionBody()) && entry.None?)
      && (Truthy(text) && Truthy(action) && ToJsString(action.value) in Actions ==>
            var reply := generate(ActionPrompt(ToJsString(action.value), text, reference));
            && (reply.Failed? ==> response.Unhandled? && entry.None?)
            && (reply.Generated? && !connected ==> response.Unhandled? && entry.None?)
            && (reply.Generated? && connected ==>
                  && entry.Some?
                  && entry.value.structuredResult.options == OptionsOf(reply.text)
                  && entry.value.structuredResult.success
                  && entry.value.structuredResult.metadata.totalOptions == |OptionsOf(reply.text)|
                  && (entry.value.structuredResult.metadata.hasNotes <==> SomeNote(OptionsOf(reply.text)))
                  && (entry.value.structuredResult.metadata.hasExplanations <==>
                        SomeExplanation(OptionsOf(reply.text)))
                  && !entry.value.structuredResult.metadata.processingError
                  && entry.value.structuredResult.encouragement == Some(Encouragement(ToJsString(action.value)))
                  && entry.value == EntryOf(text.value, reference, action.value, entry.value.structuredResult)
                  && response == Respond(200, ReplyBody(action.value, |reply.text|, entry.value.structuredResult, saved))))
  {
    if request.None? || request.value.JNull? {
      return Unhandled("ReferenceError: action is not defined"), None;
    }
    var text := Field(request.value, "text");
    var reference := Field(request.value, "reference");
    var action := Field(request.value, "action");

    if !Truthy(text) || !Truthy(action) {
      return Respond(400, MissingFieldsBody()), None;
    }
    var key := ToJsString(action.value);
    if key !in Actions {
      return Respond(400, InvalidActionBody()), None;
    }

    var reply := generate(ActionPrompt(key, text, reference));
    if reply.Failed? {
      return Unhandled("ReferenceError: action is not defined"), None;
    }
    var rawText := reply.text;
    var structured := ProcessAIResponse(rawText, action.value);
    if !connected {
      return Unhandled("ReferenceError: action is not defined"), None;
    }
    entry := Some(EntryOf(text.value, reference, action.value, structured));
    response := Respond(200, ReplyBody(action.value, |rawText|, structured, saved));
  }
}
