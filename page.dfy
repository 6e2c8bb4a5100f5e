/** The state of the home page (src/app/page.js): the results per action,
    the loading flags, the newest-first history capped at ten items, the
    expanded-option flags and the error line, with the handlers that update
    them, and the explanation line of a result.  The network round trip of
    `processText` is an input: what the `fetch` to the process route yields. */
module Page {
  import opened Wrappers
  import opened JsString
  import opened Json
  import Process

  /** The most history items the page keeps. */
  const HistoryLimit: nat := 10

  /** What `results[action]` holds: a processed reply, or the error record
      with its fixed texts. */
  datatype ActionResult =
    | Processed(result: Option<Json>, options: seq<Option<Json>>, optionData: Json,
                explanation: string, encouragement: Json, action: string, metadata: Json)
    | ErrorRecord(action: string)

  /** A history item (its `id` and `timestamp` clocks left out). */
  datatype HistoryItem = HistoryItem(input: string, reference: string, action: string,
                                     result: Option<Json>, optionCount: nat)

  /** How the request to the process route ends: the `fetch` or the
      `response.json()` promise rejects with a message, the status is not ok,
      or a JSON body arrives. */
  datatype FetchOutcome = Rejected(message: string) | HttpError(status: nat) | Received(data: Json)

  /** Where the page reads a property of `null` or calls `map` on a value
      that has none, the engine throws a TypeError; its wording is not part of
      this model and this constant stands for it. */
  const TypeErrorMessage: string := "TypeError"

  /** How the `try` block of `processText` ends: the new result and history
      item, or the message of the error it throws. */
  datatype Handled = Succeeded(record: ActionResult, item: HistoryItem) | Threw(message: string)

  /** `option.content` for one element of `data.options`; `None` when the
      element is `null` and the access throws. */
  function ContentOf(option: Json): Option<Option<Json>> {
    if option.JNull? then None else Some(Field(option, "content"))
  }

  /** `options.map(option => option.content)`, or `None` when it throws. */
  function Contents(items: seq<Json>): (r: Option<seq<Option<Json>>>)
    ensures r.Some? <==> forall i :: 0 <= i < |items| ==> !items[i].JNull?
    ensures r.Some? ==> |r.value| == |items|
    ensures r.Some? ==> forall i :: 0 <= i < |items| ==> r.value[i] == Field(items[i], "content")
  {
    if items == [] then Some([])
    else
      var rest := Contents(items[1..]);
      if items[0].JNull? || rest.None? then None
      else Some([Field(items[0], "content")] + rest.value)
  }

  /** `data.options?.map(option => option.content) || [data.result]`, or
      `None` when it throws: a present array gives its contents (an empty
      array included), an absent or `null` one gives `[data.result]`, and any
      other value has no `map`. */
  function OptionList(data: Json): (r: Option<seq<Option<Json>>>)
    ensures var options := Field(data, "options");
      && (options.None? || options.value.JNull? ==> r == Some([Field(data, "result")]))
      && (options.Some? && options.value.JArr? ==> r == Contents(options.value.items))
      && (options.Some? && !options.value.JNull? && !options.value.JArr? ==> r.None?)
  {
    var options := Field(data, "options");
    if options.None? || options.value.JNull? then Some([Field(data, "result")])
    else if options.value.JArr? then Contents(options.value.items)
    else None
  }

  /** `v || fallback`: the value when it is truthy, the fallback otherwise. */
  function OrDefault(v: Option<Json>, fallback: Json): (r: Json)
    ensures Truthy(v) ==> Some(r) == v
    ensures !Truthy(v) ==> r == fallback
  {
    if Truthy(v) then v.value else fallback
  }

  /** `data.options?.length || 1` on the paths that reach it. */
  function OptionCount(data: Json): (n: nat)
    ensures n >= 1
    ensures var options := Field(data, "options");
      options.Some? && options.value.JArr? && options.value.items != [] ==> n == |options.value.items|
    ensures var options := Field(data, "options");
      options.None? || options.value.JNull? || options.value == JArr([]) ==> n == 1
  {
    var options := Field(data, "options");
    if options.Some? && options.value.JArr? && |options.value.items| > 0 then |options.value.items| else 1
  }

  /** The text around the count in each line of `getExplanationForAction`. */
  const Explanations: map<string, (string, string)> := map[
    "reply" := ("Generated ", " different reply options with varying tones."),
    "grammar" := ("Grammar and spelling have been corrected with ", " variations."),
    "simplify" := ("Text simplified into ", " clearer versions."),
    "polite" := ("Made more polite with ", " different approaches."),
    "formal" := ("Formalized with ", " professional variations."),
    "casual" := ("Made more casual with ", " friendly versions."),
    "expand" := ("Expanded with ", " detailed variations."),
    "summarize" := ("Summarized into ", " concise versions.")]

  const DefaultExplanation: (string, string) := ("Processed successfully with ", " options.")

  /** `getExplanationForAction(action, optionCount)`: the action's line, or
      the generic one, with the count written in decimal. */
  function Explanation(action: string, optionCount: nat): (r: string)
    ensures var (before, after) := if action in Explanations then Explanations[action] else DefaultExplanation;
      r == before + NatToString(optionCount) + after
  {
    var (before, after) := if action in Explanations then Explanations[action] else DefaultExplanation;
    before + NatToString(optionCount) + after
  }

  /** For one action, the explanation determines the count. */
  lemma ExplanationInjective(action: string, m: nat, n: nat)
    requires Explanation(action, m) == Explanation(action, n)
    ensures m == n
  {
    var (before, after) := if action in Explanations then Explanations[action] else DefaultExplanation;
    var x, y := Explanation(action, m), Explanation(action, n);
    assert |NatToString(m)| == |NatToString(n)|;
    assert NatToString(m) == x[|before|..|before| + |NatToString(m)|];
    assert NatToString(n) == y[|before|..|before| + |NatToString(n)|];
    DecimalInjective(m, n);
  }

  /** The try block of `processText` for the request it sent.  A transport
      failure or an unsuccessful reply throws; a successful reply whose
      options can be read yields the processed record, with the options read
      from `data.options` and the count written into the explanation, and the
      matching history item. */
  function Handle(action: string, input: string, reference: string, outcome: FetchOutcome): (h: Handled)
    ensures outcome.Rejected? ==> h == Threw(outcome.message)
    ensures outcome.HttpError? ==> h == Threw("HTTP error! status: " + NatToString(outcome.status))
    ensures h.Succeeded? <==>
              (outcome.Received? && !outcome.data.JNull? &&
               Truthy(Field(outcome.data, "success")) && OptionList(outcome.data).Some?)
    ensures outcome.Received? && outcome.data.JNull? ==> h == Threw(TypeErrorMessage)
    ensures outcome.Received? && !outcome.data.JNull? && !Truthy(Field(outcome.data, "success")) ==>
      var message := Field(outcome.data, "message");
      h == Threw(if Truthy(message) then Interpolate(message) else "Failed to process text")
    ensures (outcome.Received? && !outcome.data.JNull? && Truthy(Field(outcome.data, "success")) &&
             OptionList(outcome.data).None?) ==> h == Threw(TypeErrorMessage)
    ensures h.Succeeded? ==>
      var data := outcome.data;
      && h.record.Processed? && h.record.action == action
      && h.record.result == Field(data, "result")
      && h.record.options == OptionList(data).value
      && h.record.optionData == OrDefault(Field(data, "options"), JArr([]))
      && h.record.explanation == Explanation(action, OptionCount(data))
      && h.record.encouragement == OrDefault(Field(data, "encouragement"), JStr("Great work!"))
      && h.record.metadata == OrDefault(Field(data, "metadata"), JObj(map[]))
      && h.item == HistoryItem(input, reference, action, Field(data, "result"), OptionCount(data))
  {
    match outcome
    case Rejected(message) => Threw(message)
    case HttpError(status) => Threw("HTTP error! status: " + NatToString(status))
    case Received(data) =>
      if data.JNull? then Threw(TypeErrorMessage)
      else if !Truthy(Field(data, "success")) then
        Threw(if Truthy(Field(data, "message")) then Interpolate(Field(data, "message")) else "Failed to process text")
      else
        match OptionList(data)
        case None => Threw(TypeErrorMessage)
        case Some(options) =>
          var count := OptionCount(data);
          Succeeded(Processed(Field(data, "result"), options, OrDefault(Field(data, "options"), JArr([])),
                              Explanation(action, count), OrDefault(Field(data, "encouragement"), JStr("Great work!")),
                              action, OrDefault(Field(data, "metadata"), JObj(map[]))),
                    HistoryItem(input, reference, action, Field(data, "result"), count))
  }

  /** The error line the `catch` shows: the thrown message, or the generic
      one when that is empty. */
  function ErrorText(message: string): (r: string)
    ensures r != ""
    ensures message != "" ==> r == message
  {
    if message == "" then "Failed to process text. Please try again." else message
  }

  /** `[item, ...prev.slice(0, 9)]`: the new item first, then the newest
      old items, at most ten in all. */
  function Prepend(item: HistoryItem, history: seq<HistoryItem>): (r: seq<HistoryItem>)
    ensures |r| == if |history| < HistoryLimit then |history| + 1 else HistoryLimit
    ensures r[0] == item
    ensures forall i :: 1 <= i < |r| ==> r[i] == history[i - 1]
  {
    [item] + history[..if |history| < HistoryLimit - 1 then |history| else HistoryLimit - 1]
  }

  /** The body `processText` sends to the process route. */
  function RequestBody(inputText: string, referenceText: string, action: string): Json {
    JObj(map["text" := JStr(Trim(inputText)),
             "reference" := if Trim(referenceText) == "" then JNull else JStr(Trim(referenceText)),
             "action" := JStr(action)])
  }

  /** A non-blank input sent with one of the route's actions passes the
      route's validation, and the reference reaches the reply prompt exactly
      when it is not blank. */
  lemma RequestBodyAccepted(inputText: string, referenceText: string, action: string)
    requires !IsBlank(inputText) && action in Process.Actions
    ensures var body := RequestBody(inputText, referenceText, action);
      var text, reference := Field(body, "text"), Field(body, "reference");
      && Truthy(text) && Truthy(Field(body, "action"))
      && ToJsString(Field(body, "action").value) == action
      && text == Some(JStr(Trim(inputText)))
      && (Process.ActionPrompt(action, text, reference).context.Some? <==>
            action == "reply" && !IsBlank(referenceText))
  {
    var body := RequestBody(inputText, referenceText, action);
    assert Field(body, "text") == Some(JStr(Trim(inputText)));
    assert Field(body, "action") == Some(JStr(action));
    assert Truthy(Field(body, "reference")) <==> !IsBlank(referenceText);
  }

  /** Whether an option's details are shown: `!!expandedOptions[key]`. */
  predicate Expanded(flags: map<string, bool>, key: string) {
    key in flags && flags[key]
  }

  /** `{...prev, [key]: !prev[key]}` */
  function Flipped(flags: map<string, bool>, key: string): (r: map<string, bool>)
    ensures forall k :: k != key ==> Expanded(r, k) == Expanded(flags, k)
    ensures Expanded(r, key) == !Expanded(flags, key)
  {
    flags[key := !Expanded(flags, key)]
  }

  /** Flipping a key twice shows and hides exactly what it did before. */
  lemma FlippedTwice(flags: map<string, bool>, key: string, k: string)
    ensures Expanded(Flipped(Flipped(flags, key), key), k) == Expanded(flags, k)
  {
  }

  /** `${action}-${optionIndex}` */
  function OptionKey(action: string, index: nat): string {
    DashNumber(action, index)
  }

  /** Distinct (action, index) pairs have distinct keys, so a toggle never
      touches another option's flag. */
  lemma OptionKeysDistinct(a1: string, i1: nat, a2: string, i2: nat)
    requires a1 != a2 || i1 != i2
    ensures OptionKey(a1, i1) != OptionKey(a2, i2)
  {
    if OptionKey(a1, i1) == OptionKey(a2, i2) {
      DashNumberInjective(a1, i1, a2, i2);
    }
  }

  /** The `Home` component's state. */
  class Home {
    var inputText: string
    var referenceText: string
    var results: map<string, ActionResult>
    var loading: map<string, bool>
    var history: seq<HistoryItem>
    var expandedOptions: map<string, bool>
    var error: string

    /** The history never holds more than ten items. */
    predicate Valid()
      reads this
    {
      |history| <= HistoryLimit
    }

    /** The initial `useState` values. */
    constructor()
      ensures Valid()
      ensures inputText == "" && referenceText == "" && error == ""
      ensures results == map[] && loading == map[] && history == [] && expandedOptions == map[]
    {
      inputText := "";
      referenceText := "";
      results := map[];
      loading := map[];
      history := [];
      expandedOptions := map[];
      error := "";
    }

    /** The input box's `onChange`. */
    method SetInputText(text: string)
      modifies this
      ensures inputText == text
      ensures referenceText == old(referenceText) && results == old(results) && loading == old(loading)
      ensures history == old(history) && expandedOptions == old(expandedOptions) && error == old(error)
    {
      inputText := text;
    }

    /** The reference box's `onChange`. */
    method SetReferenceText(text: string)
      modifies this
      ensures referenceText == text
      ensures inputText == old(inputText) && results == old(results) && loading == old(loading)
      ensures history == old(history) && expandedOptions == old(expandedOptions) && error == old(error)
    {
      referenceText := text;
    }

    /** `processText(action)` from start to end, with the request ending in
        `outcome`: `BeginRequest`, then `Handle` on the input and reference read
        at the start, then `FinishRequest`.  A blank input changes nothing;
        otherwise only `results[action]` is replaced, the history gains the new
        item first on success, the error line is set on failure, and the
        action's loading flag ends false. */
    method ProcessText(action: string, outcome: FetchOutcome)
      requires Valid()
      modifies this
      ensures Valid()
      ensures IsBlank(old(inputText)) ==>
        && inputText == old(inputText) && referenceText == old(referenceText) && results == old(results)
        && loading == old(loading) && history == old(history) && expandedOptions == old(expandedOptions)
        && error == old(error)
      ensures !IsBlank(old(inputText)) ==>
        var handled := Handle(action, old(inputText), old(referenceText), outcome);
        && inputText == old(inputText) && referenceText == old(referenceText)
        && expandedOptions == old(expandedOptions)
        && loading == old(loading)[action := false]
        && (handled.Succeeded? ==>
              && results == old(results)[action := handled.record]
              && history == Prepend(handled.item, old(history))
              && error == "")
        && (handled.Threw? ==>
              && results == old(results)[action := ErrorRecord(action)]
              && history == old(history)
              && error == ErrorText(handled.message))
    {
      var input, reference := inputText, referenceText;
      var started := BeginRequest(action);
      if !started {
        return;
      }
      var handled := Handle(action, input, reference, outcome);
      FinishRequest(action, handled);
    }

    /** The synchronous start of `processText`: a blank input returns at
        once; otherwise the action's loading flag is raised and the error
        line cleared while the request is in flight.  Other requests may
        begin and finish before this one does. */
    method BeginRequest(action: string) returns (started: bool)
      requires Valid()
      modifies this
      ensures Valid()
      ensures started <==> !IsBlank(old(inputText))
      ensures inputText == old(inputText) && referenceText == old(referenceText)
      ensures results == old(results) && history == old(history) && expandedOptions == old(expandedOptions)
      ensures !started ==> loading == old(loading) && error == old(error)
      ensures started ==> loading == old(loading)[action := true] && loading[action] && error == ""
    {
      if IsBlank(inputText) {
        return false;
      }
      loading := loading[action := true];
      error := "";
      return true;
    }

    /** The end of `processText` once its request has been handled: the
        outcome of the `try` block, then the `finally` that lowers the
        action's loading flag.  A success leaves the error line as it is. */
    method FinishRequest(action: string, handled: Handled)
      requires Valid()
      modifies this
      ensures Valid()
      ensures inputText == old(inputText) && referenceText == old(referenceText)
      ensures expandedOptions == old(expandedOptions)
      ensures loading == old(loading)[action := false]
      ensures handled.Succeeded? ==>
        && results == old(results)[action := handled.record]
        && history == Prepend(handled.item, old(history))
        && error == old(error)
      ensures handled.Threw? ==>
        && results == old(results)[action := ErrorRecord(action)]
        && history == old(history)
        && error == ErrorText(handled.message)
    {
      match handled {
        case Succeeded(record, item) =>
          results := results[action := record];
          history := Prepend(item, history);
        case Threw(message) =>
          error := ErrorText(message);
          results := results[action := ErrorRecord(action)];
      }
      loading := loading[action := false];
    }

    /** `toggleOptionDetails(action, optionIndex)` */
    method ToggleOptionDetails(action: string, index: nat)
      modifies this
      ensures expandedOptions == Flipped(old(expandedOptions), OptionKey(action, index))
      ensures inputText == old(inputText) && referenceText == old(referenceText) && results == old(results)
      ensures loading == old(loading) && history == old(history) && error == old(error)
    {
      var key := OptionKey(action, index);
      expandedOptions := expandedOptions[key := !Expanded(expandedOptions, key)];
    }

    /** `clearAll()`: the texts, results, history and error line are reset;
        the loading and expanded flags are kept. */
    method ClearAll()
      modifies this
      ensures Valid()
      ensures inputText == "" && referenceText == "" && results == map[] && history == [] && error == ""
      ensures loading == old(loading) && expandedOptions == old(expandedOptions)
    {
      inputText := "";
      referenceText := "";
      results := map[];
      history := [];
      error := "";
    }
  }
}
