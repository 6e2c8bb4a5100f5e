/** The make-polite and simplify routes (src/app/api/make-polite/route.js,
    src/app/api/simplify/route.js).  Both validate `PRIMARY_TEXT`, clean the
    model's text, accept a parse only when it has a non-empty `options`
    array, fall back to three templates otherwise, and repair `options` to
    exactly three non-blank strings.  They differ only in their templates,
    their reply key and their error message. */
module Rewrite {
  import opened Wrappers
  import opened JsString
  import opened Json
  import opened Cleaning

  datatype Route = Polite | Simplify

  /** The key the route wraps its reply in. */
  function RouteKey(route: Route): string {
    match route
    case Polite => "make-polite"
    case Simplify => "simplify"
  }

  /** The message of the route's own `catch`. */
  function FailureMessage(route: Route): string {
    match route
    case Polite => "Failed to process politeness enhancement request"
    case Simplify => "Failed to process text simplification request"
  }

  /** What the prompt carries: the text, and the context line only when
      `CONTEXT_TEXT` is truthy.  The prose of the templates is not modelled. */
  datatype Prompt = Prompt(route: Route, text: string, context: Option<string>)

  /** The template the first padding loop pushes when the list has `position`
      entries. */
  function PadTemplate(route: Route, position: nat, text: string): string {
    match route
    case Polite =>
      if position == 0 then "Please " + text
      else if position == 1 then "I would appreciate if you could " + text
      else "Would you kindly " + text + "? Thank you."
    case Simplify =>
      if position == 0 then "Simplified: " + text
      else if position == 1 then "Easier version: " + text
      else "Basic form: " + text
  }

  /** The template the last padding loop pushes as entry number `k`. */
  function RefillTemplate(route: Route, k: nat, text: string): string {
    match route
    case Polite => "Polite version " + NatToString(k) + ": " + text
    case Simplify => "Simplified version " + NatToString(k) + ": " + text
  }

  /** `text` when it has at most `n` characters, else its first `n`
      characters followed by "...". */
  function Abbreviate(text: string, n: nat): (r: string)
    ensures StartsWith(r, Prefix(text, n))
    ensures |text| <= n ==> r == text
    ensures |text| > n ==> |r| == n + 3 && EndsWith(r, "...")
  {
    if |text| > n then text[..n] + "..." else text
  }

  /** The first 15 space-separated words, followed by "..." when there are
      more. */
  function FirstWords(text: string): (r: string) {
    var words := SplitOn(text, ' ');
    if |words| > 15 then JoinWith(words[..15], ' ') + "..." else JoinWith(words, ' ')
  }

  /** A text of at most 15 words is kept whole; a longer one is cut to a
      prefix of itself. */
  lemma FirstWordsShape(text: string)
    ensures |SplitOn(text, ' ')| <= 15 ==> FirstWords(text) == text
    ensures |SplitOn(text, ' ')| > 15 ==>
      exists head :: StartsWith(text, head) && FirstWords(text) == head + "..."
  {
    var words := SplitOn(text, ' ');
    if |words| <= 15 {
      SplitJoinRoundTrip(text, ' ');
    } else {
      JoinFirstPiecesIsPrefix(text, ' ', 15);
      var head := JoinWith(words[..15], ' ');
      assert StartsWith(text, head) && FirstWords(text) == head + "...";
    }
  }

  /** The three options of the `catch` branch. */
  function FallbackOptions(route: Route, text: string): (r: seq<string>)
    ensures |r| == 3
  {
    match route
    case Polite =>
      var lower := ToLower(text);
      ["Please " + lower,
       "I would appreciate if you could " + lower,
       "Would you be so kind as to " + lower + "? Thank you very much."]
    case Simplify =>
      ["Simple version: " + Abbreviate(text, 100),
       "Easy to read: " + FirstWords(text),
       "Basic form: " + Abbreviate(text, 80)]
  }

  /** `prefix + x + suffix` starts with `prefix`, has `x` right after it and
      ends with `suffix`. */
  lemma Framed(prefix: string, x: string, suffix: string)
    ensures var s := prefix + x + suffix;
      StartsWith(s, prefix) && OccursAt(s, x, |prefix|) && EndsWith(s, suffix)
  {
    var s := prefix + x + suffix;
    assert s[..|prefix|] == prefix;
    assert s[|prefix|..|prefix| + |x|] == x;
    assert s[|s| - |suffix|..] == suffix;
  }

  /** Each polite fallback opens with its template's words and carries the
      request text lower-cased. */
  lemma PoliteFallbackCarriesText(text: string)
    ensures var r, lower := FallbackOptions(Polite, text), ToLower(text);
      && StartsWith(r[0], "Please ") && EndsWith(r[0], lower)
      && StartsWith(r[1], "I would appreciate if you could ") && EndsWith(r[1], lower)
      && StartsWith(r[2], "Would you be so kind as to ") && OccursAt(r[2], lower, 27)
      && EndsWith(r[2], "? Thank you very much.")
  {
    var lower := ToLower(text);
    Framed("Please ", lower, "");
    Framed("I would appreciate if you could ", lower, "");
    Framed("Would you be so kind as to ", lower, "? Thank you very much.");
    assert "Please " + lower + "" == "Please " + lower;
    assert "I would appreciate if you could " + lower + "" == "I would appreciate if you could " + lower;
  }

  /** Each simplify fallback opens with its template's words and ends with
      the request text shortened. */
  lemma SimplifyFallbackCarriesText(text: string)
    ensures var r := FallbackOptions(Simplify, text);
      && StartsWith(r[0], "Simple version: ") && EndsWith(r[0], Abbreviate(text, 100))
      && StartsWith(r[1], "Easy to read: ") && EndsWith(r[1], FirstWords(text))
      && StartsWith(r[2], "Basic form: ") && EndsWith(r[2], Abbreviate(text, 80))
  {
    var long, words, short := Abbreviate(text, 100), FirstWords(text), Abbreviate(text, 80);
    Framed("Simple version: ", long, "");
    Framed("Easy to read: ", words, "");
    Framed("Basic form: ", short, "");
    assert "Simple version: " + long + "" == "Simple version: " + long;
    assert "Easy to read: " + words + "" == "Easy to read: " + words;
    assert "Basic form: " + short + "" == "Basic form: " + short;
  }

  /** The `filter` predicate: a truthy string that is not blank. */
  predicate Usable(v: Json) {
    v.JStr? && !IsBlank(v.s)
  }

  /** `options.filter(option => option && typeof option === 'string' &&
      option.trim() !== '')` */
  function KeepUsable(xs: seq<Json>): (r: seq<Json>)
    ensures |r| <= |xs|
    ensures forall i :: 0 <= i < |r| ==> Usable(r[i])
    ensures forall v :: v in r <==> v in xs && Usable(v)
  {
    if xs == [] then []
    else (if Usable(xs[0]) then [xs[0]] else []) + KeepUsable(xs[1..])
  }

  /** Filtering distributes over concatenation. */
  lemma {:induction false} KeepUsableAppend(a: seq<Json>, b: seq<Json>)
    ensures KeepUsable(a + b) == KeepUsable(a) + KeepUsable(b)
    decreases |a|
  {
    if a == [] {
      assert a + b == b;
    } else {
      assert (a + b)[1..] == a[1..] + b;
      KeepUsableAppend(a[1..], b);
    }
  }

  /** A list of usable entries passes the filter whole. */
  lemma {:induction false} KeepUsableOfUsable(xs: seq<Json>)
    requires forall i :: 0 <= i < |xs| ==> Usable(xs[i])
    ensures KeepUsable(xs) == xs
    decreases |xs|
  {
    if xs != [] {
      KeepUsableOfUsable(xs[1..]);
    }
  }

  /** The first padding loop: entries are pushed by position until there are
      three. */
  function Padded(route: Route, xs: seq<Json>, text: string): (r: seq<Json>)
    ensures |r| == if |xs| < 3 then 3 else |xs|
    ensures r[..|xs|] == xs
    ensures forall i :: |xs| <= i < |r| ==> r[i] == JStr(PadTemplate(route, i, text))
    decreases 3 - |xs|
  {
    if |xs| >= 3 then xs
    else
      var r := Padded(route, xs + [JStr(PadTemplate(route, |xs|, text))], text);
      assert r[..|xs| + 1][..|xs|] == r[..|xs|];
      r
  }

  /** `options.slice(0, 3)` when there are more than three. */
  function FirstThree(xs: seq<Json>): seq<Json> {
    if |xs| > 3 then xs[..3] else xs
  }

  /** The last padding loop: "… version k: …" entries until there are three. */
  function Refilled(route: Route, xs: seq<Json>, text: string): (r: seq<Json>)
    ensures |r| == if |xs| < 3 then 3 else |xs|
    ensures r[..|xs|] == xs
    ensures forall i :: |xs| <= i < |r| ==> r[i] == JStr(RefillTemplate(route, i + 1, text))
    decreases 3 - |xs|
  {
    if |xs| >= 3 then xs
    else
      var r := Refilled(route, xs + [JStr(RefillTemplate(route, |xs| + 1, text))], text);
      assert r[..|xs| + 1][..|xs|] == r[..|xs|];
      r
  }

  /** The whole repair: pad, cut to three, filter, pad again. */
  function Repaired(route: Route, xs: seq<Json>, text: string): seq<Json> {
    Refilled(route, KeepUsable(FirstThree(Padded(route, xs, text))), text)
  }

  /** The repair as the routes run it, on `aiResponse.options`. */
  method RepairOptions(route: Route, options: seq<Json>, text: string) returns (repaired: seq<Json>)
    ensures repaired == Repaired(route, options, text)
    ensures |repaired| == 3 && forall i :: 0 <= i < 3 ==> Usable(repaired[i])
    ensures KeepUsable(FirstThree(options)) <= repaired
  {
    repaired := options;
    while |repaired| < 3
      invariant Padded(route, repaired, text) == Padded(route, options, text)
      decreases 3 - |repaired|
    {
      repaired := repaired + [JStr(PadTemplate(route, |repaired|, text))];
    }
    if |repaired| > 3 {
      repaired := repaired[..3];
    }
    repaired := KeepUsable(repaired);
    ghost var kept := repaired;
    while |repaired| < 3
      invariant Refilled(route, repaired, text) == Refilled(route, kept, text)
      decreases 3 - |repaired|
    {
      repaired := repaired + [JStr(RefillTemplate(route, |repaired| + 1, text))];
    }
    RepairedAllUsable(route, options, text);
    RepairedKeepsUsablePrefix(route, options, text);
  }

  /** Every "… version k: …" entry is usable. */
  lemma RefillUsable(route: Route, k: nat, text: string)
    ensures Usable(JStr(RefillTemplate(route, k, text)))
  {
    var s := RefillTemplate(route, k, text);
    assert !IsSpace(s[0]);
  }

  /** The repaired list has exactly three entries, all non-blank strings. */
  lemma RepairedAllUsable(route: Route, xs: seq<Json>, text: string)
    ensures |Repaired(route, xs, text)| == 3
    ensures forall i :: 0 <= i < 3 ==> Usable(Repaired(route, xs, text)[i])
  {
    var kept := KeepUsable(FirstThree(Padded(route, xs, text)));
    var r := Refilled(route, kept, text);
    forall i | |kept| <= i < |r| ensures Usable(r[i]) {
      RefillUsable(route, i + 1, text);
    }
  }

  /** The repaired list starts with the usable entries among the first three
      it was given, in their order. */
  lemma RepairedKeepsUsablePrefix(route: Route, xs: seq<Json>, text: string)
    ensures KeepUsable(FirstThree(xs)) <= Repaired(route, xs, text)
  {
    var padded := Padded(route, xs, text);
    var kept := KeepUsable(FirstThree(padded));
    if |xs| < 3 {
      assert FirstThree(padded) == xs + padded[|xs|..];
      KeepUsableAppend(xs, padded[|xs|..]);
    } else {
      assert FirstThree(padded) == FirstThree(xs);
    }
    assert KeepUsable(FirstThree(xs)) <= kept;
    assert kept <= Refilled(route, kept, text);
  }

  /** When the first three entries given are non-blank strings, they are the
      result. */
  lemma RepairedKeepsGoodOptions(route: Route, xs: seq<Json>, text: string)
    requires |xs| >= 3 && forall i :: 0 <= i < 3 ==> Usable(xs[i])
    ensures Repaired(route, xs, text) == xs[..3]
  {
    var first := xs[..3];
    assert Padded(route, xs, text) == xs;
    assert FirstThree(xs) == first;
    KeepUsableOfUsable(first);
    assert Refilled(route, first, text) == first;
  }

  function AsJson(xs: seq<string>): (r: seq<Json>)
    ensures |r| == |xs| && forall i :: 0 <= i < |xs| ==> r[i] == JStr(xs[i])
  {
    seq(|xs|, i requires 0 <= i < |xs| => JStr(xs[i]))
  }

  /** The fallback templates come through the repair unchanged. */
  lemma FallbackSurvivesRepair(route: Route, text: string)
    ensures Repaired(route, AsJson(FallbackOptions(route, text)), text) == AsJson(FallbackOptions(route, text))
  {
    var xs := AsJson(FallbackOptions(route, text));
    forall i | 0 <= i < 3 ensures Usable(xs[i]) {
      assert !IsSpace(xs[i].s[0]);
    }
    RepairedKeepsGoodOptions(route, xs, text);
    assert xs[..3] == xs;
  }

  /** A parse is accepted when it has a non-empty `options` array. */
  predicate Accepted(parsed: Option<Json>) {
    && parsed.Some?
    && var options := Field(parsed.value, "options");
    && options.Some? && options.value.JArr? && |options.value.items| > 0
  }

  /** The options the route replies with, for a parse result. */
  function ReplyOptions(route: Route, parsed: Option<Json>, text: string): seq<Json> {
    var given := if Accepted(parsed) then Field(parsed.value, "options").value.items
                 else AsJson(FallbackOptions(route, text));
    Repaired(route, given, text)
  }

  /** The reply has exactly three non-blank string options; an accepted
      parse's usable entries among its first three lead them; a rejected
      parse gives the three fallback templates. */
  lemma ReplyOptionsShape(route: Route, parsed: Option<Json>, text: string)
    ensures |ReplyOptions(route, parsed, text)| == 3
    ensures forall i :: 0 <= i < 3 ==> Usable(ReplyOptions(route, parsed, text)[i])
    ensures Accepted(parsed) ==>
      KeepUsable(FirstThree(Field(parsed.value, "options").value.items)) <= ReplyOptions(route, parsed, text)
    ensures !Accepted(parsed) ==> ReplyOptions(route, parsed, text) == AsJson(FallbackOptions(route, text))
  {
    var given := if Accepted(parsed) then Field(parsed.value, "options").value.items
                 else AsJson(FallbackOptions(route, text));
    RepairedAllUsable(route, given, text);
    RepairedKeepsUsablePrefix(route, given, text);
    if !Accepted(parsed) {
      FallbackSurvivesRepair(route, text);
    }
  }

  /** The object the route wraps: the accepted parse with `options` replaced,
      or `{options}` built from the fallback. */
  function ReplyObject(route: Route, parsed: Option<Json>, text: string): (j: Json)
    ensures j.JObj? && "options" in j.fields
    ensures j.fields["options"] == JArr(ReplyOptions(route, parsed, text))
    ensures Accepted(parsed) ==> j.fields.Keys == parsed.value.fields.Keys
    ensures !Accepted(parsed) ==> j.fields.Keys == {"options"}
  {
    var base := if Accepted(parsed) then parsed.value.fields else map[];
    JObj(base["options" := JArr(ReplyOptions(route, parsed, text))])
  }

  /** The `POST` handler.  `request` is the parsed body (`None` when
      `request.json()` rejects), `apiKeySet` whether `GEMINI_API_KEY` is
      configured, `generate` the model gateway and `parse` `JSON.parse`. */
  method Post(route: Route, request: Option<Json>, apiKeySet: bool,
              generate: Prompt -> ModelReply, parse: string -> Option<Json>)
    returns (response: HttpResponse)
    ensures request.None? || request.value.JNull? ==>
      response == Respond(500, ErrorBody(FailureMessage(route)))
    ensures request.Some? && !request.value.JNull? ==>
      var primary := Field(request.value, "PRIMARY_TEXT");
      && (!IsNonBlankString(primary) ==> response == Respond(400, ErrorBody(MissingTextMessage)))
      && (IsNonBlankString(primary) && !apiKeySet ==> response == Respond(500, ErrorBody(NotConfiguredMessage)))
      && (IsNonBlankString(primary) && apiKeySet ==>
            var context := Field(request.value, "CONTEXT_TEXT");
            var prompt := Prompt(route, primary.value.s, if Truthy(context) then Some(Interpolate(context)) else None);
            match generate(prompt)
            case Failed(_) => response == Respond(500, ErrorBody(FailureMessage(route)))
            case Generated(raw) =>
              var reply := ReplyObject(route, parse(Cleaned(raw)), primary.value.s);
              response == Respond(200, JObj(map[RouteKey(route) := reply])))
  {
    if request.None? || request.value.JNull? {
      return Respond(500, ErrorBody(FailureMessage(route)));
    }
    var primary := Field(request.value, "PRIMARY_TEXT");
    var context := Field(request.value, "CONTEXT_TEXT");
    if !IsNonBlankString(primary) {
      return Respond(400, ErrorBody(MissingTextMessage));
    }
    if !apiKeySet {
      return Respond(500, ErrorBody(NotConfiguredMessage));
    }
    var text := primary.value.s;
    var prompt := Prompt(route, text, if Truthy(context) then Some(Interpolate(context)) else None);
    var reply := generate(prompt);
    if reply.Failed? {
      return Respond(500, ErrorBody(FailureMessage(route)));
    }
    var cleaned := CleanModelText(reply.text);
    var parsed := parse(cleaned);
    var base: map<string, Json>;
    var options: seq<Json>;
    if Accepted(parsed) {
      base := parsed.value.fields;
      options := Field(parsed.value, "options").value.items;
    } else {
      base := map[];
      options := AsJson(FallbackOptions(route, text));
    }
    options := RepairOptions(route, options, text);
    var aiResponse := JObj(base["options" := JArr(options)]);
    response := Respond(200, JObj(map[RouteKey(route) := aiResponse]));
  }
}
