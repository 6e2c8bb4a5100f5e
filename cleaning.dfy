/** How the strict-JSON routes cut a JSON candidate out of the model's text:
    the fence-stripping and brace-span pipeline of make-polite, simplify and
    fix-grammar, the anchored fence rule of reply-generate, and the
    `indexOf('{')`/`lastIndexOf('}')` slice of evaluate, grammar-check and
    generate-question. */
module Cleaning {
  import opened Wrappers
  import opened JsString

  /** `s.replace(/```json\n?/g, '')`: every "```json", with the newline that
      follows it when there is one, is deleted; the scan resumes after each
      deletion. */
  function StripOpeningFences(s: string): (r: string)
    ensures |r| <= |s|
    decreases |s|
  {
    if |s| >= 7 && s[..7] == "```json" then
      var rest := if |s| >= 8 && s[7] == '\n' then s[8..] else s[7..];
      StripOpeningFences(rest)
    else if s == [] then []
    else
      [s[0]] + StripOpeningFences(s[1..])
  }

  /** `s.replace(/\n?```/g, '')`: every "```", with the newline before it when
      there is one, is deleted. */
  function StripClosingFences(s: string): (r: string)
    ensures |r| <= |s|
    decreases |s|
  {
    if |s| >= 4 && s[0] == '\n' && s[1..4] == "```" then
      StripClosingFences(s[4..])
    else if |s| >= 3 && s[..3] == "```" then
      StripClosingFences(s[3..])
    else if s == [] then []
    else
      [s[0]] + StripClosingFences(s[1..])
  }

  /** A global regular-expression replacement read as a scan: the text is cut
      into characters kept and matches deleted. */
  datatype Piece = Kept(c: char) | Cut(fence: string)

  /** The text a scan was made of. */
  function Flatten(ps: seq<Piece>): string {
    if ps == [] then []
    else (match ps[0] case Kept(c) => [c] case Cut(f) => f) + Flatten(ps[1..])
  }

  /** What a replacement by `''` leaves: the kept characters. */
  function KeptText(ps: seq<Piece>): string {
    if ps == [] then []
    else (match ps[0] case Kept(c) => [c] case Cut(_) => []) + KeptText(ps[1..])
  }

  /** One step of the scan of `/```json\n?/g`, with `after` the text behind
      the piece: a match is taken wherever one starts, and takes the newline
      when one follows. */
  predicate OpeningStep(p: Piece, after: string) {
    match p
    case Kept(c) => !StartsWith([c] + after, "```json")
    case Cut(f) => f == "```json\n" || (f == "```json" && !StartsWith(after, "\n"))
  }

  /** One step of the scan of `/\n?```/g`: at a newline followed by three
      backticks the match takes the newline too. */
  predicate ClosingStep(p: Piece, after: string) {
    match p
    case Kept(c) => !StartsWith([c] + after, "```") && !StartsWith([c] + after, "\n```")
    case Cut(f) => f == "\n```" || f == "```"
  }

  predicate OpeningScan(ps: seq<Piece>) {
    ps == [] || (OpeningStep(ps[0], Flatten(ps[1..])) && OpeningScan(ps[1..]))
  }

  predicate ClosingScan(ps: seq<Piece>) {
    ps == [] || (ClosingStep(ps[0], Flatten(ps[1..])) && ClosingScan(ps[1..]))
  }

  /** A first character that is not a backtick is kept by the opening-fence
      deletion. */
  lemma StripOpeningStep(s: string)
    requires s != [] && s[0] != '`'
    ensures StripOpeningFences(s) == [s[0]] + StripOpeningFences(s[1..])
  {
    if |s| >= 7 {
      assert s[..7][0] == s[0];
    }
  }

  /** Text without a backtick in front is passed through by the opening-fence
      deletion. */
  lemma {:induction false} StripOpeningKeepsPlain(x: string, y: string)
    requires '`' !in x
    ensures StripOpeningFences(x + y) == x + StripOpeningFences(y)
    decreases |x|
  {
    if x == [] {
      assert x + y == y;
    } else {
      var s := x + y;
      StripOpeningStep(s);
      assert s[1..] == x[1..] + y;
      StripOpeningKeepsPlain(x[1..], y);
      var tail := StripOpeningFences(y);
      assert StripOpeningFences(s) == [x[0]] + (x[1..] + tail);
      ConsAppend(x, tail);
    }
  }

  /** A first character that starts neither "```" nor "\n```" is kept by the
      closing-fence deletion. */
  lemma StripClosingStep(s: string)
    requires s != [] && s[0] != '`'
    requires s[0] == '\n' ==> |s| < 2 || s[1] != '`'
    ensures StripClosingFences(s) == [s[0]] + StripClosingFences(s[1..])
  {
    if |s| >= 4 && s[0] == '\n' {
      assert s[1..4][0] == s[1];
    }
    if |s| >= 3 {
      assert s[..3][0] == s[0];
    }
  }

  /** Text without a backtick, and not ending in a newline, is passed through
      by the closing-fence deletion. */
  lemma {:induction false} StripClosingKeepsPlain(x: string, y: string)
    requires '`' !in x
    requires x == [] || x[|x| - 1] != '\n'
    ensures StripClosingFences(x + y) == x + StripClosingFences(y)
    decreases |x|
  {
    if x == [] {
      assert x + y == y;
    } else {
      var s := x + y;
      if x[0] == '\n' {
        assert |x| >= 2 && s[1] == x[1];
      }
      StripClosingStep(s);
      assert s[1..] == x[1..] + y;
      StripClosingKeepsPlain(x[1..], y);
      var tail := StripClosingFences(y);
      assert StripClosingFences(s) == [x[0]] + (x[1..] + tail);
      ConsAppend(x, tail);
    }
  }

  /** The opening-fence deletion leaves exactly the kept characters of the
      leftmost scan of its input. */
  lemma {:induction false} OpeningScanResult(ps: seq<Piece>)
    requires OpeningScan(ps)
    ensures StripOpeningFences(Flatten(ps)) == KeptText(ps)
  {
    if ps != [] {
      var s, rest := Flatten(ps), Flatten(ps[1..]);
      OpeningScanResult(ps[1..]);
      match ps[0]
      case Kept(c) =>
        assert s == [c] + rest;
        if |s| >= 7 {
          assert s[..7] != "```json";
        }
        assert s[1..] == rest;
      case Cut(f) =>
        assert s == f + rest;
        assert s[..7] == "```json";
        if f == "```json" {
          assert s[7..] == rest;
          if |s| >= 8 {
            assert s[7] == rest[0] && rest[..1] != "\n";
          }
        } else {
          assert s[7] == '\n' && s[8..] == rest;
        }
    }
  }

  /** The closing-fence deletion leaves exactly the kept characters of the
      leftmost scan of its input. */
  lemma {:induction false} ClosingScanResult(ps: seq<Piece>)
    requires ClosingScan(ps)
    ensures StripClosingFences(Flatten(ps)) == KeptText(ps)
  {
    if ps != [] {
      var s, rest := Flatten(ps), Flatten(ps[1..]);
      ClosingScanResult(ps[1..]);
      match ps[0]
      case Kept(c) =>
        assert s == [c] + rest;
        if |s| >= 4 && s[0] == '\n' {
          assert s[..4] != "\n```";
          assert s[1..4] != "```";
        }
        if |s| >= 3 {
          assert s[..3] != "```";
        }
        assert s[1..] == rest;
      case Cut(f) =>
        assert s == f + rest;
        if f == "\n```" {
          assert s[0] == '\n' && s[1..4] == "```" && s[4..] == rest;
        } else {
          assert s[..3] == "```" && s[3..] == rest;
          assert s[0] == '`';
        }
    }
  }

  /** A first piece that covers `s[..n]`, put before a scan of `s[n..]`,
      makes a scan of `s`. */
  lemma FlattenCons(p: Piece, qs: seq<Piece>, s: string, n: nat)
    requires n <= |s| && (match p case Kept(c) => [c] case Cut(f) => f) == s[..n]
    requires Flatten(qs) == s[n..]
    ensures ([p] + qs)[1..] == qs && Flatten([p] + qs) == s
  {
    assert ([p] + qs)[1..] == qs;
    assert s[..n] + s[n..] == s;
  }

  /** The step at a text that does not start with "```json". */
  lemma OpeningKeptStep(s: string, qs: seq<Piece>)
    requires s != [] && !(|s| >= 7 && s[..7] == "```json")
    requires OpeningScan(qs) && Flatten(qs) == s[1..]
    ensures OpeningScan([Kept(s[0])] + qs) && Flatten([Kept(s[0])] + qs) == s
  {
    FlattenCons(Kept(s[0]), qs, s, 1);
  }

  /** The step at a "```json" match, which takes the newline after it. */
  lemma OpeningCutStep(s: string, qs: seq<Piece>)
    requires |s| >= 7 && s[..7] == "```json"
    requires var n := if |s| >= 8 && s[7] == '\n' then 8 else 7;
      OpeningScan(qs) && Flatten(qs) == s[n..]
    ensures var n := if |s| >= 8 && s[7] == '\n' then 8 else 7;
      OpeningScan([Cut(s[..n])] + qs) && Flatten([Cut(s[..n])] + qs) == s
  {
    var n := if |s| >= 8 && s[7] == '\n' then 8 else 7;
    FlattenCons(Cut(s[..n]), qs, s, n);
    if n == 8 {
      assert s[..8] == s[..7] + [s[7]];
    } else if |s| >= 8 {
      assert s[7..][..1] == [s[7]];
    }
  }

  /** Every text has a leftmost scan for the opening fence. */
  lemma {:induction false} OpeningScanExists(s: string)
    ensures exists ps :: OpeningScan(ps) && Flatten(ps) == s
    decreases |s|
  {
    if s == [] {
      assert OpeningScan([]) && Flatten([]) == s;
    } else if |s| >= 7 && s[..7] == "```json" {
      var n := if |s| >= 8 && s[7] == '\n' then 8 else 7;
      OpeningScanExists(s[n..]);
      var qs :| OpeningScan(qs) && Flatten(qs) == s[n..];
      OpeningCutStep(s, qs);
      assert OpeningScan([Cut(s[..n])] + qs) && Flatten([Cut(s[..n])] + qs) == s;
    } else {
      OpeningScanExists(s[1..]);
      var qs :| OpeningScan(qs) && Flatten(qs) == s[1..];
      OpeningKeptStep(s, qs);
    }
  }

  /** The step at a text that starts with neither "```" nor "\n```". */
  lemma ClosingKeptStep(s: string, qs: seq<Piece>)
    requires s != [] && !(|s| >= 4 && s[0] == '\n' && s[1..4] == "```") && !(|s| >= 3 && s[..3] == "```")
    requires ClosingScan(qs) && Flatten(qs) == s[1..]
    ensures ClosingScan([Kept(s[0])] + qs) && Flatten([Kept(s[0])] + qs) == s
  {
    FlattenCons(Kept(s[0]), qs, s, 1);
    if |s| >= 4 && s[0] == '\n' {
      assert s[..4][1..] == s[1..4];
    }
  }

  /** The step at a closing-fence match, with the newline before it when
      there is one. */
  lemma ClosingCutStep(s: string, n: nat, qs: seq<Piece>)
    requires (n == 4 && |s| >= 4 && s[0] == '\n' && s[1..4] == "```") || (n == 3 && |s| >= 3 && s[..3] == "```")
    requires ClosingScan(qs) && Flatten(qs) == s[n..]
    ensures ClosingScan([Cut(s[..n])] + qs) && Flatten([Cut(s[..n])] + qs) == s
  {
    FlattenCons(Cut(s[..n]), qs, s, n);
    if n == 4 {
      assert s[..4] == [s[0]] + s[1..4];
    }
  }

  /** Every text has a leftmost scan for the closing fence. */
  lemma {:induction false} ClosingScanExists(s: string)
    ensures exists ps :: ClosingScan(ps) && Flatten(ps) == s
    decreases |s|
  {
    if s == [] {
      assert ClosingScan([]) && Flatten([]) == s;
    } else if (|s| >= 4 && s[0] == '\n' && s[1..4] == "```") || (|s| >= 3 && s[..3] == "```") {
      var n := if |s| >= 4 && s[0] == '\n' && s[1..4] == "```" then 4 else 3;
      ClosingScanExists(s[n..]);
      var qs :| ClosingScan(qs) && Flatten(qs) == s[n..];
      ClosingCutStep(s, n, qs);
    } else {
      ClosingScanExists(s[1..]);
      var qs :| ClosingScan(qs) && Flatten(qs) == s[1..];
      ClosingKeptStep(s, qs);
    }
  }

  /** `span` occurs in `s` at `a`, no `{` comes before it and no `}` after it. */
  predicate GreedySpanAt(s: string, a: int, span: string) {
    && 0 <= a && a + |span| <= |s| && s[a..a + |span|] == span
    && (forall k :: 0 <= k < a ==> s[k] != '{')
    && (forall k :: a + |span| <= k < |s| ==> s[k] != '}')
  }

  /** `s.match(/\{[\s\S]*\}/)`: the greedy span from the first `{` to the last
      `}` after it, when there is one. */
  function BraceSpan(s: string): (r: Option<string>)
    ensures r.Some? <==> exists i, j :: 0 <= i < j < |s| && s[i] == '{' && s[j] == '}'
    ensures r.Some? ==> exists a :: GreedySpanAt(s, a, r.value)
    ensures r.Some? ==> |r.value| >= 2 && r.value[0] == '{' && r.value[|r.value| - 1] == '}'
  {
    var a := IndexOf(s, '{');
    var b := LastIndexOf(s, '}');
    if 0 <= a < b then
      assert s[a] == '{' && s[b] == '}';
      assert GreedySpanAt(s, a, s[a..b + 1]);
      Some(s[a..b + 1])
    else
      None
  }

  /** The cleaning sequence of make-polite, simplify and fix-grammar, as one
      expression. */
  function Cleaned(text: string): string {
    var t := Trim(StripClosingFences(StripOpeningFences(Trim(text))));
    match BraceSpan(t)
    case Some(span) => span
    case None => t
  }

  /** The cleaning sequence as the routes run it: `cleanedText` is trimmed,
      stripped of opening and closing fences, trimmed again and narrowed to
      its brace span. */
  method CleanModelText(text: string) returns (cleaned: string)
    ensures cleaned == Cleaned(text)
  {
    cleaned := Trim(text);
    cleaned := StripOpeningFences(cleaned);
    cleaned := StripClosingFences(cleaned);
    cleaned := Trim(cleaned);
    var jsonMatch := BraceSpan(cleaned);
    if jsonMatch.Some? {
      cleaned := jsonMatch.value;
    }
  }

  /** A bare object literal: trimmed, from `{` to `}`, without backticks. */
  predicate PlainObjectText(body: string) {
    && |body| >= 2 && body[0] == '{' && body[|body| - 1] == '}'
    && '`' !in body
  }

  /** A bare object literal's brace span is the whole text. */
  lemma WholeBraceSpan(body: string)
    requires PlainObjectText(body)
    ensures BraceSpan(body) == Some(body)
  {
    var b := LastIndexOf(body, '}');
    assert b == |body| - 1;
    assert body[0..b + 1] == body;
  }

  /** Cleaning leaves a bare object literal as it is. */
  lemma CleanedPlainObject(body: string)
    requires PlainObjectText(body)
    ensures Cleaned(body) == body
  {
    TrimOfTrimmed(body);
    StripOpeningKeepsPlain(body, []);
    StripClosingKeepsPlain(body, []);
    assert body + [] == body;
    WholeBraceSpan(body);
  }

  /** The two deletions on a bare closing fence. */
  lemma ClosingFenceTail()
    ensures StripOpeningFences("\n```") == "\n```"
    ensures StripClosingFences("\n```") == []
  {
    var s := "\n```";
    assert s[1..] == "```" && s[2..] == "``" && s[3..] == "`" && s[4..] == [];
    assert StripOpeningFences("`") == "`";
    assert StripOpeningFences("``") == "``";
    assert StripOpeningFences("```") == "```";
    assert s[0] == '\n' && s[1..4] == "```";
  }

  /** Dropping a prefix leaves what followed it. */
  lemma AfterPrefix(prefix: string, rest: string)
    ensures (prefix + rest)[|prefix|..] == rest
  {
  }

  /** The two deletions strip a ```json fence from around a text without
      backticks that does not end in a newline. */
  lemma UnfenceText(body: string)
    requires '`' !in body && body != [] && body[|body| - 1] != '\n'
    ensures StripClosingFences(StripOpeningFences("```json\n" + body + "\n```")) == body
  {
    var fenced := "```json\n" + body + "\n```";
    assert fenced[..7] == "```json" && fenced[7] == '\n';
    assert fenced == "```json\n" + (body + "\n```");
    AfterPrefix("```json\n", body + "\n```");
    StripOpeningKeepsPlain(body, "\n```");
    ClosingFenceTail();
    StripClosingKeepsPlain(body, "\n```");
    assert body + [] == body;
  }

  /** Cleaning undoes a ```json fence around an object literal. */
  lemma CleanedFencedObject(body: string)
    requires PlainObjectText(body)
    ensures Cleaned("```json\n" + body + "\n```") == body
  {
    var fenced := "```json\n" + body + "\n```";
    assert fenced[0] == '`' && fenced[|fenced| - 1] == '`';
    TrimOfTrimmed(fenced);
    UnfenceText(body);
    TrimOfTrimmed(body);
    WholeBraceSpan(body);
  }

  /** `s.replace(/^<fence>\s*\/, '')` for a text that starts with the fence. */
  function DropLeadingFence(s: string, fence: string): (r: string)
    requires StartsWith(s, fence)
    ensures |r| <= |s| - |fence| && r == s[|s| - |r|..]
    ensures IsBlank(s[|fence|..|s| - |r|])
    ensures r == [] || !IsSpace(r[0])
  {
    s[SpaceRunEnd(s, |fence|)..]
  }

  /** `s.replace(/\s*```$/, '')`: a closing fence at the very end, with the
      whitespace before it, is removed; anything else is left alone. */
  function DropTrailingFence(s: string): (r: string)
    ensures |r| <= |s|
    ensures r == s <==> !EndsWith(s, "```")
    ensures EndsWith(s, "```") ==> r == s[..|r|] && (r == [] || !IsSpace(r[|r| - 1]))
    ensures EndsWith(s, "```") ==> |r| <= |s| - 3 && IsBlank(s[|r|..|s| - 3])
  {
    if EndsWith(s, "```") then s[..SpaceRunStart(s, |s| - 3)] else s
  }

  /** The fence rule of reply-generate as one expression. */
  function ReplyText(text: string): string {
    var t := Trim(text);
    if StartsWith(t, "```json") then DropTrailingFence(DropLeadingFence(t, "```json"))
    else if StartsWith(t, "```") then DropTrailingFence(DropLeadingFence(t, "```"))
    else t
  }

  /** The fence rule of reply-generate: the text is trimmed, and a leading
      "```json" (else a leading "```") with the whitespace after it is
      removed together with a trailing "```" and the whitespace before it. */
  method StripReplyFences(raw: string) returns (text: string)
    ensures text == ReplyText(raw)
  {
    text := Trim(raw);
    if StartsWith(text, "```json") {
      text := DropLeadingFence(text, "```json");
      text := DropTrailingFence(text);
    } else if StartsWith(text, "```") {
      text := DropLeadingFence(text, "```");
      text := DropTrailingFence(text);
    }
  }

  /** Text that does not start with a backtick is only trimmed. */
  lemma ReplyTextUnfenced(text: string)
    requires Trim(text) == [] || Trim(text)[0] != '`'
    ensures ReplyText(text) == Trim(text)
  {
    var t := Trim(text);
    assert !StartsWith(t, "```") by {
      if |t| >= 3 {
        assert t[..3][0] == t[0];
      }
    }
    assert !StartsWith(t, "```json") by {
      if |t| >= 7 {
        assert t[..7][0] == t[0];
      }
    }
  }

  /** The fence rule undoes a ```json fence around a trimmed body. */
  lemma ReplyTextFenced(body: string)
    requires body != [] && !IsSpace(body[0]) && !IsSpace(body[|body| - 1])
    ensures ReplyText("```json\n" + body + "\n```") == body
  {
    var fenced := "```json\n" + body + "\n```";
    assert fenced[0] == '`' && fenced[|fenced| - 1] == '`';
    TrimOfTrimmed(fenced);
    assert StartsWith(fenced, "```json") by {
      assert fenced[..7] == "```json";
    }
    assert SpaceRunEnd(fenced, 7) == 8 by {
      assert IsSpace(fenced[7]) && fenced[8] == body[0];
    }
    var inner := DropLeadingFence(fenced, "```json");
    assert inner == body + "\n```";
    assert EndsWith(inner, "```") by {
      assert inner[|inner| - 3..] == "```";
    }
    assert SpaceRunStart(inner, |inner| - 3) == |body| by {
      assert inner[|body|] == '\n' && inner[|body| - 1] == body[|body| - 1];
    }
    assert inner[..|body|] == body;
  }

  /** `text.slice(text.indexOf('{'), text.lastIndexOf('}') + 1)` */
  function SliceCandidate(text: string): (r: string)
    ensures '}' !in text ==> r == []
  {
    Slice(text, IndexOf(text, '{'), LastIndexOf(text, '}') + 1)
  }

  /** When a brace pair exists the slice is exactly the brace span. */
  lemma SliceCandidateIsBraceSpan(text: string)
    requires BraceSpan(text).Some?
    ensures SliceCandidate(text) == BraceSpan(text).value
  {
  }

  /** When the text has a `}` but no `{`, the slice starts at the last
      character (`slice(-1, …)`): it is `}` when the text ends with its only
      closing brace run, and empty otherwise. */
  lemma SliceCandidateWithoutOpening(text: string)
    requires '{' !in text && '}' in text
    ensures SliceCandidate(text) == (if text[|text| - 1] == '}' then "}" else "")
  {
    var b := LastIndexOf(text, '}');
    if text[|text| - 1] == '}' {
      assert b == |text| - 1;
      assert text[|text| - 1..|text|] == "}";
    }
  }

  /** An object surrounded by brace-free chatter is sliced out exactly. */
  lemma SliceCandidateOfWrapped(pre: string, body: string, post: string)
    requires '{' !in pre && '}' !in post
    requires |body| >= 2 && body[0] == '{' && body[|body| - 1] == '}'
    ensures SliceCandidate(pre + body + post) == body
  {
    var text := pre + body + post;
    var a := IndexOf(text, '{');
    assert text[|pre|] == '{';
    assert a == |pre|;
    var b := LastIndexOf(text, '}');
    var e := |pre| + |body| - 1;
    assert text[e] == '}';
    assert b == e;
    assert text[a..b + 1] == body;
  }
}
