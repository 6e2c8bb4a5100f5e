/** Field extraction for one section of the model's reply: `parseOptionSection`
    (src/app/api/process/route.js).  Each regular expression the source
    applies is written as a scanner with the same leftmost, lazy and greedy
    choices; the `s` flag lets `.` match a newline and, without the `m` flag,
    `$` is the end of the text. */
module Extractor {
  import opened Wrappers
  import opened JsString

  /** Where an option record came from (its `type`): `parseOptionSection`
      yields `Standard`; `Fallback` is the whole-reply record of the
      exception path of `processAIResponse`. */
  datatype OptionKind = Standard | Fallback

  /** One option of the structured response.  A field the source leaves out of
      a record is the empty string here. */
  datatype OptionRecord = OptionRecord(
    id: string,
    title: string,
    content: string,
    note: string,
    explanation: string,
    kind: OptionKind)

  /** `option_${n}` */
  function OptionId(n: nat): string {
    "option_" + NatToString(n)
  }

  /** Different positions get different ids. */
  lemma OptionIdInjective(m: nat, n: nat)
    requires OptionId(m) == OptionId(n)
    ensures m == n
  {
    assert NatToString(m) == OptionId(m)[7..];
    assert NatToString(n) == OptionId(n)[7..];
    DecimalInjective(m, n);
  }

  lemma OptionIdsDiffer(m: nat, n: nat)
    requires m != n
    ensures OptionId(m) != OptionId(n)
  {
    if OptionId(m) == OptionId(n) {
      OptionIdInjective(m, n);
    }
  }

  predicate HasAt(s: string, i: nat, marker: string) {
    i + |marker| <= |s| && s[i..i + |marker|] == marker
  }

  /** `(?:\*\*|$)` holds at `k`. */
  predicate ClosesAt(s: string, k: nat)
    requires k <= |s|
  {
    k == |s| || (k + 1 < |s| && s[k] == '*' && s[k + 1] == '*')
  }

  /** The capture of `\s*([^*]+?)(?:\*\*|$)` matched from `a`.  The greedy
      `\s*` stops at `w`; the lazy group can only end at the first `*` (or the
      end), and when it has no character left it takes back one space. */
  function StarFreeValue(s: string, a: nat): (r: Option<string>)
    requires a <= |s|
    ensures r.Some? ==> '*' !in r.value
  {
    var w := SpaceRunEnd(s, a);
    var k := IndexOfFrom(s, '*', w);
    if !ClosesAt(s, k) then None
    else if w < k then Some(s[w..k])
    else if a < w then Some(s[w - 1..k])
    else None
  }

  /** `\*\*(?:L1|L2|…):\*\*\s*([^*]+?)(?:\*\*|$)` tried at `i`, the full
      markers `**L:**` in the alternation's order. */
  function LabeledAt(s: string, i: nat, markers: seq<string>): (r: Option<string>)
    requires i <= |s|
    ensures r.Some? ==> exists m :: m in markers && HasAt(s, i, m)
    ensures r.Some? ==> '*' !in r.value
    decreases |markers|
  {
    if markers == [] then None
    else if HasAt(s, i, markers[0]) && StarFreeValue(s, i + |markers[0]|).Some? then
      StarFreeValue(s, i + |markers[0]|)
    else LabeledAt(s, i, markers[1..])
  }

  /** `\*\*([^:]+?):\*\*\s*([^*]+?)(?:\*\*|$)` tried at `i`; the last capture.
      The lazy label cannot pass a colon, so it ends at the first one. */
  function AnyLabelAt(s: string, i: nat): (r: Option<string>)
    requires i <= |s|
    ensures r.Some? ==> '*' !in r.value
  {
    if HasAt(s, i, "**") then
      var c := IndexOfFrom(s, ':', i + 2);
      if i + 2 < c && c + 3 <= |s| && s[c + 1] == '*' && s[c + 2] == '*' then
        StarFreeValue(s, c + 3)
      else None
    else None
  }

  /** The first `e >= j` where `**` starts, or the end of the text. */
  function CloseFrom(s: string, j: nat): (r: nat)
    requires j <= |s|
    ensures j <= r <= |s| && ClosesAt(s, r)
    ensures forall e :: j <= e < r ==> !ClosesAt(s, e)
    decreases |s| - j
  {
    if ClosesAt(s, j) then j else CloseFrom(s, j + 1)
  }

  /** `\*\*[^*]+?\*\*\s*(.+?)(?:\*\*|$)` tried at `i`. */
  function AfterBoldAt(s: string, i: nat): (r: Option<string>)
    requires i <= |s|
  {
    if HasAt(s, i, "**") then
      var k := IndexOfFrom(s, '*', i + 2);
      if i + 2 < k && k + 2 <= |s| && s[k + 1] == '*' then
        var w := SpaceRunEnd(s, k + 2);
        if w < |s| then Some(s[w..CloseFrom(s, w + 1)])
        else if k + 2 < w then Some(s[w - 1..])
        else None
      else None
    else None
  }

  /** The regular expressions of `parseOptionSection` that are searched for
      anywhere in the section. */
  datatype Pattern = Labeled(markers: seq<string>) | AnyLabel | AfterBold

  /** Every pattern begins with `**`. */
  predicate Wellformed(pat: Pattern) {
    pat.Labeled? ==> forall k :: 0 <= k < |pat.markers| ==> StartsWith(pat.markers[k], "**")
  }

  function MatchAt(s: string, i: nat, pat: Pattern): Option<string>
    requires i <= |s|
  {
    match pat
    case Labeled(markers) => LabeledAt(s, i, markers)
    case AnyLabel => AnyLabelAt(s, i)
    case AfterBold => AfterBoldAt(s, i)
  }

  /** A pattern that begins with `**` matches only where the text has `**`. */
  lemma MatchNeedsStars(s: string, i: nat, pat: Pattern)
    requires i <= |s|
    requires Wellformed(pat)
    ensures MatchAt(s, i, pat).Some? ==> i + 2 <= |s| && s[i] == '*' && s[i + 1] == '*'
  {
    if pat.Labeled? && MatchAt(s, i, pat).Some? {
      var m :| m in pat.markers && HasAt(s, i, m);
      var k :| 0 <= k < |pat.markers| && pat.markers[k] == m;
      assert StartsWith(m, "**");
      assert m[0] == m[..2][0] == '*' && m[1] == m[..2][1] == '*';
      assert s[i] == s[i..i + |m|][0] && s[i + 1] == s[i..i + |m|][1];
    } else if MatchAt(s, i, pat).Some? {
      assert HasAt(s, i, "**");
      assert s[i..i + 2][0] == '*' && s[i..i + 2][1] == '*';
    }
  }

  /** `section.match(pattern)` from position `i` on: the capture of the
      leftmost match, or `None` for `null`. */
  function FirstMatch(s: string, pat: Pattern, i: nat): Option<string>
    requires i <= |s|
    decreases |s| - i
  {
    var here := MatchAt(s, i, pat);
    if here.Some? || i == |s| then here else FirstMatch(s, pat, i + 1)
  }

  const ReplyMarkers: seq<string> := ["**Reply:**"]
  const NoteMarkers: seq<string> := ["**Note:**"]
  const ExplanationMarkers: seq<string> := ["**Changes:**", "**Explanation:**", "**Summary:**"]

  /** The capture of `^([^*]+?)\*\*`: the text before the first `*`, when
      it is not empty and that `*` is doubled. */
  function TitleMatch(section: string): (r: Option<string>)
    ensures r.Some? ==> r.value != [] && '*' !in r.value
  {
    var k := IndexOfFrom(section, '*', 0);
    if 0 < k && k + 1 < |section| && section[k + 1] == '*' then Some(section[..k]) else None
  }

  /** The `**` at `k` closes the title: it is the first `*` of the section,
      and something comes before it. */
  predicate TitleCloseAt(section: string, k: nat) {
    0 < k && k + 1 < |section| && section[k] == '*' && section[k + 1] == '*' && '*' !in section[..k]
  }

  /** The title expression matches exactly when the first `*` is doubled and
      not at the start, and its capture is everything before that `*`. */
  lemma TitleMatchIsFirstStars(section: string)
    ensures TitleMatch(section).Some? <==> exists k: nat :: TitleCloseAt(section, k)
    ensures forall k: nat :: TitleCloseAt(section, k) ==> TitleMatch(section) == Some(section[..k])
  {
    var first := IndexOfFrom(section, '*', 0);
    forall k | TitleCloseAt(section, k) ensures k == first {
    }
    if TitleMatch(section).Some? {
      forall j | 0 <= j < first ensures section[..first][j] != '*' {
      }
      assert TitleCloseAt(section, first);
    }
  }

  /** `t.replace(/:\s*$/, '')` scanning from `i`: the first colon followed by
      nothing but whitespace is cut off with that whitespace. */
  function StripColonTailFrom(t: string, i: nat): (r: string)
    requires i <= |t|
    ensures |r| <= |t| && r == t[..|r|]
    decreases |t| - i
  {
    if i == |t| then t
    else if t[i] == ':' && IsBlank(t[i + 1..]) then t[..i]
    else StripColonTailFrom(t, i + 1)
  }

  function StripColonTail(t: string): string {
    StripColonTailFrom(t, 0)
  }

  /** On text without trailing whitespace the replacement removes one final
      colon and nothing else. */
  lemma {:induction false} StripColonTailOfTrimmed(t: string, i: nat)
    requires i <= |t|
    requires t == [] || !IsSpace(t[|t| - 1])
    requires forall j :: 0 <= j < i ==> !(t[j] == ':' && IsBlank(t[j + 1..]))
    ensures StripColonTailFrom(t, i) == if t != [] && t[|t| - 1] == ':' then t[..|t| - 1] else t
    decreases |t| - i
  {
    if i < |t| {
      if i < |t| - 1 {
        assert t[i + 1..][|t| - i - 2] == t[|t| - 1];
      }
      if !(t[i] == ':' && IsBlank(t[i + 1..])) {
        StripColonTailOfTrimmed(t, i + 1);
      }
    }
  }

  /** The title field: the trimmed star-free prefix with a trailing colon
      (and the whitespace after it) removed; empty when there is no match. */
  function Title(section: string): (r: string)
    ensures '*' !in r
    ensures TitleMatch(section).None? ==> r == ""
  {
    match TitleMatch(section)
    case Some(t) =>
      TrimExcludes(t, '*');
      StripColonTail(Trim(t))
    case None => ""
  }

  /** Text with no whitespace at either end (what `trim` returns). */
  predicate Trimmed(t: string) {
    t == [] || (!IsSpace(t[0]) && !IsSpace(t[|t| - 1]))
  }

  /** The content field: the `**Reply:**` value, else the last capture of the
      first `**Label:**value`, else the text after the first `**…**` pair. */
  function Content(section: string): (r: string)
    ensures Trimmed(r)
  {
    var reply := FirstMatch(section, Labeled(ReplyMarkers), 0);
    var labeled := FirstMatch(section, AnyLabel, 0);
    var bold := FirstMatch(section, AfterBold, 0);
    if reply.Some? then Trim(reply.value)
    else if labeled.Some? then Trim(labeled.value)
    else if bold.Some? then Trim(bold.value)
    else ""
  }

  /** With a match, the title is the trimmed capture less one final colon. */
  lemma TitleValue(section: string)
    requires TitleMatch(section).Some?
    ensures var t := Trim(TitleMatch(section).value);
      Title(section) == if t != [] && t[|t| - 1] == ':' then t[..|t| - 1] else t
  {
    var t := Trim(TitleMatch(section).value);
    StripColonTailOfTrimmed(t, 0);
  }

  /** The trimmed capture of a labelled field, or `''` when it is absent. */
  function LabeledField(section: string, markers: seq<string>): (r: string)
    ensures '*' !in r
    ensures Trimmed(r)
  {
    match FirstMatch(section, Labeled(markers), 0)
    case Some(v) =>
      FirstLabeledIsStarFree(section, markers, 0);
      TrimExcludes(v, '*');
      Trim(v)
    case None => ""
  }

  lemma {:induction false} FirstLabeledIsStarFree(s: string, markers: seq<string>, i: nat)
    requires i <= |s|
    ensures FirstMatch(s, Labeled(markers), i).Some? ==> '*' !in FirstMatch(s, Labeled(markers), i).value
    decreases |s| - i
  {
    if MatchAt(s, i, Labeled(markers)).None? && i < |s| {
      FirstLabeledIsStarFree(s, markers, i + 1);
    }
  }

  function Note(section: string): string {
    LabeledField(section, NoteMarkers)
  }

  function Explanation(section: string): string {
    LabeledField(section, ExplanationMarkers)
  }

  /** The record `parseOptionSection(section, index)` returns: the position's
      id, a title, note and explanation free of `*`, and trimmed text fields. */
  function OptionOf(section: string, index: nat): (r: OptionRecord)
    ensures r.id == OptionId(index + 1) && r.kind == Standard
    ensures '*' !in r.title && '*' !in r.note && '*' !in r.explanation
    ensures Trimmed(r.content) && Trimmed(r.note) && Trimmed(r.explanation)
  {
    OptionRecord(OptionId(index + 1), Title(section), Content(section),
                 Note(section), Explanation(section), Standard)
  }

  /** `parseOptionSection`: starts from blank fields and fills in each one
      whose expression matches. */
  method ParseOptionSection(section: string, index: nat) returns (option: OptionRecord)
    ensures option == OptionOf(section, index)
  {
    var title, content, note, explanation := "", "", "", "";

    var titleMatch := TitleMatch(section);
    if titleMatch.Some? {
      title := StripColonTail(Trim(titleMatch.value));
    }


    var replyMatch := FirstMatch(section, Labeled(ReplyMarkers), 0);
    if replyMatch.None? {
      replyMatch := FirstMatch(section, AnyLabel, 0);
    }
    if replyMatch.Some? {
      content := Trim(replyMatch.value);
    } else {
      var contentMatch := FirstMatch(section, AfterBold, 0);
      if contentMatch.Some? {
        content := Trim(contentMatch.value);
      }
    }


    var noteMatch := FirstMatch(section, Labeled(NoteMarkers), 0);
    if noteMatch.Some? {
      note := Trim(noteMatch.value);
    }


    var explanationMatch := FirstMatch(section, Labeled(ExplanationMarkers), 0);
    if explanationMatch.Some? {
      explanation := Trim(explanationMatch.value);
    }


    option := OptionRecord(OptionId(index + 1), title, content, note, explanation, Standard);
  }

  predicate DoubleStarAt(s: string, k: nat) {
    k + 1 < |s| && s[k] == '*' && s[k + 1] == '*'
  }

  /** The letter that follows the opening `**` of each marker. */
  lemma MarkerLetters()
    ensures |ReplyMarkers| == 1 && |ReplyMarkers[0]| == 10 && ReplyMarkers[0][2] == 'R'
    ensures |NoteMarkers| == 1 && |NoteMarkers[0]| == 9 && NoteMarkers[0][2] == 'N'
    ensures |ExplanationMarkers| == 3
    ensures |ExplanationMarkers[0]| == 12 && ExplanationMarkers[0][2] == 'C'
    ensures |ExplanationMarkers[1]| == 16 && ExplanationMarkers[1][2] == 'E'
    ensures |ExplanationMarkers[2]| == 12 && ExplanationMarkers[2][2] == 'S'
  {
  }

  /** A `**` followed by a character that no marker has third is no match of
      a labelled pattern. */
  lemma {:induction false} LabeledAtMismatch(s: string, i: nat, markers: seq<string>)
    requires i + 3 <= |s|
    requires forall k :: 0 <= k < |markers| ==> |markers[k]| >= 3 && markers[k][2] != s[i + 2]
    ensures LabeledAt(s, i, markers).None?
    decreases |markers|
  {
    if markers != [] {
      LabeledAtMismatch(s, i, markers[1..]);
    }
  }

  /** A string that ends in whitespace after trimmed text trims to that text. */
  lemma TrimDropsTrailingSpace(x: string, c: char)
    requires x != [] && Trimmed(x)
    requires IsSpace(c)
    ensures Trim(x + [c]) == x
  {
    var y := x + [c];
    assert SpaceRunEnd(y, 0) == 0;
    assert SpaceRunStart(y, |y| - 1) == |x|;
    assert y[..|x|] == x;
  }

  /** A section in the shape the reply prompt asks for, as it is left once
      the split has removed its `n. **` header. */
  function ReplySection(title: string, reply: string, note: string): string {
    title + ":**\n**Reply:** " + reply + "\n**Note:** " + note
  }

  /** The search stops at the first position that matches. */
  lemma FirstMatchHere(s: string, pat: Pattern, i: nat)
    requires i <= |s|
    requires MatchAt(s, i, pat).Some?
    ensures FirstMatch(s, pat, i) == MatchAt(s, i, pat)
  {
  }

  /** A labelled pattern whose first marker is present and followed by a value. */
  lemma LabeledAtFirst(s: string, i: nat, markers: seq<string>)
    requires i <= |s| && markers != []
    requires HasAt(s, i, markers[0]) && StarFreeValue(s, i + |markers[0]|).Some?
    ensures LabeledAt(s, i, markers) == StarFreeValue(s, i + |markers[0]|)
  {
  }

  /** With a `**Reply:**` match the content is its trimmed capture. */
  lemma ContentFromReply(s: string, v: string)
    requires FirstMatch(s, Labeled(ReplyMarkers), 0) == Some(v)
    ensures Content(s) == Trim(v)
  {
  }

  /** Without a `**Reply:**` match, a `**Label:**value` match gives the
      content. */
  lemma ContentFromLabel(s: string, v: string)
    requires FirstMatch(s, Labeled(ReplyMarkers), 0).None?
    requires FirstMatch(s, AnyLabel, 0) == Some(v)
    ensures Content(s) == Trim(v)
  {
  }

  /** Without either labelled match, the text after the first `**…**` pair
      gives the content. */
  lemma ContentFromBold(s: string, v: string)
    requires FirstMatch(s, Labeled(ReplyMarkers), 0).None?
    requires FirstMatch(s, AnyLabel, 0).None?
    requires FirstMatch(s, AfterBold, 0) == Some(v)
    ensures Content(s) == Trim(v)
  {
  }

  /** A labelled field is the trimmed capture of its match. */
  lemma LabeledFieldFrom(s: string, markers: seq<string>, v: string)
    requires FirstMatch(s, Labeled(markers), 0) == Some(v)
    ensures LabeledField(s, markers) == Trim(v)
  {
  }

  /** No marker of `markers` opens at the `**` at `k`: the character after
      that `**` is not the third character of any of them. */
  predicate NotOpenedBy(s: string, k: nat, markers: seq<string>) {
    k + 3 <= |s| && forall m :: 0 <= m < |markers| ==> |markers[m]| >= 3 && markers[m][2] != s[k + 2]
  }

  /** A stretch where no marker opens is skipped by the search. */
  lemma {:induction false} SkipUnopened(s: string, markers: seq<string>, i: nat, j: nat)
    requires Wellformed(Labeled(markers))
    requires i <= j <= |s|
    requires forall k :: i <= k < j && DoubleStarAt(s, k) ==> NotOpenedBy(s, k, markers)
    ensures FirstMatch(s, Labeled(markers), i) == FirstMatch(s, Labeled(markers), j)
    decreases j - i
  {
    if i < j {
      if DoubleStarAt(s, i) {
        LabeledAtMismatch(s, i, markers);
      } else {
        MatchNeedsStars(s, i, Labeled(markers));
      }
      SkipUnopened(s, markers, i + 1, j);
    }
  }

  /** The capture of `\s*([^*]+?)(?:\*\*|$)` from `a` when spaces fill
      `[a, b)`, a non-space starts a star-free `[b, e)` and `**` or the end
      follows. */
  lemma StarFreeValueIs(s: string, a: nat, b: nat, e: nat)
    requires a < b < e <= |s|
    requires forall k :: a <= k < b ==> IsSpace(s[k])
    requires !IsSpace(s[b])
    requires forall k :: b <= k < e ==> s[k] != '*'
    requires ClosesAt(s, e)
    ensures StarFreeValue(s, a) == Some(s[b..e])
  {
    assert SpaceRunEnd(s, a) == b;
    assert IndexOfFrom(s, '*', b) == e;
  }

  /** Where the `**` of a reply-shaped section are, with a title of length
      `t` and a reply of length `r`, and what follows each of them. */
  predicate ReplyLayout(s: string, t: nat, r: nat) {
    && t + r + 26 <= |s|
    && (forall k :: 0 <= k < |s| && DoubleStarAt(s, k) ==>
          k == t + 1 || k == t + 4 || k == t + 12 || k == t + 16 + r || k == t + 23 + r)
    && s[t + 3] == '\n' && s[t + 6] == 'R' && s[t + 14] == ' '
    && s[t + 16 + r] == '*' && s[t + 17 + r] == '*'
    && s[t + 18 + r] == 'N' && s[t + 25 + r] == ' '
  }

  lemma TitleOfReplySection(s: string, title: string)
    requires |title| + 3 <= |s| && s[..|title|] == title
    requires '*' !in title && Trimmed(title)
    requires s[|title|] == ':' && s[|title| + 1] == '*' && s[|title| + 2] == '*'
    ensures Title(s) == title
  {
    var t := |title|;
    forall k | 0 <= k < t ensures s[k] != '*' {
      assert s[k] == s[..t][k];
    }
    assert IndexOfFrom(s, '*', 0) == t + 1;
    var u := s[..t + 1];
    assert u == title + ":";
    TrimOfTrimmed(u);
    StripColonTailOfTrimmed(u, 0);
    assert u[..t] == title;
  }

  lemma ReplySearchReachesMarker(s: string, t: nat, r: nat)
    requires ReplyLayout(s, t, r)
    ensures FirstMatch(s, Labeled(ReplyMarkers), 0) == FirstMatch(s, Labeled(ReplyMarkers), t + 4)
  {
    MarkerLetters();
    forall k | 0 <= k < t + 4 && DoubleStarAt(s, k) ensures NotOpenedBy(s, k, ReplyMarkers) {
      assert k == t + 1;
    }
    SkipUnopened(s, ReplyMarkers, 0, t + 4);
  }

  lemma ReplyValue(s: string, t: nat, r: nat, reply: string)
    requires t + 17 + r < |s|
    requires s[t + 14] == ' ' && s[t + 15 + r] == '\n'
    requires s[t + 16 + r] == '*' && s[t + 17 + r] == '*'
    requires s[t + 15..t + 15 + r] == reply && |reply| == r
    requires reply != [] && Trimmed(reply) && '*' !in reply
    ensures StarFreeValue(s, t + 14) == Some(s[t + 15..t + 16 + r])
  {
    forall k | t + 15 <= k < t + 16 + r ensures s[k] != '*' {
      if k < t + 15 + r {
        assert s[k] == reply[k - t - 15];
      }
    }
    assert s[t + 15] == reply[0];
    StarFreeValueIs(s, t + 14, t + 15, t + 16 + r);
  }

  lemma ReplyCapture(s: string, t: nat, r: nat, reply: string)
    requires ReplyLayout(s, t, r)
    requires HasAt(s, t + 4, ReplyMarkers[0])
    requires s[t + 15..t + 15 + r] == reply && |reply| == r
    requires reply != [] && Trimmed(reply) && '*' !in reply
    requires s[t + 15 + r] == '\n'
    ensures FirstMatch(s, Labeled(ReplyMarkers), 0) == Some(s[t + 15..t + 16 + r])
  {
    ReplySearchReachesMarker(s, t, r);
    ReplyValue(s, t, r, reply);
    MarkerLetters();
    LabeledAtFirst(s, t + 4, ReplyMarkers);
    FirstMatchHere(s, Labeled(ReplyMarkers), t + 4);
  }

  lemma ReplyOfReplySection(s: string, t: nat, r: nat, reply: string)
    requires ReplyLayout(s, t, r)
    requires HasAt(s, t + 4, ReplyMarkers[0])
    requires s[t + 15..t + 15 + r] == reply && |reply| == r
    requires reply != [] && Trimmed(reply) && '*' !in reply
    requires s[t + 15 + r] == '\n'
    ensures Content(s) == reply
  {
    ReplyCapture(s, t, r, reply);
    assert s[t + 15..t + 16 + r] == reply + "\n";
    ContentFromReply(s, reply + "\n");
    TrimDropsTrailingSpace(reply, '\n');
  }

  lemma NoteSearchReachesMarker(s: string, t: nat, r: nat)
    requires ReplyLayout(s, t, r)
    ensures FirstMatch(s, Labeled(NoteMarkers), 0) == FirstMatch(s, Labeled(NoteMarkers), t + 16 + r)
  {
    MarkerLetters();
    SkipUnopened(s, NoteMarkers, 0, t + 16 + r);
  }

  lemma NoteValue(s: string, a: nat, note: string)
    requires a < |s| && s[a] == ' ' && s[a + 1..] == note
    requires note != [] && Trimmed(note) && '*' !in note
    ensures StarFreeValue(s, a) == Some(note)
  {
    forall k | a + 1 <= k < |s| ensures s[k] != '*' {
      assert s[k] == note[k - a - 1];
    }
    assert s[a + 1] == note[0];
    StarFreeValueIs(s, a, a + 1, |s|);
    assert s[a + 1..|s|] == note;
  }

  /** A `**Note:**` marker at `m` followed by a space and the note captures
      the note. */
  lemma NoteAt(s: string, m: nat, note: string)
    requires m + 10 <= |s| && HasAt(s, m, NoteMarkers[0])
    requires s[m + 9] == ' ' && s[m + 10..] == note
    requires note != [] && Trimmed(note) && '*' !in note
    ensures FirstMatch(s, Labeled(NoteMarkers), m) == Some(note)
  {
    MarkerLetters();
    NoteValue(s, m + 9, note);
    LabeledAtFirst(s, m, NoteMarkers);
    FirstMatchHere(s, Labeled(NoteMarkers), m);
  }

  lemma NoteCapture(s: string, t: nat, r: nat, note: string)
    requires ReplyLayout(s, t, r)
    requires HasAt(s, t + 16 + r, NoteMarkers[0])
    requires s[t + 26 + r..] == note
    requires note != [] && Trimmed(note) && '*' !in note
    ensures FirstMatch(s, Labeled(NoteMarkers), 0) == Some(note)
  {
    NoteSearchReachesMarker(s, t, r);
    NoteAt(s, t + 16 + r, note);
  }

  lemma NoteOfReplySection(s: string, t: nat, r: nat, note: string)
    requires ReplyLayout(s, t, r)
    requires HasAt(s, t + 16 + r, NoteMarkers[0])
    requires s[t + 26 + r..] == note
    requires note != [] && Trimmed(note) && '*' !in note
    ensures Note(s) == note
  {
    NoteCapture(s, t, r, note);
    LabeledFieldFrom(s, NoteMarkers, note);
    TrimOfTrimmed(note);
  }

  lemma ExplanationOfReplySection(s: string, t: nat, r: nat)
    requires ReplyLayout(s, t, r)
    ensures Explanation(s) == ""
  {
    MarkerLetters();
    SkipUnopened(s, ExplanationMarkers, 0, |s|);
    MatchNeedsStars(s, |s|, Labeled(ExplanationMarkers));
  }

  /** The `**` inside the text between the title and the reply. */
  lemma HeadStars(s: string, t: nat)
    requires t + 16 <= |s| && s[t..t + 15] == ":**\n**Reply:** " && s[t + 15] != '*'
    ensures forall k :: t <= k < t + 15 && DoubleStarAt(s, k) ==> k == t + 1 || k == t + 4 || k == t + 12
    ensures s[t] == ':' && s[t + 1] == '*' && s[t + 2] == '*' && s[t + 3] == '\n'
    ensures s[t + 6] == 'R' && s[t + 14] == ' '
    ensures HasAt(s, t + 4, ReplyMarkers[0])
  {
    var head := s[t..t + 15];
    forall k | t <= k < t + 15 ensures s[k] == head[k - t] {
    }
    SliceOfSlice(s, t, t + 15, 4, 14);
    assert head[4..14] == ReplyMarkers[0];
  }

  /** The `**` inside the text between the reply and the note. */
  lemma MidStars(s: string, m: nat)
    requires m + 12 <= |s| && s[m..m + 11] == "\n**Note:** " && s[m + 11] != '*'
    ensures forall k :: m <= k < m + 11 && DoubleStarAt(s, k) ==> k == m + 1 || k == m + 8
    ensures s[m] == '\n' && s[m + 1] == '*' && s[m + 2] == '*' && s[m + 3] == 'N' && s[m + 10] == ' '
    ensures HasAt(s, m + 1, NoteMarkers[0])
  {
    var mid := s[m..m + 11];
    forall k | m <= k < m + 11 ensures s[k] == mid[k - m] {
    }
    SliceOfSlice(s, m, m + 11, 1, 10);
    assert mid[1..10] == NoteMarkers[0];
  }

  lemma ReplyLayoutHolds(s: string, title: string, reply: string, note: string)
    requires '*' !in title && '*' !in reply && '*' !in note
    requires reply != [] && note != []
    requires var t, r := |title|, |reply|;
      && |s| == t + r + 26 + |note|
      && s[..t] == title && s[t..t + 15] == ":**\n**Reply:** "
      && s[t + 15..t + 15 + r] == reply && s[t + 15 + r..t + 26 + r] == "\n**Note:** "
      && s[t + 26 + r..] == note
    ensures ReplyLayout(s, |title|, |reply|)
    ensures HasAt(s, |title| + 4, ReplyMarkers[0]) && HasAt(s, |title| + 16 + |reply|, NoteMarkers[0])
    ensures s[|title|] == ':' && s[|title| + 1] == '*' && s[|title| + 2] == '*'
    ensures s[|title| + 15 + |reply|] == '\n'
  {
    var t, r := |title|, |reply|;
    forall k | 0 <= k < t ensures s[k] != '*' {
      assert s[k] == s[..t][k];
    }
    forall k | t + 15 <= k < t + 15 + r ensures s[k] != '*' {
      assert s[k] == s[t + 15..t + 15 + r][k - t - 15];
    }
    forall k | t + 26 + r <= k < |s| ensures s[k] != '*' {
      assert s[k] == s[t + 26 + r..][k - t - 26 - r];
    }
    assert s[t + 15] == reply[0];
    assert s[t + 26 + r] == note[0];
    HeadStars(s, t);
    MidStars(s, t + 15 + r);
  }

  /** Parsing a section of the reply shape gives back its title, reply and
      note, with no explanation. */
  lemma ReplySectionRoundTrip(title: string, reply: string, note: string, index: nat)
    requires '*' !in title && '*' !in reply && '*' !in note
    requires Trimmed(title) && Trimmed(reply) && Trimmed(note)
    requires reply != [] && note != []
    ensures OptionOf(ReplySection(title, reply, note), index)
         == OptionRecord(OptionId(index + 1), title, reply, note, "", Standard)
  {
    var s := ReplySection(title, reply, note);
    var t, r := |title|, |reply|;
    var head, mid := ":**\n**Reply:** ", "\n**Note:** ";
    assert s == title + head + reply + mid + note;
    assert s[..t] == title;
    assert s[t..t + 15] == head;
    assert s[t + 15..t + 15 + r] == reply;
    assert s[t + 15 + r..t + 26 + r] == mid;
    assert s[t + 26 + r..] == note;
    assert ReplySectionText(s, title, reply, note);
    ReplySectionTitle(s, title, reply, note);
    ReplySectionContent(s, title, reply, note);
    ReplySectionNote(s, title, reply, note);
    ReplySectionExplanation(s, title, reply, note);
  }

  /** `s` is a reply-shaped section with these fields. */
  predicate ReplySectionText(s: string, title: string, reply: string, note: string) {
    && '*' !in title && '*' !in reply && '*' !in note
    && Trimmed(title) && Trimmed(reply) && Trimmed(note)
    && reply != [] && note != []
    && var t, r := |title|, |reply|;
      && |s| == t + r + 26 + |note|
      && s[..t] == title && s[t..t + 15] == ":**\n**Reply:** "
      && s[t + 15..t + 15 + r] == reply && s[t + 15 + r..t + 26 + r] == "\n**Note:** "
      && s[t + 26 + r..] == note
  }

  lemma ReplySectionTitle(s: string, title: string, reply: string, note: string)
    requires ReplySectionText(s, title, reply, note)
    ensures Title(s) == title
  {
    ReplyLayoutHolds(s, title, reply, note);
    TitleOfReplySection(s, title);
  }

  lemma ReplySectionContent(s: string, title: string, reply: string, note: string)
    requires ReplySectionText(s, title, reply, note)
    ensures Content(s) == reply
  {
    ReplyLayoutHolds(s, title, reply, note);
    ReplyOfReplySection(s, |title|, |reply|, reply);
  }

  lemma ReplySectionNote(s: string, title: string, reply: string, note: string)
    requires ReplySectionText(s, title, reply, note)
    ensures Note(s) == note
  {
    ReplyLayoutHolds(s, title, reply, note);
    NoteOfReplySection(s, |title|, |reply|, note);
  }

  lemma ReplySectionExplanation(s: string, title: string, reply: string, note: string)
    requires ReplySectionText(s, title, reply, note)
    ensures Explanation(s) == ""
  {
    ReplyLayoutHolds(s, title, reply, note);
    ExplanationOfReplySection(s, |title|, |reply|);
  }

  /** A stretch with no match at all is skipped by the search. */
  lemma {:induction false} SkipNoMatch(s: string, pat: Pattern, i: nat, j: nat)
    requires i <= j <= |s|
    requires forall k :: i <= k < j ==> MatchAt(s, k, pat).None?
    ensures FirstMatch(s, pat, i) == FirstMatch(s, pat, j)
    decreases j - i
  {
    if i < j {
      SkipNoMatch(s, pat, i + 1, j);
    }
  }

  /** With none of its three expressions matching, the content is empty. */
  lemma ContentWhenNothingMatches(s: string)
    requires FirstMatch(s, Labeled(ReplyMarkers), 0).None?
    requires FirstMatch(s, AnyLabel, 0).None?
    requires FirstMatch(s, AfterBold, 0).None?
    ensures Content(s) == ""
  {
  }

  /** The layout the grammar, simplify and polite prompts ask for, once the
      split has removed the `n. **` header: a title closed by `:**`, then a
      new line and the body. */
  function TitledBody(title: string, body: string): string {
    title + ":**\n" + body
  }

  predicate OnlyStarsAt(s: string, k: nat) {
    forall j :: 0 <= j < |s| && j != k && j != k + 1 ==> s[j] != '*'
  }

  lemma TitledBodyStars(title: string, body: string)
    requires '*' !in title && '*' !in body
    ensures var s := TitledBody(title, body);
      && |s| == |title| + 4 + |body|
      && s[|title| + 1] == '*' && s[|title| + 2] == '*' && s[|title| + 3] == '\n'
      && OnlyStarsAt(s, |title| + 1)
  {
    var s := TitledBody(title, body);
    var t := |title|;
    assert s == title + ":**\n" + body;
    forall j | 0 <= j < |s| && j != t + 1 && j != t + 2 ensures s[j] != '*' {
      if j < t {
        assert s[j] == title[j];
      } else if j >= t + 4 {
        assert s[j] == body[j - t - 4];
      }
    }
  }

  /** No `**Reply:**` and no `**Label:**value` in a titled body. */
  lemma TitledBodyNoLabel(s: string, t: nat)
    requires t + 4 <= |s| && s[t + 3] == '\n' && OnlyStarsAt(s, t + 1)
    ensures FirstMatch(s, Labeled(ReplyMarkers), 0).None?
    ensures FirstMatch(s, AnyLabel, 0).None?
  {
    MarkerLetters();
    SkipUnopened(s, ReplyMarkers, 0, |s|);
    MatchNeedsStars(s, |s|, Labeled(ReplyMarkers));
    forall k | 0 <= k <= |s| ensures MatchAt(s, k, AnyLabel).None? {
      if k != t + 1 {
        MatchNeedsStars(s, k, AnyLabel);
      } else {
        var c := IndexOfFrom(s, ':', k + 2);
        if c + 3 <= |s| {
          assert s[c + 1] != '*';
        }
      }
    }
    SkipNoMatch(s, AnyLabel, 0, |s|);
  }

  /** No `**…**` pair with text after it in a titled body. */
  lemma TitledBodyNoBoldPair(s: string, t: nat)
    requires t + 4 <= |s| && s[t + 3] == '\n' && OnlyStarsAt(s, t + 1)
    ensures FirstMatch(s, AfterBold, 0).None?
  {
    forall k | 0 <= k <= |s| ensures MatchAt(s, k, AfterBold).None? {
      if k != t + 1 {
        MatchNeedsStars(s, k, AfterBold);
      } else {
        assert IndexOfFrom(s, '*', k + 2) == |s|;
      }
    }
    SkipNoMatch(s, AfterBold, 0, |s|);
  }

  /** The content expressions never reach the body of a titled body: its
      only `**` closes the title, so the content is empty. */
  lemma TitledBodyHasNoContent(title: string, body: string)
    requires '*' !in title && '*' !in body
    ensures Content(TitledBody(title, body)) == ""
  {
    var s := TitledBody(title, body);
    TitledBodyStars(title, body);
    TitledBodyNoLabel(s, |title|);
    TitledBodyNoBoldPair(s, |title|);
    ContentWhenNothingMatches(s);
  }

  /** A reply-shaped section whose `**Title:**` line was left out
      (`1. **Reply:** …` then `**Note:** …`), as the split leaves it: the
      split has taken the `**` that opened `Reply:`. */
  function UntitledReply(reply: string, note: string): string {
    "Reply:** " + reply + "\n**Note:** " + note
  }

  /** The characters of an untitled reply section that the searches look
      at: the reply runs from 9 to `m`, the note from `m + 11`. */
  predicate UntitledShape(s: string, m: nat, note: string) {
    && 9 <= m && |s| == m + 11 + |note| && s[m + 11..] == note
    && (forall k :: 0 <= k < 6 ==> s[k] != '*')
    && s[6] == '*' && s[7] == '*' && s[8] == ' '
    && (forall k :: 9 <= k < m ==> s[k] != '*')
    && s[m] == '\n' && s[m + 1] == '*' && s[m + 2] == '*' && s[m + 3] == 'N'
    && (forall k :: m + 3 <= k < m + 7 ==> s[k] != ':')
    && s[m + 7] == ':' && s[m + 8] == '*' && s[m + 9] == '*' && s[m + 10] == ' '
    && (forall k :: m + 11 <= k < |s| ==> s[k] != '*')
    && HasAt(s, m + 1, NoteMarkers[0])
  }

  lemma UntitledLayout(reply: string, note: string)
    requires '*' !in reply && '*' !in note && note != []
    ensures UntitledShape(UntitledReply(reply, note), 9 + |reply|, note)
    ensures UntitledReply(reply, note)[..6] == "Reply:"
  {
    var s, m := UntitledReply(reply, note), 9 + |reply|;
    var head, mid := "Reply:** ", "\n**Note:** ";
    assert s == head + reply + mid + note;
    forall k | 0 <= k < 9 ensures s[k] == head[k] {
    }
    forall k | 9 <= k < m ensures s[k] != '*' {
      assert s[k] == reply[k - 9];
    }
    forall k | m <= k < m + 11 ensures s[k] == mid[k - m] {
    }
    forall k | m + 11 <= k < |s| ensures s[k] != '*' {
      assert s[k] == note[k - m - 11];
    }
    assert s[..6] == "Reply:";
    assert s[m + 11..] == note;
    assert s[m + 1..m + 10] == NoteMarkers[0];
  }

  /** Where an untitled reply section has `**`. */
  lemma UntitledStars(s: string, m: nat, note: string)
    requires UntitledShape(s, m, note)
    ensures forall k :: 0 <= k < |s| && DoubleStarAt(s, k) ==> k == 6 || k == m + 1 || k == m + 8
  {
  }

  /** The `Reply:` label has lost its opening `**`, so the reply expression
      finds nothing. */
  lemma UntitledHasNoReplyMatch(s: string, m: nat, note: string)
    requires UntitledShape(s, m, note)
    ensures FirstMatch(s, Labeled(ReplyMarkers), 0).None?
  {
    UntitledStars(s, m, note);
    MarkerLetters();
    SkipUnopened(s, ReplyMarkers, 0, |s|);
    MatchNeedsStars(s, |s|, Labeled(ReplyMarkers));
  }

  /** A `**` of an untitled reply section whose label runs to the colon of
      `Note:` captures the note. */
  lemma UntitledLabelFrom(s: string, m: nat, note: string, i: nat)
    requires UntitledShape(s, m, note) && note != [] && Trimmed(note) && '*' !in note
    requires (i == 6 || i == m + 1) && IndexOfFrom(s, ':', i + 2) == m + 7
    ensures MatchAt(s, i, AnyLabel) == Some(note)
  {
    assert s[i..i + 2] == "**";
    NoteValue(s, m + 10, note);
  }

  /** A colon in the reply ends the label at the `**` left behind `Reply:`
      without a `:**` after it, and nothing else matches before `**Note:**`. */
  lemma UntitledColonInReply(s: string, m: nat, note: string)
    requires UntitledShape(s, m, note)
    requires IndexOfFrom(s, ':', 8) != m + 7
    ensures forall k :: 0 <= k <= m ==> MatchAt(s, k, AnyLabel).None?
  {
    var c := IndexOfFrom(s, ':', 8);
    assert 9 <= c < m && s[c + 1] != '*';
    UntitledStars(s, m, note);
    forall k | 0 <= k <= m ensures MatchAt(s, k, AnyLabel).None? {
      if k != 6 {
        MatchNeedsStars(s, k, AnyLabel);
      }
    }
  }

  /** No `**Label:**value` match starts before `Reply:`'s closing `**`. */
  lemma UntitledSkipHead(s: string, m: nat, note: string)
    requires UntitledShape(s, m, note)
    ensures FirstMatch(s, AnyLabel, 0) == FirstMatch(s, AnyLabel, 6)
  {
    forall k | 0 <= k < 6 ensures MatchAt(s, k, AnyLabel).None? {
      MatchNeedsStars(s, k, AnyLabel);
    }
    SkipNoMatch(s, AnyLabel, 0, 6);
  }

  /** The `**` of `**Note:**` captures the note. */
  lemma UntitledLabelAtNote(s: string, m: nat, note: string)
    requires UntitledShape(s, m, note) && note != [] && Trimmed(note) && '*' !in note
    ensures FirstMatch(s, AnyLabel, m + 1) == Some(note)
  {
    var c := IndexOfFrom(s, ':', m + 3);
    assert c <= m + 7;
    UntitledLabelFrom(s, m, note, m + 1);
    FirstMatchHere(s, AnyLabel, m + 1);
  }

  /** From `Reply:`'s closing `**` on, the first `**Label:**value` match
      captures the note. */
  lemma UntitledLabelAfterHead(s: string, m: nat, note: string)
    requires UntitledShape(s, m, note) && note != [] && Trimmed(note) && '*' !in note
    ensures FirstMatch(s, AnyLabel, 6) == Some(note)
  {
    if IndexOfFrom(s, ':', 8) == m + 7 {
      UntitledLabelFrom(s, m, note, 6);
      FirstMatchHere(s, AnyLabel, 6);
    } else {
      UntitledColonInReply(s, m, note);
      SkipNoMatch(s, AnyLabel, 6, m + 1);
      UntitledLabelAtNote(s, m, note);
    }
  }

  /** The first `**Label:**value` match captures the note, whether it starts
      at the `**` left behind `Reply:` or at `**Note:**`. */
  lemma UntitledLabelIsNote(s: string, m: nat, note: string)
    requires UntitledShape(s, m, note) && note != [] && Trimmed(note) && '*' !in note
    ensures FirstMatch(s, AnyLabel, 0) == Some(note)
  {
    UntitledSkipHead(s, m, note);
    UntitledLabelAfterHead(s, m, note);
  }

  /** The note of an untitled reply section. */
  lemma UntitledNote(s: string, m: nat, note: string)
    requires UntitledShape(s, m, note) && note != [] && Trimmed(note) && '*' !in note
    ensures Note(s) == note
  {
    UntitledStars(s, m, note);
    MarkerLetters();
    SkipUnopened(s, NoteMarkers, 0, m + 1);
    NoteAt(s, m + 1, note);
    LabeledFieldFrom(s, NoteMarkers, note);
    TrimOfTrimmed(note);
  }

  /** The title of a section that opens with `Reply:**`. */
  lemma ReplyBecomesTitle(s: string)
    requires 8 <= |s| && s[..6] == "Reply:" && s[6] == '*' && s[7] == '*'
    ensures Title(s) == "Reply"
  {
    assert TitleCloseAt(s, 6);
    TitleMatchIsFirstStars(s);
    TrimOfTrimmed("Reply:");
    TitleValue(s);
    assert "Reply:"[..5] == "Reply";
  }

  /** A section without its title line loses its reply: `Reply` becomes the
      title, and the note is taken both as the content and as the note. */
  lemma UntitledReplyLosesReply(reply: string, note: string)
    requires '*' !in reply && '*' !in note && note != [] && Trimmed(note)
    ensures Title(UntitledReply(reply, note)) == "Reply"
    ensures Content(UntitledReply(reply, note)) == note
    ensures Note(UntitledReply(reply, note)) == note
  {
    var s, m := UntitledReply(reply, note), 9 + |reply|;
    UntitledLayout(reply, note);
    ReplyBecomesTitle(s);
    UntitledHasNoReplyMatch(s, m, note);
    UntitledLabelIsNote(s, m, note);
    ContentFromLabel(s, note);
    TrimOfTrimmed(note);
    UntitledNote(s, m, note);
  }
}
