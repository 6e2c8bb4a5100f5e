/** Segmentation of the model's reply: `rawResponse.split` on the pattern `\d+\.\s*\*\*`
    (src/app/api/process/route.js), written as the scanner that
    `String.prototype.split` runs with a sticky regular expression. */
module Segmenter {
  import opened Wrappers
  import opened JsString

  /** The end of the run of digits that starts at `i`. */
  function DigitRunEnd(s: string, i: nat): (r: nat)
    requires i <= |s|
    ensures i <= r <= |s|
    ensures forall k :: i <= k < r ==> IsDigit(s[k])
    ensures r == |s| || !IsDigit(s[r])
    decreases |s| - i
  {
    if i < |s| && IsDigit(s[i]) then DigitRunEnd(s, i + 1) else i
  }

  /** When a section header `\d+\.\s*\*\*` starts at `i`, the position just
      past it.  `\d+` and `\s*` are greedy and giving characters back cannot
      help (a digit is not `.`, a space is not `*`), so the match is unique. */
  function HeaderEnd(s: string, i: nat): (r: Option<nat>)
    requires i <= |s|
    ensures r.Some? ==> i + 4 <= r.value <= |s|
    ensures r.Some? ==> IsDigit(s[i]) && s[r.value - 2] == '*' && s[r.value - 1] == '*'
  {
    if i < |s| && IsDigit(s[i]) then
      var d := DigitRunEnd(s, i);
      if d < |s| && s[d] == '.' then
        var w := SpaceRunEnd(s, d + 1);
        if w + 2 <= |s| && s[w] == '*' && s[w + 1] == '*' then Some(w + 2) else None
      else None
    else None
  }

  predicate AllDigits(t: string) {
    forall k :: 0 <= k < |t| ==> IsDigit(t[k])
  }

  /** `h` is a whole match of `\d+\.\s*\*\*`: digits, a dot, whitespace and
      two stars. */
  predicate IsHeader(h: string) {
    exists d :: 0 < d && d + 3 <= |h| && AllDigits(h[..d]) && h[d] == '.' &&
                IsBlank(h[d + 1..|h| - 2]) && h[|h| - 2] == '*' && h[|h| - 1] == '*'
  }

  /** The scanner finds exactly the matches of the pattern: a header starts
      at `i` and ends at `e` if and only if `s[i..e]` is one. */
  lemma HeaderEndMatches(s: string, i: nat, e: nat)
    requires i <= e <= |s|
    ensures HeaderEnd(s, i) == Some(e) <==> IsHeader(s[i..e])
  {
    if HeaderEnd(s, i) == Some(e) {
      HeaderEndIsHeader(s, i);
    }
    if IsHeader(s[i..e]) {
      var h := s[i..e];
      var d :| 0 < d && d + 3 <= |h| && AllDigits(h[..d]) && h[d] == '.' &&
               IsBlank(h[d + 1..|h| - 2]) && h[|h| - 2] == '*' && h[|h| - 1] == '*';
      HeaderIsFound(s, i, e, d);
    }
  }

  /** What the scanner accepts is a match of the pattern. */
  lemma HeaderEndIsHeader(s: string, i: nat)
    requires i <= |s| && HeaderEnd(s, i).Some?
    ensures IsHeader(s[i..HeaderEnd(s, i).value])
  {
    var e := HeaderEnd(s, i).value;
    var h := s[i..e];
    var d := DigitRunEnd(s, i);
    var w := SpaceRunEnd(s, d + 1);
    assert w + 2 == e;
    var digits, gap := h[..d - i], h[d - i + 1..|h| - 2];
    forall k | 0 <= k < |digits| ensures IsDigit(digits[k]) {
      assert digits[k] == s[i + k];
    }
    forall k | 0 <= k < |gap| ensures IsSpace(gap[k]) {
      assert gap[k] == s[d + 1 + k];
    }
    assert h[d - i] == '.' && h[|h| - 2] == '*' && h[|h| - 1] == '*';
  }

  /** A match of the pattern with `d` digits is what the scanner finds. */
  lemma HeaderIsFound(s: string, i: nat, e: nat, d: nat)
    requires i <= e <= |s|
    requires var h := s[i..e];
      0 < d && d + 3 <= |h| && AllDigits(h[..d]) && h[d] == '.' &&
      IsBlank(h[d + 1..|h| - 2]) && h[|h| - 2] == '*' && h[|h| - 1] == '*'
    ensures HeaderEnd(s, i) == Some(e)
  {
    var h := s[i..e];
    forall k | i <= k < i + d ensures IsDigit(s[k]) {
      assert s[k] == h[..d][k - i];
    }
    assert s[i + d] == h[d];
    assert DigitRunEnd(s, i) == i + d;
    var gap := h[d + 1..|h| - 2];
    assert |gap| == e - i - d - 3;
    forall k | i + d + 1 <= k < e - 2 ensures IsSpace(s[k]) {
      var j := k - i - d - 1;
      assert 0 <= j < |gap|;
      assert IsSpace(gap[j]);
      assert gap[j] == h[d + 1 + j] == s[k];
    }
    assert s[e - 2] == h[|h| - 2] && s[e - 1] == h[|h| - 1];
    assert SpaceRunEnd(s, i + d + 1) == e - 2;
  }

  /** The split loop: `p` is where the current piece began, `q` where the
      next match is tried. */
  function SplitFrom(s: string, p: nat, q: nat): (r: seq<string>)
    requires p <= q <= |s|
    ensures |r| >= 1
    decreases |s| - q
  {
    if q == |s| then [s[p..]]
    else match HeaderEnd(s, q)
      case Some(e) => [s[p..q]] + SplitFrom(s, e, e)
      case None => SplitFrom(s, p, q + 1)
  }

  /** The headers the split loop removes, in order. */
  ghost function HeadersFrom(s: string, p: nat, q: nat): seq<string>
    requires p <= q <= |s|
    decreases |s| - q
  {
    if q == |s| then []
    else match HeaderEnd(s, q)
      case Some(e) => [s[q..e]] + HeadersFrom(s, e, e)
      case None => HeadersFrom(s, p, q + 1)
  }

  /** `s.split` on the section-header pattern. */
  function SplitAtHeaders(s: string): seq<string> {
    SplitFrom(s, 0, 0)
  }

  /** The first position at or after `q` where a header starts, or `|s|`. */
  function FirstHeaderFrom(s: string, q: nat): (r: nat)
    requires q <= |s|
    ensures q <= r <= |s|
    ensures r < |s| ==> HeaderEnd(s, r).Some?
    ensures forall k :: q <= k < r ==> HeaderEnd(s, k).None?
    decreases |s| - q
  {
    if q == |s| || HeaderEnd(s, q).Some? then q else FirstHeaderFrom(s, q + 1)
  }

  predicate HasHeader(s: string) {
    FirstHeaderFrom(s, 0) < |s|
  }

  /** `pieces[0] + headers[0] + pieces[1] + ... + pieces[n]` */
  function Interleave(pieces: seq<string>, headers: seq<string>): string
    requires |pieces| == |headers| + 1
  {
    if headers == [] then pieces[0]
    else pieces[0] + headers[0] + Interleave(pieces[1..], headers[1..])
  }

  /** The split loses nothing but the headers: putting them back between the
      pieces gives the text again. */
  lemma {:induction false} SplitReassembles(s: string, p: nat, q: nat)
    requires p <= q <= |s|
    ensures |SplitFrom(s, p, q)| == |HeadersFrom(s, p, q)| + 1
    ensures Interleave(SplitFrom(s, p, q), HeadersFrom(s, p, q)) == s[p..]
    decreases |s| - q
  {
    if q < |s| {
      match HeaderEnd(s, q)
      case Some(e) =>
        SplitReassembles(s, e, e);
        var pieces := SplitFrom(s, p, q);
        var headers := HeadersFrom(s, p, q);
        assert pieces[1..] == SplitFrom(s, e, e);
        assert headers[1..] == HeadersFrom(s, e, e);
        assert s[p..] == s[p..q] + s[q..e] + s[e..];
      case None =>
        SplitReassembles(s, p, q + 1);
    }
  }

  /** Every header the split removes is a match of the separator. */
  lemma {:induction false} RemovedAreHeaders(s: string, p: nat, q: nat, k: nat)
    requires p <= q <= |s|
    requires k < |HeadersFrom(s, p, q)|
    ensures |HeadersFrom(s, p, q)[k]| >= 4
    ensures IsDigit(HeadersFrom(s, p, q)[k][0])
    ensures EndsWith(HeadersFrom(s, p, q)[k], "**")
    ensures IsHeader(HeadersFrom(s, p, q)[k])
    decreases |s| - q
  {
    if q < |s| {
      match HeaderEnd(s, q)
      case Some(e) =>
        if k > 0 {
          RemovedAreHeaders(s, e, e, k - 1);
        } else {
          HeaderEndIsHeader(s, q);
        }
      case None =>
        RemovedAreHeaders(s, p, q + 1, k);
    }
  }

  /** The first piece is the text before the first header (all of the text
      when there is none). */
  lemma {:induction false} FirstPieceIsPreamble(s: string, p: nat, q: nat)
    requires p <= q <= |s|
    ensures SplitFrom(s, p, q)[0] == s[p..FirstHeaderFrom(s, q)]
    decreases |s| - q
  {
    if q < |s| && HeaderEnd(s, q).None? {
      FirstPieceIsPreamble(s, p, q + 1);
    }
  }

  /** With no header from `q` on, the loop returns the rest as one piece; with
      one, it returns at least two. */
  lemma {:induction false} SinglePieceIffNoHeader(s: string, p: nat, q: nat)
    requires p <= q <= |s|
    ensures |SplitFrom(s, p, q)| == 1 <==> FirstHeaderFrom(s, q) == |s|
    ensures |SplitFrom(s, p, q)| == 1 ==> SplitFrom(s, p, q) == [s[p..]]
    decreases |s| - q
  {
    if q < |s| && HeaderEnd(s, q).None? {
      SinglePieceIffNoHeader(s, p, q + 1);
    }
  }

  /** The split of text without a header is the text itself, and only then. */
  lemma NoHeaderNoSplit(s: string)
    ensures SplitAtHeaders(s) == [s] <==> !HasHeader(s)
  {
    SinglePieceIffNoHeader(s, 0, 0);
  }

  /** A blank text holds no header, since a header starts with a digit. */
  lemma BlankHasNoHeader(s: string)
    requires IsBlank(s)
    ensures !HasHeader(s)
  {
  }
}
