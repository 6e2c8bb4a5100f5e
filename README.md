# TuneMate text-assistant core, modelled in Dafny

TuneMate is a Next.js writing assistant. Its server routes send the user's text to a language model
(Gemini) and turn the model's free-text reply into a result of fixed shape. Its pages keep the
results, a short history and a few display toggles. This project models that core:

- **The markdown-section structurer of the process route.**
  - `processAIResponse` splits the reply at every `<digits>.<whitespace>**` header and drops blank pieces.
  - `parseOptionSection` takes a title, content, note and explanation from each piece by ordered pattern
    precedence. Each regular expression is written as a scanner with the same leftmost, lazy and greedy choices.
  - The route also computes the metadata (`totalOptions`, `hasNotes`, `hasExplanations`), picks the
    encouragement line and shapes the `POST` reply and history entry.
- **The strict-JSON normalisers of the action routes.**
  - Cleaning: fence stripping plus the greedy first-`{`-to-last-`}` span, or the `indexOf`/`lastIndexOf` slice.
  - A parse-or-fallback step, then each route's repair:
    - make-polite and simplify pad, truncate, filter and pad again to exactly three options;
    - fix-grammar defaults each field;
    - reply-generate requires a non-empty array;
    - evaluate, grammar-check and generate-question fall back to fixed objects.
- **The client state of the home page and the history panel.**
  - `processText`: the results map and a newest-first history capped at ten items.
  - The explanation line, the option-detail toggles and `clearAll`.
  - The history panel's expanded-item set, its per-route look, the decoding of a stored result and its copy-button ids.

The model has no access to the outside world, so three things are inputs:

- **The language model** is a function parameter `generate` returning `Generated(text)` or `Failed(message)`.
- **`JSON.parse`** is a partial function parameter `parse: string -> Option<Json>` over a small `Json` datatype.
- **`Math.random`** appears as the index it yields.

Files and modules:

| file | module | models |
|---|---|---|
| `json.dfy` | `Wrappers`, `Json` | JSON values, JavaScript truthiness, property access, template interpolation, the error body, the HTTP outcome |
| `jsstring.dfy` | `JsString` | the string built-ins the routes use (`trim`, `indexOf`, `lastIndexOf`, `slice`, `split`/`join`, decimal rendering, `toLowerCase`) |
| `segmenter.dfy` | `Segmenter` | `rawResponse.split(/\d+\.\s*\*\*/)` |
| `extractor.dfy` | `Extractor` | `parseOptionSection` |
| `process.dfy` | `Process` | `actionPrompts`, `processAIResponse`, `getEncouragementMessage`, the process `POST` |
| `cleaning.dfy` | `Cleaning` | the three cleaning rules of the JSON routes |
| `rewrite.dfy` | `Rewrite` | the make-polite and simplify routes (one pipeline, two template sets) |
| `fixgrammar.dfy` | `FixGrammar` | the fix-grammar route |
| `replygen.dfy` | `ReplyGenerate` | the reply-generate route |
| `evaluate.dfy` | `Evaluate` | the evaluate route |
| `grammarcheck.dfy` | `GrammarCheck` | the grammar-check route |
| `question.dfy` | `Question` | the generate-question route |
| `page.dfy` | `Page` | the `Home` component of `page.js` |
| `history.dfy` | `HistorySection` | the helpers of `HistorySection.jsx` |

Where the routes' own prompts and comments lead one to expect other behaviour, the model follows the code:

- **No header.** A reply with no numbered header becomes one ordinary `option_1`, not the `fallback` record.
  A blank reply gives zero options and still succeeds (`Process.NoHeaderGivesOneOption`,
  `Process.BlankRawGivesNoOptions`).
- **Titled-body layout.** The layout the grammar, simplify and polite prompts ask for
  (`Title:**` followed by a line of text) yields an empty `content`. None of the three content expressions
  reaches the body (`Extractor.TitledBodyHasNoContent`).
- **`Reply:` then `Note:`.** The reply layout keeps its reply only behind a title line. A section
  `<title>:**\n**Reply:** <reply>\n**Note:** <note>` gives back the title, the reply as content and the note
  (`Extractor.ReplySectionRoundTrip`). Without the title line the split leaves `Reply:** <reply>\n**Note:** <note>`.
  Its title becomes `Reply`, its content becomes the note, and the reply text is lost
  (`Extractor.UntitledReplyLosesReply`).
- **Explicit `null` question type.** `questionType: null` is not replaced by the 'random' default. It reaches the `switch`'s `default`
  branch, which assigns to a `const` and throws, so the route answers 500 (`Question.NullTypeFails`).
- **Out-of-scope `action` in the process route's `catch`.** The `catch` of the process `POST` reads a block-scoped `action` that is not in scope there.
  A failure after validation therefore throws out of the handler (`Unhandled`) rather than producing the
  intended 500 body.

## Model

| member | source | states |
|---|---|---|
| JsString.Trim | src/app/api/process/route.js:99-103 | `trim()`: the result has no leading or trailing whitespace, is no longer than the input, and is empty exactly when the input is blank |
| JsString.TrimKeepsInfix | src/app/api/process/route.js:99-103 | `trim()` returns a contiguous part of the input, and only whitespace is cut before and after it |
| JsString.IndexOf | src/app/api/evaluate/route.js:54 | `indexOf`: -1 exactly when the character is absent; otherwise the position of its first occurrence |
| JsString.LastIndexOf | src/app/api/evaluate/route.js:55 | `lastIndexOf`: -1 exactly when the character is absent; otherwise the position of its last occurrence |
| JsString.Slice | src/app/api/evaluate/route.js:56 | `slice(start, end)` with JavaScript's negative-index rule: the part of the text between the resolved start and end, and empty whenever the resolved end is not past the resolved start |
| JsString.SplitJoinRoundTrip | src/app/api/simplify/route.js:98 | `split(' ')` followed by `join(' ')` gives the text back |
| JsString.JoinFirstPiecesIsPrefix | src/app/api/simplify/route.js:98 | joining the first k pieces of a split gives a prefix of the text |
| JsString.DecimalRoundTrip | src/app/api/process/route.js:150 | the decimal rendering of a count reads back as the same count |
| JsString.DecimalInjective | src/app/page.js:89-98 | distinct counts render to distinct decimal strings |
| JsString.DashNumberInjective | src/app/page.js:112 | `${prefix}-${n}` determines both the prefix and the number |
| JsString.ToLower | src/app/api/make-polite/route.js:99-101 | `toLowerCase()` maps each character independently and leaves no upper-case ASCII letter |
| Json.Field | src/app/api/process/route.js:217 | a property read yields a value exactly when the value is an object with that own key, and then it is that key's value |
| Json.ErrorBody | src/app/api/process/route.js:221-224 | every error reply is an object whose only key is `error`, holding the message |
| Segmenter.HeaderEnd | src/app/api/process/route.js:99 | a header found at i starts with a digit, ends with `**` and spans at least four characters |
| Segmenter.HeaderEndMatches | src/app/api/process/route.js:99 | the scanner reports a header from i to e exactly when `s[i..e]` matches `\d+\.\s*\*\*` (digits, a dot, whitespace, two stars) |
| Segmenter.FirstHeaderFrom | src/app/api/process/route.js:99 | the leftmost header start at or after a position; no header starts before it |
| Segmenter.SplitReassembles | src/app/api/process/route.js:99 | interleaving the pieces with the removed headers gives the text back, with one more piece than headers |
| Segmenter.RemovedAreHeaders | src/app/api/process/route.js:99 | every removed separator is a whole match of `\d+\.\s*\*\*` |
| Segmenter.FirstPieceIsPreamble | src/app/api/process/route.js:99 | the first piece is the text before the first header |
| Segmenter.SinglePieceIffNoHeader | src/app/api/process/route.js:99 | there is a single piece exactly when no header occurs, and that piece is the whole text |
| Segmenter.NoHeaderNoSplit | src/app/api/process/route.js:99 | the split returns `[text]` exactly when the text has no header |
| Segmenter.BlankHasNoHeader | src/app/api/process/route.js:99 | whitespace-only text contains no header |
| Extractor.OptionIdInjective | src/app/api/process/route.js:150 | `option_${n}` determines n |
| Extractor.OptionIdsDiffer | src/app/api/process/route.js:150 | distinct indices give distinct option ids |
| Extractor.StarFreeValue | src/app/api/process/route.js:166-188 | the lazy star-free capture after a label, which ends at the next `**` or at the end of the text, contains no `*` |
| Extractor.CloseFrom | src/app/api/process/route.js:173 | the lazy capture after a bold pair stops at the first `**` or at the end of the text |
| Extractor.MatchNeedsStars | src/app/api/process/route.js:166-186 | every labelled or bold pattern can only match where `**` starts |
| Extractor.TitleMatch | src/app/api/process/route.js:160 | `^([^*]+?)\*\*`: when it matches, the capture is non-empty and star-free |
| Extractor.TitleMatchIsFirstStars | src/app/api/process/route.js:160 | `^([^*]+?)\*\*` matches exactly when the first `*` is at a position k > 0 and is followed by another `*`; the capture is then the text before k |
| Extractor.StripColonTailOfTrimmed | src/app/api/process/route.js:162 | on trimmed text, `replace(/:\s*$/, '')` removes exactly one trailing colon and nothing else |
| Extractor.Title | src/app/api/process/route.js:159-163 | the title contains no `*`, and is empty when the title expression does not match |
| Extractor.TitleValue | src/app/api/process/route.js:159-163 | when the title expression matches, the title is the trimmed capture without one final ':' |
| Extractor.Content | src/app/api/process/route.js:165-177 | the content is always trimmed |
| Extractor.LabeledField | src/app/api/process/route.js:179-189 | a note or explanation is trimmed and contains no `*` |
| Extractor.FirstLabeledIsStarFree | src/app/api/process/route.js:180 | the first labelled match's value contains no `*` |
| Extractor.OptionOf | src/app/api/process/route.js:148-191 | every section yields a standard record with id `option_{index+1}`, a star-free title, note and explanation, and trimmed text fields |
| Extractor.ParseOptionSection | src/app/api/process/route.js:148-191 | filling the record field by field yields `OptionOf(section, index)` |
| Extractor.ContentFromReply | src/app/api/process/route.js:166-170 | when `**Reply:**` matches, the content is its trimmed value |
| Extractor.ContentFromLabel | src/app/api/process/route.js:166-170 | when `**Reply:**` does not match and the first `**Label:**` does, the content is that label's trimmed value |
| Extractor.ContentFromBold | src/app/api/process/route.js:165-177 | when neither labelled expression matches and a bold pair does, the content is the trimmed text after it |
| Extractor.LabeledFieldFrom | src/app/api/process/route.js:180-188 | when the marker matches, the field is its trimmed value |
| Extractor.ContentWhenNothingMatches | src/app/api/process/route.js:165-177 | with none of the three content expressions matching, the content is empty |
| Extractor.SkipUnopened | src/app/api/process/route.js:166-186 | the search skips every `**` whose label letter no marker starts with |
| Extractor.SkipNoMatch | src/app/api/process/route.js:166-186 | a stretch with no match does not change where the leftmost match is |
| Extractor.ReplySectionTitle | src/app/api/process/route.js:159-163 | in a `Title:**\n**Reply:** r\n**Note:** n` section, the title is the title |
| Extractor.ReplySectionContent | src/app/api/process/route.js:165-170 | in such a section, the content is the reply |
| Extractor.ReplySectionNote | src/app/api/process/route.js:179-183 | in such a section, the note is the note |
| Extractor.ReplySectionExplanation | src/app/api/process/route.js:185-189 | in such a section, the explanation is empty |
| Extractor.ReplySectionRoundTrip | src/app/api/process/route.js:148-191 | parsing a section built from a star-free trimmed title, reply and note gives back exactly that record |
| Extractor.TitledBodyHasNoContent | src/app/api/process/route.js:165-177 | a `Title:**\nbody` section with star-free parts has empty content |
| Extractor.UntitledReplyLosesReply | src/app/api/process/route.js:148-191 | for a star-free reply and a non-empty trimmed star-free note, `Reply:** reply\n**Note:** note` gets the title 'Reply', the note as content and the note as note: the reply is lost |
| Process.ActionPrompt | src/app/api/process/route.js:18-78 | every template embeds the text; only the reply template carries the context, and only when the reference is truthy |
| Process.Encouragement | src/app/api/process/route.js:204-213 | a non-empty message; the default one exactly for actions outside the table |
| Process.NonBlank | src/app/api/process/route.js:99 | `filter(section => section.trim())` keeps exactly the non-blank pieces |
| Process.NonBlankAppend | src/app/api/process/route.js:99 | `filter(section => section.trim())` distributes over concatenation, so it keeps the non-blank pieces in order |
| Process.TrimEach | src/app/api/process/route.js:101-103 | the i-th text is the i-th section trimmed |
| Process.OptionsUpToAt | src/app/api/process/route.js:101-106 | the i-th option is the parse of the i-th text with index i |
| Process.OptionAt | src/app/api/process/route.js:99-108 | option i is the parse of the trimmed i-th non-blank section with index i |
| Process.OptionNumbered | src/app/api/process/route.js:101-150 | option i has id `option_{i+1}` and type standard |
| Process.OptionIdsDistinct | src/app/api/process/route.js:101-150 | the option ids of one reply are pairwise distinct |
| Process.ParseSections | src/app/api/process/route.js:101-108 | the `forEach` pushes exactly the parsed sections, in order |
| Process.ProcessAIResponse | src/app/api/process/route.js:81-118 | the options are `OptionsOf(raw)`; `totalOptions` is their number; `hasNotes` and `hasExplanations` hold exactly when some option has a note or an explanation; the encouragement is attached |
| Process.FallbackResponse | src/app/api/process/route.js:120-145 | the exception path fails with one `fallback` option holding the trimmed raw text, `totalOptions` 1 and `processingError` set |
| Process.NormalPathIsNotFallback | src/app/api/process/route.js:101-135 | no option of the normal path equals the fallback record |
| Process.BlankRawGivesNoOptions | src/app/api/process/route.js:99-108 | a whitespace-only reply gives zero options |
| Process.NoHeaderGivesOneOption | src/app/api/process/route.js:99-108 | non-blank text without a header gives one ordinary `option_1` parsed from the whole trimmed text |
| Process.PreambleIsFirstOption | src/app/api/process/route.js:99-108 | a non-blank preamble before the first header becomes the first option |
| Process.OptionJsonFields | src/app/api/process/route.js:148-156 | the JSON form of an option has its id, title, content and type; note and explanation are present, with their values, exactly for standard options |
| Process.MetadataJsonFields | src/app/api/process/route.js:110-113 | the metadata object has `totalOptions`, `hasNotes` and `hasExplanations`, and `processingError` exactly when it is set |
| Process.ProcessingInfoFields | src/app/api/process/route.js:291-296 | the processing info carries the option count, the raw length, the processing success and the save result |
| Process.OptionsJson | src/app/api/process/route.js:283 | the options' JSON forms, one per option, in order |
| Process.EntryOf | src/app/api/process/route.js:252-268 | the searchable fields summarise the result: `hasMultipleOptions` exactly when there are two or more options, the option count, the action and the success flag |
| Process.ReplyBody | src/app/api/process/route.js:277-297 | the reply carries the action and `success: true`; `result` is the first option's content or 'No result generated'; the options are the options' JSON forms, in order |
| Process.ReplyBodyReport | src/app/api/process/route.js:284-296 | the reply carries the metadata, the encouragement only when there is one, and the processing info of this reply |
| Process.MissingFieldsBody | src/app/api/process/route.js:220-225 | the 400 body's error is 'Missing required fields' and its message asks for both text and action type |
| Process.InvalidActionBody | src/app/api/process/route.js:227-233 | the 400 body says 'Invalid action' and lists the four actions |
| Process.Post | src/app/api/process/route.js:215-319 | a non-JSON or `null` body escapes the handler; missing text or action gives 400; an action outside the table gives 400 with the list; a model failure or a rejected database connection escapes the handler; otherwise the reply and the history entry are built from `OptionsOf` of the model's text, with `totalOptions` their number, `hasNotes`/`hasExplanations` exactly when some option has one, no processing error, and the action's encouragement |
| Cleaning.StripOpeningFences | src/app/api/make-polite/route.js:71 | deleting every "```json" (with an optional newline) never lengthens the text |
| Cleaning.StripClosingFences | src/app/api/make-polite/route.js:72 | deleting every "```" (with an optional newline before it) never lengthens the text |
| Cleaning.OpeningScanResult | src/app/api/make-polite/route.js:71 | cutting the text into kept characters and the fences "```json\n" or "```json", scanning left to right, the deletion leaves exactly the kept characters |
| Cleaning.ClosingScanResult | src/app/api/make-polite/route.js:72 | cutting the text into kept characters and the fences "\n```" or "```", scanning left to right, the deletion leaves exactly the kept characters |
| Cleaning.OpeningScanExists | src/app/api/make-polite/route.js:71 | every text has such a left-to-right cut for the opening fences |
| Cleaning.ClosingScanExists | src/app/api/make-polite/route.js:72 | every text has such a left-to-right cut for the closing fences |
| Cleaning.StripOpeningKeepsPlain | src/app/api/make-polite/route.js:71 | a fence-free prefix passes through the opening-fence deletion unchanged |
| Cleaning.StripClosingKeepsPlain | src/app/api/make-polite/route.js:72 | a fence-free prefix not ending in a newline passes through the closing-fence deletion unchanged |
| Cleaning.BraceSpan | src/app/api/make-polite/route.js:78-81 | `/\{[\s\S]*\}/` matches exactly when some `{` precedes some `}`, and the match is the greedy span from the first `{` to the last `}` |
| Cleaning.CleanModelText | src/app/api/make-polite/route.js:68-81 | the reassignments of `cleanedText` compute `Cleaned(text)` |
| Cleaning.WholeBraceSpan | src/app/api/make-polite/route.js:78-81 | a bare object literal is its own brace span |
| Cleaning.CleanedPlainObject | src/app/api/make-polite/route.js:68-81 | cleaning leaves a bare object literal unchanged |
| Cleaning.UnfenceText | src/app/api/make-polite/route.js:71-72 | the two deletions remove a ```json fence pair around a fence-free body |
| Cleaning.CleanedFencedObject | src/app/api/make-polite/route.js:68-81 | a fenced object literal is cleaned to the object itself |
| Cleaning.DropLeadingFence | src/app/api/reply-generate/route.js:56-58 | removing a leading fence and the whitespace after it: the rest is a suffix, only whitespace was cut after the fence, and it starts with non-whitespace |
| Cleaning.DropTrailingFence | src/app/api/reply-generate/route.js:56-58 | the text changes exactly when it ends with "```"; then the fence and the whitespace before it are cut, leaving a prefix that ends with non-whitespace |
| Cleaning.StripReplyFences | src/app/api/reply-generate/route.js:54-59 | the reassignments of `text` compute `ReplyText(raw)` |
| Cleaning.ReplyTextUnfenced | src/app/api/reply-generate/route.js:54-59 | text that does not start with a backtick is only trimmed |
| Cleaning.ReplyTextFenced | src/app/api/reply-generate/route.js:54-59 | a ```json fence pair around a trimmed body is removed, giving the body |
| Cleaning.SliceCandidate | src/app/api/evaluate/route.js:54-56 | with no `}` in the text, the slice is empty |
| Cleaning.SliceCandidateIsBraceSpan | src/app/api/evaluate/route.js:54-56 | when a `{` precedes a `}`, the slice is the greedy brace span |
| Cleaning.SliceCandidateWithoutOpening | src/app/api/evaluate/route.js:54-56 | with a `}` but no `{`, the slice is "}" when the text ends in `}` and empty otherwise |
| Cleaning.SliceCandidateOfWrapped | src/app/api/evaluate/route.js:54-56 | an object between brace-free chatter is sliced out exactly |
| Rewrite.Abbreviate | src/app/api/simplify/route.js:97-99 | the text itself when it is short enough, else its first n characters followed by '...' |
| Rewrite.FirstWordsShape | src/app/api/simplify/route.js:98 | a text of at most 15 words is kept whole; a longer one becomes a prefix of itself followed by '...' |
| Rewrite.FallbackOptions | src/app/api/make-polite/route.js:97-103 | the fallback has exactly three options |
| Rewrite.PoliteFallbackCarriesText | src/app/api/make-polite/route.js:97-103 | the three polite fallbacks are 'Please ', 'I would appreciate if you could ' and 'Would you be so kind as to ' followed by the lower-cased text, the last ending with '? Thank you very much.' |
| Rewrite.SimplifyFallbackCarriesText | src/app/api/simplify/route.js:95-100 | the three simplify fallbacks are 'Simple version: ', 'Easy to read: ' and 'Basic form: ' followed by the text cut to 100 characters, its first 15 words and the text cut to 80 characters |
| Rewrite.KeepUsable | src/app/api/make-polite/route.js:128-130 | the filter keeps exactly the non-blank strings and no more entries than it is given |
| Rewrite.KeepUsableAppend | src/app/api/make-polite/route.js:128-130 | the filter distributes over concatenation, so order is kept |
| Rewrite.KeepUsableOfUsable | src/app/api/make-polite/route.js:128-130 | the filter leaves an all-usable list unchanged |
| Rewrite.Padded | src/app/api/make-polite/route.js:112-120 | the first loop keeps the list and appends the templates by position up to three entries |
| Rewrite.Refilled | src/app/api/make-polite/route.js:133-135 | the last loop keeps the list and appends "… version k: …" with k = position + 1 up to three entries |
| Rewrite.RepairOptions | src/app/api/make-polite/route.js:107-135 | the loops compute `Repaired`; the result has exactly three usable entries and starts with the usable entries among the first three given |
| Rewrite.RefillUsable | src/app/api/make-polite/route.js:134 | every refill template is a non-blank string |
| Rewrite.RepairedAllUsable | src/app/api/make-polite/route.js:111-135 | the repair always yields exactly three non-blank strings |
| Rewrite.RepairedKeepsUsablePrefix | src/app/api/make-polite/route.js:122-130 | the usable entries among the first three lead the result in their original order |
| Rewrite.RepairedKeepsGoodOptions | src/app/api/make-polite/route.js:111-135 | three usable leading options are returned as they are |
| Rewrite.AsJson | src/app/api/make-polite/route.js:97-103 | strings become JSON strings elementwise |
| Rewrite.FallbackSurvivesRepair | src/app/api/make-polite/route.js:97-135 | the repair leaves the fallback options unchanged |
| Rewrite.ReplyOptionsShape | src/app/api/make-polite/route.js:85-135 | three non-blank options; an accepted parse's usable first entries lead them; a rejected parse gives the fallback |
| Rewrite.ReplyObject | src/app/api/make-polite/route.js:85-135 | the wrapped object keeps the parse's other keys and replaces `options` with the repaired list; the fallback object has only `options` |
| Rewrite.Post | src/app/api/make-polite/route.js:8-150 | an invalid `PRIMARY_TEXT` gives 400 before any model call; a missing key gives 500; otherwise 200 with `{route: ReplyObject(…)}` of the cleaned reply, or 500 when the model fails |
| FixGrammar.FallbackFields | src/app/api/fix-grammar/route.js:95-102 | the fallback has exactly the keys corrected, errors and tips |
| FixGrammar.Defaulted | src/app/api/fix-grammar/route.js:106-124 | after defaulting, `corrected` is a non-empty string, `errors` an array and `tips` a non-empty array; each default applies exactly when the field has the wrong shape; other keys are kept |
| FixGrammar.RepairFields | src/app/api/fix-grammar/route.js:106-124 | patching `aiResponse` in place computes `Defaulted` |
| FixGrammar.FallbackIsFinal | src/app/api/fix-grammar/route.js:95-124 | the fallback needs no defaulting |
| FixGrammar.AcceptedKeepsArrays | src/app/api/fix-grammar/route.js:86-124 | an accepted parse keeps its `errors`, its non-empty `tips` and its string `corrected` |
| FixGrammar.Post | src/app/api/fix-grammar/route.js:8-140 | an invalid `PRIMARY_TEXT` gives 400; a missing key gives 500; otherwise 200 with `{'fix-grammar': …}` of the defaulted fields, or 500 when the model fails |
| ReplyGenerate.ReplyPrompt | src/app/api/reply-generate/route.js:25-31 | the context block is present exactly when `contextText` is truthy |
| ReplyGenerate.CatchBody | src/app/api/reply-generate/route.js:96-106 | an error naming the API key gives the configuration message; any other gives the generic one |
| ReplyGenerate.Suggestions | src/app/api/reply-generate/route.js:62-82 | a failed parse gives the three fixed replies; a parsed value is kept exactly when it is a non-empty array |
| ReplyGenerate.FencedArrayParsed | src/app/api/reply-generate/route.js:54-90 | a fenced non-empty array reaches the parser without its fences and is returned unchanged |
| ReplyGenerate.Post | src/app/api/reply-generate/route.js:8-108 | a missing or blank `inputText` gives 400; an invalid array gives 500; otherwise 200 with `{'reply-suggestion': {options}}` |
| Evaluate.FallbackEvaluation | src/app/api/evaluate/route.js:61-67 | score 7, `improved` is the submitted answer, one mistake and two strengths |
| Evaluate.Post | src/app/api/evaluate/route.js:8-79 | a missing question or answer gives 400; otherwise 200 with the parse of the `indexOf('{')`..`lastIndexOf('}')` slice or the fallback, or 500 when the model fails |
| Evaluate.EvaluationOfBraceSpan | src/app/api/evaluate/route.js:54-68 | when a `{` precedes a `}`, the evaluation is the parse of the greedy brace span, or the fallback when it does not parse |
| Evaluate.NoClosingBraceFallsBack | src/app/api/evaluate/route.js:54-68 | with no `}` in the reply, the empty slice fails to parse and the fallback is returned |
| Evaluate.WrappedObjectReturned | src/app/api/evaluate/route.js:54-70 | an object between brace-free chatter is returned as parsed, without validation |
| GrammarCheck.FallbackCheck | src/app/api/grammar-check/route.js:57-62 | `corrected` is the input text, one error, one tip, `isCorrect` false |
| GrammarCheck.Post | src/app/api/grammar-check/route.js:8-74 | a missing text gives 400; otherwise 200 with the parse of the `indexOf('{')`..`lastIndexOf('}')` slice or the fallback, or 500 when the model fails |
| GrammarCheck.CheckResultOfBraceSpan | src/app/api/grammar-check/route.js:51-62 | when a `{` precedes a `}`, the result is the parse of the greedy brace span, or the fallback when it does not parse |
| GrammarCheck.NoClosingBraceFallsBack | src/app/api/grammar-check/route.js:51-62 | with no `}` in the reply, the fallback is returned |
| GrammarCheck.WrappedObjectReturned | src/app/api/grammar-check/route.js:51-65 | an object between brace-free chatter is returned as parsed, without validation |
| Question.TypeNamed | src/app/api/generate-question/route.js:22-139 | a name reaches a `case` only when it is that type's name |
| Question.TypeNameRoundTrip | src/app/api/generate-question/route.js:15-139 | every type is reached by its own name |
| Question.SelectType | src/app/api/generate-question/route.js:10-139 | an absent type or 'random' takes the rolled type; the request fails exactly when the type is present, not 'random', and not a known name |
| Question.RandomReachesEveryType | src/app/api/generate-question/route.js:15-18 | every type is reached by some roll |
| Question.QuestionPrompt | src/app/api/generate-question/route.js:10-136 | a falsy topic gives the type's default topic; the difficulty defaults to 'beginner' only when absent |
| Question.PoolOf | src/app/api/generate-question/route.js:177-238 | each type has two fallback questions |
| Question.PoolJson | src/app/api/generate-question/route.js:177-238 | a pool entry's `type` names its pool |
| Question.FallbackPool | src/app/api/generate-question/route.js:239-240 | the selected pool has two entries, each typed with the selected type |
| Question.FallbackMatchesType | src/app/api/generate-question/route.js:166-240 | on a failed parse the question comes from the selected type's pool and its `type` names that type |
| Question.Post | src/app/api/generate-question/route.js:8-252 | an unknown type gives 500; otherwise 200 with the parse of the `indexOf('{')`..`lastIndexOf('}')` slice or a question from the type's pool, or 500 when the model fails |
| Question.QuestionOfBraceSpan | src/app/api/generate-question/route.js:166-240 | when a `{` precedes a `}`, the question is the parse of the greedy brace span, or the rolled pool question when it does not parse |
| Question.NullTypeFails | src/app/api/generate-question/route.js:10-250 | an explicit `null` type is not defaulted, selects no type, and the request ends in 500 |
| Page.Contents | src/app/page.js:47 | `options.map(option => option.content)` succeeds exactly when no element is `null`, giving each element's content in order |
| Page.OptionList | src/app/page.js:47 | a present array gives its contents (an empty array included); an absent or `null` one gives `[data.result]`; anything else throws |
| Page.OptionCount | src/app/page.js:49-65 | the array's length when it is a non-empty array; 1 when it is absent, `null` or empty |
| Page.Explanation | src/app/page.js:87-99 | the action's line (or the generic one) with the count written in decimal |
| Page.ExplanationInjective | src/app/page.js:87-99 | for one action, the explanation determines the count |
| Page.Handle | src/app/page.js:21-67 | transport and HTTP failures throw with their message; a `null` body throws a TypeError; a falsy `success` throws the body's message or 'Failed to process text'; success exactly for a truthy `success` with readable options, giving `result`, the options, `options`/`encouragement`/`metadata` or their defaults, the explanation and the history item |
| Page.OrDefault | src/app/page.js:47-52 | the `or` default: the value when it is truthy, the fallback otherwise |
| Page.ErrorText | src/app/page.js:71 | the thrown message, or the generic one when it is empty |
| Page.Prepend | src/app/page.js:67 | the new item first, then the newest old items, at most ten in all |
| Page.RequestBodyAccepted | src/app/page.js:27-31 | the body the page sends passes the process route's validation, and the reference reaches the reply prompt exactly when it is not blank |
| Page.Flipped | src/app/page.js:113-116 | only the given key's flag is flipped |
| Page.FlippedTwice | src/app/page.js:111-117 | flipping a key twice restores every flag |
| Page.OptionKeysDistinct | src/app/page.js:112 | distinct (action, index) pairs have distinct keys |
| Page.Home.constructor | src/app/page.js:6-13 | the initial state, with an empty history |
| Page.Home.SetInputText | src/app/page.js:6 | only the input text changes |
| Page.Home.SetReferenceText | src/app/page.js:7 | only the reference text changes |
| Page.Home.ProcessText | src/app/page.js:15-85 | `BeginRequest`, the request and `FinishRequest` in sequence: a blank input changes nothing; otherwise only `results[action]` is replaced, success prepends the history item and leaves the error cleared, failure stores the error record and message, and the loading flag ends false; the history stays within ten |
| Page.Home.BeginRequest | src/app/page.js:15-19 | a blank input starts nothing and changes nothing; otherwise the action's loading flag is raised and the error line cleared while the request is in flight, and nothing else changes |
| Page.Home.FinishRequest | src/app/page.js:21-84 | a success replaces `results[action]` with the record and prepends the history item; a failure stores the error record and message; the action's loading flag is lowered and nothing else changes |
| Page.Home.ToggleOptionDetails | src/app/page.js:111-117 | the expanded flags become `Flipped(old, key)`; nothing else changes |
| Page.Home.ClearAll | src/app/page.js:119-125 | texts, results, history and error are reset; loading and expanded flags are kept |
| HistorySection.Toggled | src/app/components/HistorySection.jsx:23-33 | the id's membership is flipped and every other id's is kept |
| HistorySection.ToggledTwice | src/app/components/HistorySection.jsx:23-33 | toggling an id twice restores the set |
| HistorySection.Panel.ToggleExpanded | src/app/components/HistorySection.jsx:23-33 | copying and then adding or deleting yields `Toggled(old, id)` |
| HistorySection.GetActionConfig | src/app/components/HistorySection.jsx:45-69 | a configured action gets its own entry; an unconfigured one gets the history icon in blue with its own name, and only those get that icon |
| HistorySection.RouteKeysConfigured | src/app/components/HistorySection.jsx:45-69 | the configured keys are exactly the keys the four JSON routes wrap their replies in |
| HistorySection.FormatResult | src/app/components/HistorySection.jsx:71-80 | non-strings are kept; a string becomes its parse when it parses and is kept otherwise |
| HistorySection.FormatResultSettles | src/app/components/HistorySection.jsx:71-80 | once formatting yields a non-string, formatting again changes nothing |
| HistorySection.CopyIdsDistinct | src/app/components/HistorySection.jsx:19-21 | with dash-free item ids, equal copy ids come from the same type, index and item, even for types containing dashes |

## Left out

- The Gemini calls are left out. `generate` stands for the model and returns text or a failure message. Prompt prose is not modelled; each prompt is a record of what it embeds.
- The MongoDB history store (`lib/database.js`) and its calls are left out. The process `POST` takes whether `databaseService.connect()` resolves and whether the save succeeded.
- `JSON.parse` is left out. It is the function parameter `parse`, with no JSON grammar.
- Timestamps (`new Date()`, `Date.now()`), the history item `id`, request headers and `console` logging are left out. They are non-deterministic or effect-only.
- `Math.random` is not modelled as a random source. The generate-question route takes the index it yields.
- Strings are sequences of characters, not UTF-16 code units, so surrogate pairs are not modelled. Whitespace is the fixed set JavaScript's `trim` and `\s` use.
- JsString.ToLower: lower-cases ASCII letters only, not the full Unicode mapping of `toLowerCase`.
- Property lookup does not model keys inherited from `Object.prototype`. An action named `constructor`, say, behaves here as an unknown action, while in JavaScript the lookup tables return an inherited member.
- The `catch` branches of `processAIResponse` and `parseOptionSection` cannot be reached from string input. `Process.FallbackResponse` states the record the first would build, and the second (`type: 'unparsed'`) is not modelled.
- The process `POST`'s `catch` refers to an out-of-scope `action` and throws a ReferenceError. It is modelled as an `Unhandled` outcome, without the framework's own 500 page.
- The process route nests its options under `processedData`. The model flattens them into the structured response and keeps the same fields.
- Page.Handle: the wording of the TypeError the engine throws when the page reads a property of `null` is replaced by a fixed constant.
- `handleCopy` and `copyToClipboard`, the clipboard, the two-second timers and `copiedOption`/`copiedId` are left out. They are clipboard I/O and timers.
- `formatDate` and the rendering of results and history items are left out. They are UI only.
- The translate route is left out. It only trims the model's text and echoes the request fields.
- The english-practice page (speech recognition and timer-driven evaluation) is left out. It is event and timer concurrency.
- Header, theme toggle, navigation, input form, output display, result card and action buttons components are left out. They are UI rendering.
- The `GET` handlers (method not allowed, health check) are left out. They carry no logic.
- Rewrite.Post: a request body that is not JSON or is `null` is treated as a thrown destructuring error, as in the source. The JSON parser's message wording is not part of this model.
- `Json.JNum` holds integers only. JavaScript numbers are doubles; counts and statuses are the only numbers the core builds.
- ReplyGenerate.Post: the engine's own message for a body that is not JSON is not modelled, so its check for the words 'API key' in that message is not either.
- Page.OptionCount: a truthy `options` that is not an array never reaches it, because `options.map` throws first.
