# Case viewer decision rules

A model of the decision logic inside the browser case viewer's `ui/app.js`.
The viewer shows one case's documents and gates its evidence files by a
clearance level kept in the page's storage. An investigator's report, once
accepted, raises that level to at least 1. Around this logic the file is DOM and fetch glue,
which the model leaves out.

Modules, one per concern of `ui/app.js`:

- `Wrappers`: `Option`, standing in for `undefined`/`null`, for `??` and for an absent storage key.
- `Html`: `escapeHtml` and `renderText`. Escaping is a per-character rewrite through the five-entry entity table. `Unescape` is its reference inverse, the decoder of those five entities.
- `Evidence`: the registry item, the two filters of `evidenceList` (`Visible`, `Locked`), and the "T-401" timeline gate of `openTimeline`.
- `Submission`: JavaScript's `String.prototype.trim` (ECMAScript WhiteSpace and LineTerminator characters), `evaluateSubmission`, and the newline-joined report text the form builds.
- `Progress`: the decimal text the level is stored as, and the class `ClearanceStore`. That class holds the optional value under the key `case_progress_v1`, with `getProgress`, `setProgress` and `resetProgress` as methods. The module also has the advancement rule `Math.max(stored, advanceTo ?? stored)` and the file-report handler as a method taking the four form field values.

The store keeps the stored TEXT (`Option<string>`), not a number, because the
page's storage holds strings. `setProgress` writes `String(n)` and
`getProgress` reads `Number(item || "0")`. This is why the model proves that
writing a level and reading it back gives the same level (`DecimalRoundTrip`).

The model follows the code of `evaluateSubmission` (ui/app.js:105-111).
The comment at line 107 speaks of advancing "up to 2"; the code at line 110
always answers `advanceTo: 1` and has no cap. A non-blank report is accepted
with target level 1 and a blank one is rejected.

The timeline gate tests `item.unlocks_at > p` without the `?? 0` default that
the evidence filters use. A missing threshold therefore never blocks the
timeline (`undefined > p` is false). A JSON `null` threshold compares as 0
instead; `None` stands for both, which agree at every non-negative level. Because levels are never negative, an
opened timeline is always the document of a visible item
(`TimelineGrantedIsVisible`), and the timeline opens whenever the first
"T-401" item is visible (`TimelineFirstVisibleIsGranted`). Only the first such
item matters: a later "T-401" item that is visible does not open the timeline.

## Model

| member | source | states |
|---|---|---|
| Html.EscapeHtml | ui/app.js:14-15 | a missing argument or the empty string escapes to the empty string |
| Html.EscapeIsSafe | ui/app.js:14-18 | the output never contains `<`, `>`, `"` or `'`, and every `&` in it opens one of `&amp;`, `&lt;`, `&gt;`, `&quot;`, `&#39;` |
| Html.EscapeRoundTrip | ui/app.js:14-18 | decoding the five entities in the escaped text gives back the input exactly: every other character is copied unchanged and in order |
| Html.EscapeIdentity | ui/app.js:14-18 | the text comes back unchanged if and only if it holds none of the five special characters |
| Html.EscapeLength | ui/app.js:14-18 | escaping never shortens the text, and keeps its length exactly when nothing is replaced |
| Html.EscapeConcat | ui/app.js:15 | the global replace acts on each character alone: escaping a concatenation is the concatenation of the escapes |
| Html.RenderText | ui/app.js:21-24 | the result is one `<pre>` element whose content is safe text (as in EscapeIsSafe) and decodes back to the document text, with a missing text read as empty |
| Evidence.Visible | ui/app.js:48 | an item is in the visible list exactly when it is in the registry and `(unlocks_at ?? 0) <= progress` |
| Evidence.Locked | ui/app.js:49 | an item is in the locked list exactly when it is in the registry and `(unlocks_at ?? 0) > progress` |
| Evidence.PartitionIsInterleaving | ui/app.js:47-49 | the registry is an order-preserving merge of the visible and locked lists, and their multisets add up to the registry's: every item lands in exactly one list and each list keeps registry order |
| Evidence.VisibleMonotone | ui/app.js:48 | raising the level never removes an item from the visible list: the old list is a subsequence of the new one |
| Evidence.LockedAntitone | ui/app.js:49 | raising the level only removes items from the locked list: the new list is a subsequence of the old one |
| Evidence.FindIndex | ui/app.js:135 | `find` stops at the first item with the given id, and finds nothing exactly when no item has it |
| Evidence.TimelineGate | ui/app.js:135-141 | the timeline is denied exactly when no item has id "T-401" or the first such item's `unlocks_at` exceeds the level; otherwise that item's path is opened |
| Evidence.TimelineGrantedIsVisible | ui/app.js:135-137 | at any non-negative level, an opened timeline is the document of a "T-401" item in the visible list |
| Evidence.TimelineFirstVisibleIsGranted | ui/app.js:135-137 | at any non-negative level, when the first "T-401" item is in the visible list the gate opens that item's path |
| Submission.Trim | ui/app.js:108 | `trim` gives the slice left after dropping the whitespace run at each end; the slice has whitespace at neither end and is empty exactly when the text is all whitespace |
| Submission.EvaluateSubmission | ui/app.js:105-111 | the report is rejected with "Submission rejected: missing hypothesis." and no target if and only if its text (missing read as empty) is blank after trimming; otherwise it is accepted with the acceptance message and `advanceTo` 1 |
| Submission.ReportRejectedIffBlank | ui/app.js:152-157 | a report built from the four fields joined with newlines is rejected exactly when all four fields are blank |
| Submission.FormReportAccepted | ui/app.js:88-93 | a confidence value is always "Low", "Medium" or "High", so a report filed from the form is always accepted with `advanceTo` 1 |
| Progress.NatToDecimal | ui/app.js:7 | `String(n)` is a non-empty string of decimal digits with no leading zero |
| Progress.DecimalRoundTrip | ui/app.js:4-7 | reading back the decimal text of a level gives that level |
| Progress.ClearanceStore.constructor | ui/app.js:1-4 | the store starts with whatever decimal text the page's storage already held under the key |
| Progress.ClearanceStore.GetProgress | ui/app.js:3-5 | returns the stored level; an absent key reads as 0 |
| Progress.ClearanceStore.SetProgress | ui/app.js:6-8 | stores the decimal text of `n`, after which the level reads `n` |
| Progress.ClearanceStore.ResetProgress | ui/app.js:9-11 | removes the key, after which the level reads 0; the new state does not depend on the old, so resetting twice is resetting once |
| Progress.Advance | ui/app.js:164 | the new level is at least the stored level, equals it when no target is given, and is otherwise the larger of the stored level and the target |
| Progress.AdvanceIdempotent | ui/app.js:164-165 | applying the same advancement twice gives the level applying it once does |
| Progress.FileReport | ui/app.js:151-170 | the result is the evaluation of the joined report. A rejected report leaves the store untouched. An accepted one stores the decimal text of the advanced level and returns that level. The level never decreases, and a report with a selector confidence value raises it to at least 1 |

## Left out

- `loadRegistry` and `loadDoc` (ui/app.js:26-36): network fetches and asynchronous control flow. The registry and documents appear in the model only as values passed in.
- DOM access and the async `main` wiring (ui/app.js:13, 38-45, 113-209): `$`, `setViewer`, `setPanel`, event listeners, view navigation and `location.reload`. They hold no decision logic beyond the rules modelled.
- The HTML markup built by `evidenceList`'s `mk` and `lockedBlock` templates and by `submitForm` (ui/app.js:51-72, 75-103): presentation text.
- `Number(...)` on stored text holding anything but decimal digits: it gives NaN, or a negative, fractional, exponent or hex-read level. `ClearanceStore.Valid` keeps the stored value to decimal digits.
- Progress.DecimalToNat: reads digits exactly with unbounded integers. JavaScript numbers lose precision above 2^53, which is floating point and not modelled.
- Progress.FileReport: line 164 holds a second `getProgress()` call, which runs only when `advanceTo` is missing, and that never happens (an accepted result always carries `advanceTo: 1`). The model reads the store once.
- UTF-16 code units: characters here are Unicode scalar values. JavaScript strings are UTF-16 code units, but the escaper's five characters and the trim whitespace set all lie in the Basic Multilingual Plane, so the rules do not depend on the difference.
- `localStorage` itself: it is replaced by the `item` field of `ClearanceStore`.
