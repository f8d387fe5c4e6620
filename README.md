# tsukiyomi reader core in Dafny

tsukiyomi is a browser e-book reader for vertical Japanese text. It turns
plain-text and HTML files into books made of chapters, and it imports and
exports `.zip` bundles of a book with its settings and reading progress.
It pages through a book by tap, wheel and swipe, and it remembers the last
book and where the reader was. This project models the logic of that
reader apart from the DOM, the file APIs and the timers, and proves
properties of the model.

One Dafny module per source file. Each module takes the source file's
form: closure state that event handlers update is a class whose methods
are the handlers, loops are methods with invariants, and expression-only
code is functions with lemmas.

- `common.dfy` (`Common`): JavaScript values as used by the source:
  - `Option`/`Result`, JSON values and objects, truthiness;
  - `Number(x)` including numeric strings, `Number(x) || d`, `Math.round`, UTF-16 length;
  - decimal printing of naturals and its inverse.
- `book.dfy` (`BookModel`): the book record, toc entries, bundle meta, and
  the `chapter-NNN` ids with `章N` labels.
- `utils.dfy` (`Utils`): `escapeHtml`, `trim`, `safeText` and the
  extension-stripping regular expression.
- `normalize_txt.dfy` (`NormalizeTxt`): the plain-text importer. It is a
  state-machine object whose methods are proved against `Flush`/`Start`/
  `Step`. The resulting chapters are proved equal to an independent
  description of the input: a chapter per `# ` line, paragraphs as maximal
  runs of non-blank lines.
- `library.dfy` (`Library`): counting U+FFFD, the choice between the UTF-8
  and the Shift_JIS decoding with its debug report, and normalising an HTML
  document's chapters in place.
- `storage.dfy` (`Storage`): bundle import and export, toc regeneration,
  and the export/import round trip.
- `paging.dfy` (`Paging`): the wheel/touch horizontal pager.
- `reader.dfy` (`Reader`): tap zones and touch tracking, display-mode
  bindings, wheel remapping, the current-chapter scan, the progress
  payload and its restore, the throttle, and the settings form.
- `app.dfy` (`App`): the application session:
  - applying a book and merging updates;
  - the book fingerprint;
  - saving progress and the last-book cache;
  - the start-up restore and the one-shot status message.

Outside effects are handled as follows:

- JavaScript numbers are `real`; a value that `Number()` turns into NaN is
  `ToNumber(..) == None`. Strings are read by the numeric-literal grammar
  of ECMAScript (whitespace, sign, fraction, exponent, `0x`/`0o`/`0b`).
  `Math.round(x)` is `floor(x + 1/2)`.
- Object spread `{...a, ...b}` is map union `a + b`.
- Timers are explicit events: `LockTimerFires`, `Throttle.Fire`.
- `Date.now()` and ISO timestamps are arguments.
- `localStorage` is a map whose writes may fail through a boolean argument.
- The decoders, `JSON`, `DOMParser` and the zip library are inputs or
  function parameters.

Facts about the code that the model keeps:

- The default chapter titles are `本文` (text before the first heading)
  and `章N`.
- The tap bands split at 0.33 and 0.66 of the width.
- The wheel pager of js/paging.js is a module of its own. js/reader.js
  does not import it, so the `scrollX` mode only remaps the wheel.
- With empty input the importer's `本文` chapter comes from the implicit
  first chapter, because the single empty line opens it. The zero-chapter
  fallback of js/normalize-txt.js is never reached.
- The horizontal slider is disabled at once when the mode becomes
  `scrollY`. The refresh scheduled two frames later, and run again on
  resize, disables it exactly when nothing overflows, in any mode
  (`Reader.ReaderView.RefreshHScroll`).

## Model

| member | source | states |
|---|---|---|
| Common.Round | js/paging.js:29 | `Math.round` lands within half of its argument, with halves rounding up |
| Common.NumberOr | js/app.js:140-142 | `Number(x)` or else `d`: the number `Number` reads, numeric strings included, when it is non-zero; the default when it is NaN, missing or zero |
| Common.StringToNumber | js/app.js:140-142 | `Number` of a blank string is 0 |
| Common.NumberOfNatString | js/app.js:140-142 | a decimal integer, signed or not, with whitespace around it, reads as its value (what `String(n)` prints, `Number` reads back) |
| Common.NumberOfDecimalString | js/reader.js:140-142 | a decimal fraction such as `1.8` reads as its integer digits plus its fraction digits over the matching power of ten |
| Common.NumberOfRadixString | js/storage.js:87-89 | a `0x`, `0o` or `0b` literal reads as its digits in base 16, 8 or 2 |
| Common.Utf16Length | js/app.js:106 | string length in UTF-16 code units is between the code-point count and twice it |
| Common.NatToStringInjective | js/app.js:107 | distinct counts print as distinct decimal strings (via a parse-after-print round trip) |
| Common.RoundToMultiple | js/paging.js:33-37 | rounding `x / w` and scaling back lands within half a page width of `x` |
| BookModel.Pad3 | js/normalize-txt.js:57 | `padStart(3, "0")` keeps strings of 3 or more and left-pads shorter ones with zeros |
| BookModel.ChapterIdShape | js/normalize-txt.js:57 | every synthesized id starts with `chapter-` and has at least three digits |
| BookModel.ChapterIdInjective | js/normalize-txt.js:56-59 | equal synthesized ids come from equal chapter numbers |
| BookModel.ChapterIdsDiffer | js/normalize-txt.js:56-59 | different chapters never get the same synthesized id |
| Utils.EscapeHtmlChainIsMap | js/utils.js:9-16 | the five `replace` calls, `&` first, equal a per-character escape map, so nothing is escaped twice |
| Utils.EscapeHtmlAppend | js/utils.js:9-16 | escaping distributes over concatenation |
| Utils.EscapeHtmlSafe | js/utils.js:9-16 | escaped text holds no `<`, `>`, `"` or `'` and is never shorter than the input |
| Utils.EscapeHtmlIdentity | js/utils.js:9-16 | text with none of the five special characters is unchanged |
| Utils.UnescapeEscape | js/utils.js:9-16 | decoding the five entities gives back the original text (escaping loses nothing) |
| Utils.ReplaceCharAppend | js/utils.js:11 | a global single-character `replace` distributes over concatenation |
| Utils.ReplaceCharAbsent | js/utils.js:11 | a global `replace` of an absent character changes nothing |
| Utils.TrimSpec | js/utils.js:37 | trimmed text starts and ends with non-whitespace, and is empty exactly when the input is all whitespace |
| Utils.TrimIsSubstring | js/utils.js:37 | `trim` removes only leading and trailing whitespace |
| Utils.TrimIdempotent | js/utils.js:37 | trimming twice is trimming once |
| Utils.TrimPadded | js/utils.js:37 | `trim` removes exactly the whitespace around a string whose ends are not whitespace |
| Utils.SafeTextCases | js/utils.js:36-39 | `safeText` gives the fallback for blank text, a trimmed non-empty string otherwise, and is non-empty when the fallback is |
| Utils.SafeTextIdempotent | js/utils.js:36-39 | applying `safeText` again with a trimmed fallback changes nothing |
| Utils.SafeTextOfTrimmed | js/utils.js:36-39 | already-trimmed non-empty text passes through unchanged |
| Utils.LastDot | js/normalize-txt.js:68 | the index of the last `.`, with no `.` after it |
| Utils.StripExtension | js/normalize-txt.js:68 | `replace(/\.[^.]+$/, "")` removes exactly a final `.` plus at least one non-dot character, or nothing |
| NormalizeTxt.NormalizeNewlinesNoCr | js/normalize-txt.js:4 | after the two replacements no `\r` is left |
| NormalizeTxt.ReplaceCharRemoves | js/normalize-txt.js:4 | replacing a character by text without it removes it entirely |
| NormalizeTxt.SplitLines | js/normalize-txt.js:4 | `split("\n")` gives at least one line and no line holds a newline |
| NormalizeTxt.JoinSplitLines | js/normalize-txt.js:4 | joining the split lines with `\n` gives the text back |
| NormalizeTxt.SplitJoinLines | js/normalize-txt.js:4 | splitting newline-free lines joined by `\n` gives the lines back |
| NormalizeTxt.MatchAt | js/normalize-txt.js:15 | a ruby match at the start is `｜`, a base of at least one character, `《`, a reading of at least one character, `》`, all on one line |
| NormalizeTxt.RubyRewriteNoMatch | js/normalize-txt.js:15 | text where the pattern matches nowhere is left unchanged |
| NormalizeTxt.RubyRewriteWithoutBar | js/normalize-txt.js:15 | text without `｜` gets no `<ruby>` |
| NormalizeTxt.RubyRewriteSimple | js/normalize-txt.js:15 | `｜base《reading》` becomes `<ruby>base<rt>reading</rt></ruby>` and the rewrite continues after it |
| NormalizeTxt.Flush | js/normalize-txt.js:10-19 | flushing never adds or removes a chapter |
| NormalizeTxt.Start | js/normalize-txt.js:21-29 | starting a chapter adds exactly one |
| NormalizeTxt.CollectChapters | js/normalize-txt.js:50-54 | the importer always yields at least one chapter |
| NormalizeTxt.TxtBuilder.constructor | js/normalize-txt.js:5-8 | no chapters, no pending lines, chapter index 0 |
| NormalizeTxt.TxtBuilder.FlushParagraph | js/normalize-txt.js:10-19 | the new state is `Flush` of the old one, and the chapter index still counts the chapters |
| NormalizeTxt.TxtBuilder.StartChapter | js/normalize-txt.js:21-29 | the new state is `Start` of the old one (flush, then a chapter titled `safeText(title, 章N)`) |
| NormalizeTxt.TocOf | js/normalize-txt.js:56-59 | one toc entry per chapter, in order, with id `chapter-` + (i+1) padded and the chapter's title |
| NormalizeTxt.SectionsOf | js/normalize-txt.js:61-65 | one section per chapter, in order, each carrying the same id as the toc entry |
| NormalizeTxt.TocIdsDistinct | js/normalize-txt.js:56-59 | no two toc entries share an id |
| NormalizeTxt.NormalizeTxtToBook | js/normalize-txt.js:3-73 | the loop over lines yields the toc and html of the collected chapters, at least one toc entry, the title from the filename or `Untitled`, and no meta |
| NormalizeTxt.FlushIdempotent | js/normalize-txt.js:10-18 | flushing twice is flushing once: an empty buffer never yields a paragraph |
| NormalizeTxt.FlushBeforeHeading | js/normalize-txt.js:22 | pending lines are flushed into the chapter that was current before a `# ` line |
| NormalizeTxt.ChapterRun | js/normalize-txt.js:31-48 | a `# ` line followed by body lines yields one chapter titled from the line, with the body's paragraphs |
| NormalizeTxt.ImplicitRun | js/normalize-txt.js:38-40 | lines before the first `# ` line, blank or not, form the implicit `本文` chapter |
| NormalizeTxt.RunMatchesBookChapters | js/normalize-txt.js:31-50 | the state machine's chapters equal the independent description (implicit chapter, then one per `# ` line) |
| NormalizeTxt.CollectChaptersIsBookChapters | js/normalize-txt.js:4-54 | for the importer's own line splitting, the collected chapters are the described ones, at least one |
| NormalizeTxt.ChapterTitles | js/normalize-txt.js:21-40 | chapter titles are `本文` (when the text does not start with `# `) followed by each heading's `safeText(text, 章N)`, N counting all chapters |
| NormalizeTxt.ChapterCount | js/normalize-txt.js:31-54 | one chapter per `# ` line plus one when the first line is not a heading |
| NormalizeTxt.RunsPartitionBody | js/normalize-txt.js:42-47 | paragraphs are non-empty runs of non-blank lines that together hold every non-blank body line once, in order |
| Storage.GenerateTocEntries | js/storage.js:114-125 | one entry per section: a non-empty id attribute or `chapter-NNN`, title the trimmed first `h1` or `章N`, never empty |
| Storage.GenerateTocSynthesizedDistinct | js/storage.js:120 | two sections whose id attribute is missing or empty get different synthesized ids |
| Storage.ChapterLabelTrimmed | js/storage.js:123 | the `章N` fallback survives `safeText` unchanged |
| Storage.ImportZipToBook | js/storage.js:22-55 | fails without the zip library, without either entry, on bad JSON, or unless `formatVersion` is 1; otherwise the book has the archive's html, `meta.toc` or a regenerated toc, `safeText(meta.title, "Untitled")`, the meta and its settings/progress |
| Storage.ExportProgress | js/storage.js:82-85 | exported progress holds exactly `chapterId` (default `chapter-001`) and `scrollTop` (0 unless a number) |
| Storage.ExportSettings | js/storage.js:86-91 | exported settings hold exactly the four keys, with 100/1.8/0/`light` for NaN, zero or missing values |
| Storage.ExportMeta | js/storage.js:78-93 | format version 1, a non-empty title (the book's when it has one), the export time, the book's toc, and the settings and progress cleaned from the given objects or from the defaults when none are given |
| Storage.ExportZipFromBook | js/storage.js:57-99 | fails without the zip library or without a book; otherwise exactly `book.html`, the trimmed `style.css`, `meta.json` and the `assets` folder |
| Storage.ExportImportRoundTrip | js/storage.js:44-98 | importing an export gives back the html, the toc (regenerated when it was empty), a trimmed title, and the exported settings and progress |
| Library.CountReplacement | js/library.js:75-81 | the counting loop returns the number of U+FFFD characters |
| Library.ScoreZero | js/library.js:75-81 | the count is 0 exactly when there is no U+FFFD |
| Library.StripBom | js/library.js:87 | exactly one leading U+FEFF is removed |
| Library.ReplaceCrLfOrCrIsNormalizeNewlines | js/library.js:87 | `replace(/\r\n?/g, "\n")` agrees with the text importer's two replacements |
| Library.CleanDecodedIsNormal | js/library.js:95 | a cleaned candidate holds no `\r`, and normalising it again changes nothing |
| Library.Head | js/library.js:111 | the head is a prefix of the text of length `min(len, 200)` |
| Library.EncodingName | js/library.js:109 | encoding names hold no newline |
| Library.ModeOf | js/library.js:102-107 | only the exact strings `utf-8` and `shift_jis` force an encoding |
| Library.DecodeTxtAutoChoice | js/library.js:102-110 | the text is the cleaned candidate of the reported encoding; `utf-8` forces UTF-8; `shift_jis` forces Shift_JIS when that decode succeeded; otherwise Shift_JIS is picked iff usable with a strictly lower score |
| Library.DecodeTxtAutoBest | js/library.js:109-110 | unless forced, the pick has the lowest score, and a clean UTF-8 decoding is always kept |
| Library.ScoreLineShape | js/library.js:115 | the score line ends in `N/A` exactly when the Shift_JIS decode failed, and holds no newline |
| Library.FormatDebugLines | js/library.js:122-128 | the report is three lines: the picked encoding, the scores, and `head: ` plus the first 200 characters |
| Library.DecodeTxtAutoDebug | js/library.js:111-119 | every result's debug report names its own encoding, says `N/A` iff Shift_JIS failed, and shows the head of the returned text |
| Library.DecodeTxtAutoReport | js/library.js:102-119 | the forced and the automatic paths build the same report from the chosen encoding, both scores and the chosen text |
| Library.HtmlDocument.constructor | js/library.js:131-137 | the document holds the parsed chapters and body |
| Library.HtmlDocument.WrapBody | js/library.js:139-153 | the whole body moves into one new chapter under a heading, and the body is emptied |
| Library.HtmlDocument.SetChapterId | js/library.js:156-158 | only chapter i changes: its `id` and `data-chapter` become the id |
| Library.HtmlDocument.PrependHeading | js/library.js:160-169 | only chapter i changes: an `h1` is put first and becomes its first heading |
| Library.ChaptersToNormalize | js/library.js:137-153 | there is always at least one chapter to normalise |
| Library.NormalizedChapters | js/library.js:155-172 | normalising keeps the number of chapters |
| Library.NormalizeChapterToc | js/library.js:155-171 | a normalised chapter carries its toc id as `id` and `data-chapter`, has a heading, and gives the same toc entry again |
| Library.NormalizeChapterIdempotent | js/library.js:155-171 | normalising a chapter twice is normalising it once |
| Library.NormalizedToc | js/library.js:155-172 | the importer's toc equals what `generateTocFromHtml` reads back from the normalised document, and from the original |
| Library.TocPrefixStep | js/library.js:155 | the toc of the first i+1 chapters extends that of the first i by chapter i's entry |
| Library.NormalizeChapterAt | js/library.js:155-171 | one iteration of the map: only chapter i is normalised, and the entry returned is its toc entry |
| Library.NormalizeHtmlToBook | js/library.js:131-182 | the document's chapters end normalised; the toc is the regenerated toc of the chapters, never empty; the html joins their outer markup; the title is from the filename or `Untitled`; no meta |
| Paging.MergeOptions | js/paging.js:1-12 | each option overrides its default (120 / 320 / 60) key by key |
| Paging.WheelDelta | js/paging.js:49-50 | `deltaY`, else `deltaX`; zero only when both are zero |
| Paging.PageWidth | js/paging.js:20 | the page width is `clientWidth` but at least 1 |
| Paging.PageByOnGrid | js/paging.js:27-31 | a page turn lands on a whole multiple of the page width, `deltaPages` pages from the nearest one |
| Paging.PageByFromSnap | js/paging.js:27-37 | turning pages is snapping plus `deltaPages` page widths |
| Paging.SnapNearest | js/paging.js:33-37 | the snap target is a whole multiple of the page width, within half a page of the position |
| Paging.SwipeDirection | js/paging.js:94 | a downward swipe goes back one page, any other forward |
| Paging.HorizontalPager.constructor | js/paging.js:12-18 | merged options, empty accumulator, unlocked, no touch |
| Paging.HorizontalPager.Lock | js/paging.js:39-45 | the pager locks and a (re)started timer is pending |
| Paging.HorizontalPager.LockTimerFires | js/paging.js:42-44 | only the timer unlocks; nothing else changes |
| Paging.HorizontalPager.OnWheel | js/paging.js:47-59 | ignored while locked or for zero delta; otherwise prevented; crossing the threshold resets the accumulator, turns one page in its sign and locks; the accumulator stays below the threshold |
| Paging.HorizontalPager.OnWheelEnd | js/paging.js:61-67 | unlocked with a non-zero accumulator: reset and snap to the nearest page; otherwise nothing |
| Paging.HorizontalPager.OnTouchStart | js/paging.js:69-74 | a touch records its start and activates tracking; an empty touch list changes nothing |
| Paging.HorizontalPager.OnTouchMove | js/paging.js:76-83 | default prevented exactly when tracking and the move is more vertical than horizontal |
| Paging.HorizontalPager.OnTouchEnd | js/paging.js:85-96 | tracking always ends; it pages one page exactly for a vertical-dominant swipe past the threshold |
| Reader.ClassifyPageTap | js/reader.js:289-303 | left of 0.33w goes back, right of 0.66w forward, anything else toggles the top bar |
| Reader.ClassifyCenterTap | js/reader.js:344-351 | toggles the top bar iff 0.33w ≤ x ≤ 0.66w, never pages |
| Reader.TapBands | js/reader.js:289-351 | for a positive width, the bands partition the width and the centre-only binding toggles exactly where the paging binding does |
| Reader.TapResultOf | js/reader.js:294-301 | the page effect fires only for a page turn in paged mode; the centre-only binding never pages |
| Reader.TapTracker.constructor | js/reader.js:284-287 | tracking starts at the origin, unmoved, with no touch seen |
| Reader.TapTracker.TouchStart | js/reader.js:305-311 | a touch records its start and clears `moved`; an empty touch list changes nothing |
| Reader.TapTracker.TouchMove | js/reader.js:313-321 | `moved` becomes set once a touch strays more than 12px on either axis, and stays set |
| Reader.TapTracker.TouchEnd | js/reader.js:323-329 | always stamps the touch time; taps at the touch point unless the touch moved |
| Reader.TapTracker.Click | js/reader.js:331-334 | a click within 450ms of the last touch end is ignored; otherwise it taps |
| Reader.PageBy | js/reader.js:431-441 | vertical scrolling targets `scrollTop` plus pages times the height, any other mode `scrollLeft` plus pages times the width |
| Reader.PageByThereAndBack | js/reader.js:431-441 | when the start and the first target lie in the scroll range, paging forward then back returns to the start, and only one axis moves |
| Reader.PageByAtEnd | js/reader.js:431-441 | at the end of the scroll range, paging further leaves the viewport where it is, as the browser clamps the target |
| Reader.WheelRemapDelta | js/reader.js:385-394 | the larger of the two deltas is used, ties going to `deltaY` |
| Reader.LeadingReached | js/reader.js:216-224 | the length of the leading run of chapters within 24 of the top |
| Reader.CurrentChapterId | js/reader.js:209-227 | never empty; `chapter-001` without chapters; the first chapter's id when none is reached |
| Reader.GetCurrentChapterId | js/reader.js:209-227 | the scan with `break` returns the id of the last chapter of the leading reached run, the first chapter by default, `chapter-001` for a missing id |
| Reader.CurrentIsLastReached | js/reader.js:214-224 | with chapters in document order, the current chapter is reached and every later one is not |
| Reader.WidthOr1 | js/reader.js:197 | the width used to turn `scrollLeft` into a page index (and, at js/reader.js:292, the tap width) is the element width, or 1 when that is 0, so it is never zero |
| Reader.ProgressPayload | js/reader.js:192-204 | the payload has exactly `chapterId`, `scrollLeft`, `pageIndex`, plus `scrollTop` in vertical scrolling; `pageIndex` is `scrollLeft` over the width, rounded |
| Reader.RestoreProgress | js/reader.js:229-248 | a stored `scrollTop` wins in vertical scrolling, then `pageIndex`, then `scrollLeft`, nothing without progress; the position is `Number(scrollTop)` (0 if NaN), `Number(pageIndex)` widths, or `Number(scrollLeft)` (0 if NaN) |
| Reader.RestorePageIndex | js/reader.js:237-239 | a numeric `pageIndex` outside vertical scrolling restores to that many widths: page 2 at width 400 goes to 800 |
| Reader.RestorePayload | js/reader.js:192-248 | restoring a payload gives back the exact `scrollTop`, or the page boundary within half a page of `scrollLeft` |
| Reader.Throttle.constructor | js/reader.js:417-419 | no timer pending, no arguments |
| Reader.Throttle.Call | js/reader.js:421-423 | the latest arguments are kept, and a timer is started only when none is pending |
| Reader.Throttle.Fire | js/reader.js:424-427 | the timer clears and the most recent arguments are delivered |
| Reader.ReadForm | js/reader.js:138-148 | the settings read from the form hold exactly the seven keys |
| Reader.FormRoundTrip | js/reader.js:95-151 | settings with non-zero sizes, select values among the options and a known mode, shown in the form, read back unchanged |
| Reader.ReadFormCanonical | js/reader.js:138-156 | what the form reads back is canonical, and showing it and reading again is stable |
| Reader.SelectValue | js/reader.js:106 | a select set to one of its options reads it back, and set to anything else reads back `""` |
| Reader.SelectReadsBack | js/reader.js:106-145 | a theme or page effect that is not one of the options reads back from the form as `light` or `none` |
| Reader.ThemeOf | js/reader.js:121-124 | the dark theme is applied iff the theme is exactly `dark` |
| Reader.LayoutOf | js/reader.js:159-166 | `scrollX` and `scrollY` get their layouts; every other mode is paged |
| Reader.GesturesFor | js/reader.js:168-181 | page taps are bound iff the mode is paged or tap-in-scroll is on, else centre taps; the wheel remap iff the mode is `scrollX` |
| Reader.ReaderView.constructor | js/reader.js:14-30 | paged mode, no effect, no bindings yet |
| Reader.ReaderView.ApplyDisplayMode | js/reader.js:158-189 | exactly one layout; a fresh binding scope replaces the previous one; the slider is disabled at once iff `scrollY`; its range and value are left to the scheduled refresh |
| Reader.ReaderView.ApplySettings | js/reader.js:95-119 | without settings nothing changes; otherwise the form, CSS, theme and mode follow them and the mode is rebound |
| Reader.ReaderView.UpdateSettings | js/reader.js:138-151 | the next settings are the form's values overridden by the patch; the view is updated from them and the slider is disabled iff the new mode is `scrollY` |
| Reader.ReaderView.RefreshHScroll | js/reader.js:254-260 | the slider ranges over the horizontal overflow (never negative), its value is the position capped at that range, and it is disabled exactly when nothing overflows |
| Reader.ReaderView.ProgressSnapshot | js/reader.js:192-204 | the reported payload is that of the current chapter, in the checked display mode |
| App.DefaultSettingsCanonical | js/app.js:6-14 | the default settings survive the settings form unchanged |
| App.BookSettings | js/app.js:83-89 | every default key is present, a book's own settings shadow its meta's, and given keys win |
| App.BookProgress | js/app.js:90-93 | the same rule for progress over `DEFAULT_PROGRESS` |
| App.DisplayTitle | js/app.js:104 | the title, or `Untitled` when it is empty: never empty |
| App.BuildBookId | js/app.js:103-108 | the fingerprint is never empty |
| App.BookIdInjective | js/app.js:103-108 | equal fingerprints mean equal shown titles, toc lengths and html lengths, even when a title contains `::` |
| App.ProgressRecord | js/app.js:139-145 | exactly the three positions (NaN or missing as 0), `chapterId` (falsy as `null`) and `updatedAt` |
| App.SavedProgressRestoresAlike | js/app.js:137-168 | numeric progress saved and merged over the defaults restores the viewport exactly as the unsaved progress would |
| App.RestoredBook | js/app.js:156-161 | the restored book has no meta, the cached html, and the cached toc when it is an array |
| App.CacheRoundTripKeepsId | js/app.js:110-163 | a book with html comes back from its cache with the same fingerprint and toc, so its saved progress is found |
| App.AppSession.constructor | js/app.js:24-29 | no book, default settings and progress, no message |
| App.AppSession.ApplyBook | js/app.js:83-94 | the book, its fingerprint, and defaults overridden by the book's or its meta's settings and progress |
| App.AppSession.OnUpdateSettings | js/app.js:70-73 | the patch is merged over the settings; other keys and state unchanged |
| App.AppSession.SaveProgress | js/app.js:137-150 | nothing without an id; otherwise the record is stored under `tsukiyomi:progress:` + id, or on failure only the message is set |
| App.AppSession.OnUpdateProgress | js/app.js:74-77 | the patch is merged over the progress and the result saved under the current id; only a failed write sets the message |
| App.AppSession.PersistLastOpened | js/app.js:110-135 | with a book and id, each record is written when its write is accepted and otherwise keeps its old value; any failure sets the cache message; no other key appears or changes |
| App.AppSession.RenderLibrary | js/app.js:50-57 | a pending message is shown once and cleared |
| App.AppSession.TryRestoreLastBook | js/app.js:152-172 | false and no change unless the cache has html and a toc; otherwise the cached book is applied and its saved progress merged over the defaults |

## Left out

- DOM rendering: the TOC buttons, the settings panel widgets, `scrollIntoView`, `render()` and the templates, and the CSS custom properties. These are modelled as values, or not at all.
- The page-effect overlay and its timing, the `--page-width`/`columnWidth` refresh, and the horizontal slider's own scroll mirroring. These are visual only.
- Listener teardown: an abort-controller scope is modelled as a counter that each rebinding increments.
- `sw.js`, the service worker, is not part of this model. It is network caching.
- Library.Head: `slice(0, 200)` counts UTF-16 code units; the model counts characters.
- `Number.POSITIVE_INFINITY` as the failed Shift_JIS score is modelled by `Option`. A successful decode that reads as the empty string is treated as unusable, as the source's truthiness test does.
- Library.NormalizeHtmlToBook: script removal, `DOMParser`, and the serialisation of `outerHTML` are parameters or omitted. A chapter is an abstract record of id, `data-chapter`, first heading and children.
- App.BuildBookId: a book's toc is always an array in the model, because every importer produces one. The "0 when not an array" branch is not represented.
- Values read from JSON are typed as the model's records. A malformed stored value is not modelled, nor a non-array toc except as absent/other/array.
- Reader.ReaderView.ApplySettings: non-string truthy `displayMode`, `theme` or `pageEffect` values are treated like their defaults. A range input keeps any value, where the browser clamps it to the range's bounds and step.
- Common.ToNumber: the strings `Infinity`, `+Infinity` and `-Infinity` read as NaN (`None`), because infinities are not represented. This reaches every member that converts a stored value with `Number`: App.ProgressRecord, Storage.ExportSettings, Reader.RestoreProgress and Reader.CssOf.
- The option lists of the theme select (`light`, `dark`) and the page-effect select (`none`, `dim`, `fade`) are constants; index.html, which declares them, is not part of this model.
- Scrolling is immediate in the model; the `smooth` behaviour of `scrollTo` is visual only.
- App.AppSession.PersistLastOpened: one timestamp is used for `savedAt` and `cachedAt`, which the source reads separately. `sourceData` (always `null`) is not kept.
- App.AppSession.RenderLibrary: the message is returned as shown even when the status element is missing; the source only clears it then.
- Applying the theme to the document body after a settings update (js/app.js:72) is not modelled; Reader.ThemeOf states the same rule.
- NormalizeTxt: the paragraph and title renderers are passed to the chapter reasoning as a `Markup` pair so the lemmas hold for any renderer. The importer uses the concrete pair.
- Floating point: numbers are exact reals. IEEE rounding, NaN propagation beyond "invalid number gives the default", and Infinity are not modelled.
