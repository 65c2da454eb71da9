# videojs-chapters, modelled in Dafny

This project models the chapter logic of the `videojs-chapters` plugin for Video.js with the DOM taken away. Three versions of the plugin are covered:

- `videojs-chapters_v8_2.js`;
- `videojs_chapters_v8_11.js`, nearly the same code;
- `videojs_chapters_v_8.js`, a smaller rewrite.

What is modelled:

- **Chapter list** (`chapter_index.dfy`). The loop that keeps the chapters whose time lies in `[0, duration]`, in input order. It also has the three ways a playback time is mapped to a chapter:
  - the dropdown's backward scan;
  - the horizontal bar's `filter` / last / `indexOf` lookup;
  - the rewrite's forward scan, which stops at the first later chapter.
- **Dropdown** (`dropdown.dfy`). The select's options and its `selectedIndex`, kept in step with playback.
- **Horizontal bar** (`horizontal.dfy`). The scroll window of `ChapterHorizontalControl`.
  - The source keeps its state in `data-chapter-*` attributes and in `style.left`. Here the state is the fields of a class, with one method per operation:
    - `addChapters`, `resize` and its deferred scroll;
    - `scrollLeft`, `scrollRight` and `scrollChapterItemList`;
    - `clearSelectedStyle`;
    - the timeupdate handler.
  - Each method is specified by a pure transition on a `Window` value that holds all the fields.
  - The invariants are proved about those transitions, and about any sequence of events (`Run`).
- **Class names** (`class_names.dfy`). `addClass`, `removeClass` and `hasClass` on `className` strings, with JavaScript's `indexOf`, `trim` and `replace(/\s+/g, ' ')`.
- **The rewrite's controls** (`highlight_bar.dfy`):
  - the `highlight` loop and its toggling of `vjs-current`;
  - `buildList`;
  - `buildMarkers`.
- **Plugin dispatch** (`plugin.dfy`). The `chapterType` switch of the 8.2 plugin and of the rewrite.

How values are modelled:

- Times are only compared, so they are `real`.
- Pixel quantities are `int`, and Dafny's `/` with a positive divisor is `Math.floor`.
- Measurements from the page are parameters:
  - `player.currentWidth()`;
  - the container's `clientWidth`;
  - the stage's `offsetWidth`;
  - `player.duration()`;
  - `currentTime()`.
- Two measurements are not parameters but derived from the state (see "## Left out"):
  - the item list's `clientWidth`, from the list width `resize` sets;
  - a button's `clientWidth` in `scrollChapterItemList`, taken to be `data-chapter-item-width`.

## Model

| member | source | states |
|---|---|---|
| ChapterIndex.Kept | videojs-chapters_v8_2.js:285-290 | the kept positions are exactly the chapters with `0 <= time <= duration`, strictly increasing (input order) |
| ChapterIndex.FilterChapters | videojs_chapters_v8_11.js:262-265 | the pushed times are those of `Kept`, in order, and the positions are the kept input positions |
| ChapterIndex.KeptAll | videojs-chapters_v8_2.js:285-290 | every chapter is kept iff every chapter lies within the duration |
| ChapterIndex.KeptRank | videojs-chapters_v8_2.js:285-295 | the k-th kept chapter's input position is at least k, and equal to k iff no earlier chapter was dropped (so `data-chapter-index` is the kept rank plus one only when nothing before was filtered) |
| ChapterIndex.KeptTimesAllInRange | videojs_chapters_v8_11.js:84-87 | when all chapters are in range, the time array is every chapter's time in input order |
| ChapterIndex.LastAtOrBefore | videojs_chapters_v8_11.js:124-131 | the result is -1 or an index whose time is `<= t`, and every later time is `> t` |
| ChapterIndex.LastAtOrBeforeUnique | videojs_chapters_v8_11.js:124-131 | those two properties determine the backward scan's result |
| ChapterIndex.LastAtOrBeforeSorted | videojs_chapters_v8_11.js:124-131 | on ascending times the scan finds `i` exactly when `times[i] <= t < times[i+1]`, boundary included |
| ChapterIndex.AtOrBefore | videojs_chapters_v8_11.js:301 | the filtered times are all `<= t`; empty iff no chapter has started; its last element is the time the backward scan finds |
| ChapterIndex.IndexOfTime | videojs_chapters_v8_11.js:305 | `indexOf`: -1 iff absent, otherwise the first index holding the value |
| ChapterIndex.NewChapter | videojs_chapters_v8_11.js:301-305 | 0 iff no chapter has started; otherwise the 1-based number of the first chapter sharing the time of the last started chapter |
| ChapterIndex.NewChapterDistinct | videojs_chapters_v8_11.js:301-305 | without repeated times the horizontal lookup equals the dropdown scan plus one |
| ChapterIndex.NewChapterSorted | videojs_chapters_v8_11.js:301-305 | on ascending times chapter `i+1` is selected throughout `[times[i], times[i+1])` |
| ChapterIndex.NewChapterRepeatedTime | videojs_chapters_v8_11.js:305 | with times `[0, 10, 10]` at 12 s the dropdown selects option 2 but the horizontal bar chapter 2 (`indexOf` finds the first 10) |
| ChapterIndex.ScanForward | videojs_chapters_v_8.js:140-143 | the result is -1 or the last index of a prefix whose times are all `<= t`, and the next time is `> t` |
| ChapterIndex.ScanForwardUnique | videojs_chapters_v_8.js:140-143 | those properties determine the forward scan's result |
| ChapterIndex.ScanForwardAtMostLast | videojs_chapters_v_8.js:140-143 | the forward scan never goes past the backward scan |
| ChapterIndex.ScanForwardSorted | videojs_chapters_v_8.js:140-143 | on ascending times the forward scan finds the greatest `i` with `times[i] <= t` |
| ChapterIndex.ScanForwardPrefix | videojs_chapters_v_8.js:142 | chapters after the first one later than `t` never change the result |
| ChapterIndex.ThreeChaptersKept | videojs-chapters_v8_2.js:285-290 | chapters at 0, 30, 90 s of a 120 s video are all kept |
| ChapterIndex.ThreeChaptersLookup | videojs_chapters_v8_11.js:301-305 | at 0, 29.9, 30 and 200 s chapters 1, 1, 2 and 3 are selected |
| Dropdown.DropdownControl.constructor | videojs_chapters_v8_11.js:80-94 | the options are the kept chapters' times; the first is selected, or none without options |
| Dropdown.DropdownControl.OnTimeUpdate | videojs_chapters_v8_11.js:119-133 | no change without options or before the first; otherwise `selectedIndex` becomes the last index whose time is `<= t` |
| Horizontal.DisplayCount | videojs-chapters_v8_2.js:267-272 | at least 1 item; `floor(width / 220)` when that is positive; 1 below 440 px |
| Horizontal.ResizeDisplayCount | videojs-chapters_v8_2.js:412-416 | for non-negative widths the same count as `addChapters` computes |
| Horizontal.ItemWidth | videojs-chapters_v8_2.js:419 | the largest equal share of the inner width, not negative |
| Horizontal.StepRight | videojs-chapters_v8_2.js:394-396 | the index stays only when it equals `maxScrollIndex`, otherwise grows by one; it stays inside `[0, max]` from inside |
| Horizontal.StepLeft | videojs-chapters_v8_2.js:382-383 | the index stays only at 0, otherwise drops by one, never below 0 |
| Horizontal.StepsRightClamped | videojs-chapters_v8_2.js:389-399 | repeated right clicks climb one by one to `maxScrollIndex` and stop there |
| Horizontal.StepsRightUnbounded | videojs-chapters_v8_2.js:280 | when `maxScrollIndex` is below the index (negative with few chapters), right clicks never stop |
| Horizontal.StepsLeftClamped | videojs-chapters_v8_2.js:381-387 | repeated left clicks descend to 0 and stop there |
| Horizontal.ItemsFor | videojs-chapters_v8_2.js:285-295 | one inactive button per kept chapter, numbered with its input position plus one, carrying its time |
| Horizontal.Cleared | videojs-chapters_v8_2.js:401-406 | every button loses the active class and nothing else changes |
| Horizontal.FirstActive | videojs-chapters_v8_2.js:441 | `None` iff no button is active; otherwise the first active button |
| Horizontal.CountersReset | videojs-chapters_v8_2.js:274-280 | offset, selection and both counters 0; `maxScrollIndex` is the unfiltered count minus the display count |
| Horizontal.ChaptersAdded | videojs-chapters_v8_2.js:251-315 | `null` only hides; otherwise counters reset, display count from the player width, handler registered iff the list is not empty, container shown; the buttons are exactly `ItemsFor` the kept positions (each numbered with its unfiltered input position plus one); no-scroll mark, item width and list width unchanged |
| Horizontal.ChaptersAddedButtons | videojs-chapters_v8_2.js:285-308 | after `addChapters` the handler's times are the kept times, each button carries its time, none is active |
| Horizontal.Resized | videojs-chapters_v8_2.js:408-432 | display count and item width as computed; no-scroll iff the items fit; without overflow offset 0 and the list as wide as the inner width; with it the offset kept and the list `items × itemWidth` wide |
| Horizontal.ScrolledTo | videojs-chapters_v8_2.js:353-367 | no change without a button or when no-scroll; otherwise step index is the button's index minus one and the offset `max(-itemWidth × step, rightStop)`: that many widths left, or the right stop when that is further right |
| Horizontal.ScrolledLeft | videojs-chapters_v8_2.js:381-387 | scroll index one step left; offset `min(left + itemWidth, 0)`; keeps the offset in view |
| Horizontal.ScrolledRight | videojs-chapters_v8_2.js:389-399 | scroll index one step right; offset `max(left - itemWidth, rightStop)`; keeps the offset in view |
| Horizontal.Stepped | videojs-chapters_v8_2.js:333-340 | on every matching tick the scroll index steps right if the previous selection was past chapter 1 and resets to 0 otherwise |
| Horizontal.Activated | videojs-chapters_v8_2.js:344-346 | exactly button `k` is active afterwards, nothing else changes |
| Horizontal.Reached | videojs-chapters_v8_2.js:328-348 | the selection becomes the found chapter, the scroll index steps, and with an unchanged selection nothing else happens |
| Horizontal.TimeUpdated | videojs-chapters_v8_2.js:317-351 | no handler: no change; before the first chapter: selection 0; no chapter started: no change; otherwise selection is the found chapter and the scroll index steps; when that chapter is already selected only the scroll index steps, and buttons, offset and step index stay |
| Horizontal.TimeUpdatedChangeBranch | videojs-chapters_v8_2.js:342-348 | on a change of chapter: step, select, activate the new button, scroll to it |
| Horizontal.TimeUpdatedHighlightsNewChapter | videojs-chapters_v8_2.js:342-347 | after a change of chapter exactly the selected chapter's button is active |
| Horizontal.TimeUpdatedKeepsHighlight | videojs-chapters_v8_2.js:317-351 | every tick keeps "at most one active button, the selected one among them" and the buttons' times |
| Horizontal.TimeUpdatedInView | videojs-chapters_v8_2.js:353-367 | every tick keeps the offset between the right stop and 0 |
| Horizontal.ReachedAsWritten | videojs_chapters_v8_11.js:317-323 | the v8_11 change branch: selection written and buttons cleared, then nothing more |
| Horizontal.TimeUpdatedAsWritten | videojs_chapters_v8_11.js:292-326 | equals the corrected handler except on a change of chapter, where no button is left active |
| Horizontal.AsWrittenLosesHighlight | videojs_chapters_v8_11.js:320-322 | on every change of chapter the v8_11 handler leaves the selected chapter without an active button, unlike the corrected one |
| Horizontal.FirstTickChangesChapter | videojs_chapters_v8_11.js:296-318 | chapters at 0 and 30 s of a 60 s video: the first tick at 0 s already takes the change branch |
| Horizontal.MountedInView | videojs-chapters_v8_2.js:226-229 | after `addChapters` then `resize` the offset is in view |
| Horizontal.TenChaptersScenario | videojs-chapters_v8_2.js:389-399 | a 900 px player shows 4 items; with 10 chapters ten right clicks stop at scroll index 6 |
| Horizontal.Apply | videojs-chapters_v8_2.js:201-229 | the state after one event (arrow click, `addChapters`, `resize`, its deferred scroll, timeupdate) keeps one button per time |
| Horizontal.Run | videojs-chapters_v8_2.js:201-229 | a sequence of events keeps one button per time |
| Horizontal.ApplyKeepsConsistent | videojs-chapters_v8_2.js:251-450 | every event keeps the counters in range, the highlight sound and each button's time |
| Horizontal.RunKeepsConsistent | videojs-chapters_v8_2.js:251-450 | so does every sequence of events |
| Horizontal.ReachableConsistent | videojs-chapters_v8_2.js:176-229 | every state reachable from a freshly built bar is consistent |
| Horizontal.RunKeepsInView | videojs-chapters_v8_2.js:317-399 | arrow clicks, timeupdates and the deferred scroll keep the offset in `[rightStop, 0]` |
| Horizontal.ReadyStaysInView | videojs-chapters_v8_2.js:226-229 | after the ready callback (`addChapters`, then `resize`) the offset stays in `[rightStop, 0]` until one of them runs again |
| Horizontal.ChapterHorizontalControl.constructor | videojs-chapters_v8_2.js:176-178 | the container starts hidden with an empty list |
| Horizontal.ChapterHorizontalControl.ResetCounters | videojs-chapters_v8_2.js:274-280 | the fields become `CountersReset` of the old ones |
| Horizontal.ChapterHorizontalControl.AddChapters | videojs-chapters_v8_2.js:251-315 | the fields become `ChaptersAdded` of the old ones |
| Horizontal.ChapterHorizontalControl.ClearSelectedStyle | videojs-chapters_v8_2.js:401-406 | the loop clears every button's active flag and nothing else |
| Horizontal.ChapterHorizontalControl.ScrollChapterItemList | videojs-chapters_v8_2.js:353-367 | the fields become `ScrolledTo` of the old ones |
| Horizontal.ChapterHorizontalControl.ScrollLeft | videojs-chapters_v8_2.js:381-387 | the fields become `ScrolledLeft` of the old ones |
| Horizontal.ChapterHorizontalControl.ScrollRight | videojs-chapters_v8_2.js:389-399 | the fields become `ScrolledRight` of the old ones |
| Horizontal.ChapterHorizontalControl.Resize | videojs-chapters_v8_2.js:408-432 | the fields become `Resized` of the old ones |
| Horizontal.ChapterHorizontalControl.Settle | videojs-chapters_v8_2.js:439-444 | the deferred callback scrolls to the first active button |
| Horizontal.ChapterHorizontalControl.Ready | videojs-chapters_v8_2.js:226-229 | `addChapters` then `resize` |
| Horizontal.ChapterHorizontalControl.SelectChapter | videojs-chapters_v8_2.js:343-347 | select, clear, activate, scroll |
| Horizontal.ChapterHorizontalControl.MoveTo | videojs-chapters_v8_2.js:331-348 | the fields become `Reached` of the old ones |
| Horizontal.ChapterHorizontalControl.TimeUpdate | videojs-chapters_v8_2.js:317-351 | the fields become `TimeUpdated` of the old ones |
| Horizontal.ChapterHorizontalControl.MoveToAsWritten | videojs_chapters_v8_11.js:306-323 | the fields become `ReachedAsWritten` of the old ones; it throws iff the chapter changes |
| Horizontal.ChapterHorizontalControl.TimeUpdateAsWritten | videojs_chapters_v8_11.js:292-326 | the fields become `TimeUpdatedAsWritten` of the old ones; it throws iff the tick changes chapter |
| ClassNames.IndexOf | videojs-chapters_v8_2.js:453 | `indexOf`: -1 iff not a substring, otherwise the first occurrence |
| ClassNames.Trim | videojs-chapters_v8_2.js:456 | `trim`: a slice of the input with only white space cut away on either side and none left at either end |
| ClassNames.Tokens | videojs-chapters_v8_2.js:452-464 | the class names of a class list: its maximal runs of characters that are not white space; a list starting with one is not empty |
| ClassNames.TrimTokens | videojs-chapters_v8_2.js:456 | `trim` keeps every class name, in order |
| ClassNames.TokensJoin | videojs-chapters_v8_2.js:456 | `className + ' ' + cls` has the class names of `className` followed by those of `cls` |
| ClassNames.CollapseSpaces | videojs-chapters_v8_2.js:463 | `replace(/\s+/g, ' ')`: every space a single ' ', none adjacent, the non-space characters unchanged, empty iff the input is, a leading space kept |
| ClassNames.CollapseSpacesTokens | videojs-chapters_v8_2.js:463 | `replace(/\s+/g, ' ')` keeps every class name, in order, and starts and ends with white space exactly when the input does |
| ClassNames.HasClass | videojs-chapters_v8_2.js:466-468 | true iff `cls` is a substring of the class name |
| ClassNames.AddClass | videojs-chapters_v8_2.js:452-457 | unchanged if `cls` occurs; otherwise the class names of the old list followed by those of `cls`, as a slice of `className + ' ' + cls` with only white space trimmed from its ends |
| ClassNames.RemoveClass | videojs-chapters_v8_2.js:459-464 | unchanged if `cls` is absent; otherwise normalized, with the class names of the list with its first occurrence of `cls` cut out, starting and ending with white space exactly when that list does |
| ClassNames.AddClassThenHasClass | videojs-chapters_v8_2.js:452-468 | after `addClass`, `hasClass` is true |
| ClassNames.AddClassIdempotent | videojs-chapters_v8_2.js:452-457 | a second `addClass` of the same name changes nothing |
| ClassNames.AddClassToTrimmed | videojs-chapters_v8_2.js:456 | on a trimmed class list without `cls`, `addClass` appends a space and `cls` |
| ClassNames.AddClassAfterSpace | videojs-chapters_v8_2.js:456 | on a list holding a class name but not `cls`, `addClass` drops only the leading white space: a trailing space (as `removeClass` leaves) stays, so two spaces separate the names |
| ClassNames.AddClassToEmpty | videojs-chapters_v8_2.js:456 | on an empty class list, `addClass` gives `cls` |
| ClassNames.RemoveAppendedClass | videojs-chapters_v8_2.js:459-464 | removing the just-appended `cls` leaves the old list and a trailing space |
| ClassNames.RemoveClassAfterAddClass | videojs-chapters_v8_2.js:452-464 | `removeClass` after `addClass` gives back the class list plus a trailing space (empty stays empty) |
| HighlightBar.AllTimesVersusFilter | videojs_chapters_v_8.js:122-133 | the rewrite's unfiltered list equals the filtered one iff every chapter is within the duration |
| HighlightBar.CountSetSingle | videojs_chapters_v_8.js:145-147 | with exactly the flag at `c` set, one flag is set if `c` is an index and none otherwise |
| HighlightBar.MarkerBar.constructor | videojs_chapters_v_8.js:90-101 | one marker per chapter, every chapter, in input order |
| HighlightBar.HorizontalBar.constructor | videojs_chapters_v_8.js:120-135 | one item per chapter, every chapter, none current |
| HighlightBar.HorizontalBar.Highlight | videojs_chapters_v_8.js:137-148 | the result is the forward scan, -1 iff no chapters or `t` before the first; exactly the item with that index is current |
| HighlightBar.HighlightCount | videojs_chapters_v_8.js:140-147 | after a tick one item is current iff the first chapter has started, none otherwise |
| Plugin.LowerCase | videojs-chapters_v8_2.js:553 | each character lowered, length kept |
| Plugin.LowerCaseIdempotent | videojs-chapters_v8_2.js:553 | lowering twice is lowering once |
| Plugin.DispatchV82 | videojs-chapters_v8_2.js:544-569 | nothing without type, without chapters or with none; then ignoring case `dropdown`, `native`/`progressbar` markers, else horizontal |
| Plugin.DispatchV8 | videojs_chapters_v_8.js:196-218 | type defaults to horizontal and chapters to none; nothing with no chapters; then ignoring case `dropdown`, `progressbar`, else horizontal |
| Plugin.DispatchIgnoresCase | videojs_chapters_v_8.js:209 | both dispatches give the same control for a type and its lower case |
| Plugin.DispatchVersionsCompared | videojs_chapters_v_8.js:209-218 | the two versions agree for any given type except `native` (markers in 8.2, horizontal in the rewrite) |
| Plugin.DispatchWithoutType | videojs_chapters_v_8.js:196-200 | without a type 8.2 renders nothing and the rewrite the horizontal list |
| Plugin.CapitalisedDropdown | videojs-chapters_v8_2.js:553-556 | `Dropdown` selects the dropdown |
| Plugin.UpperCaseNative | videojs-chapters_v8_2.js:558-561 | `NATIVE` gives markers in 8.2 and the horizontal list in the rewrite |

## Left out

- DOM construction is not modelled: elements, `innerHTML`, aria labels, `querySelector`, focus, insertion into the page. Buttons are `(index, time, active)` records and list items are flags.
- Style generation and injection (`StyleManager`, `generateStyles`, `injectStyle`) and the RTL/language settings are not modelled. They are presentation only.
- Player lifecycle is not modelled: `on`/`off`/`one`/`ready`, `dispose`, `_teardownRendered`, `updateOptions`, the `loadedmetadata` wiring and v8_11's `_renderIfAny`. These are event plumbing over the Video.js API. The 8.2 and rewrite dispatches are modelled instead.
- Click handlers that call `player.currentTime`/`play` are not modelled. They are thin calls into the host player.
- The 300 ms `setTimeout` in `resize` is not modelled as a timer. Its callback is the separate method `Settle`, which the caller may run later.
- Each item's width is not modelled: a fixed px width with overflow, `100/n %` without. The progress-bar marker position `time / duration * 100` with its `duration() || 1` fallback is not modelled either. Both are floating-point values for CSS.
- The list's `clientWidth` is not measured. It is taken as `items × itemWidth` once `resize` gives the list that explicit width on overflow, and as the inner width otherwise.
- Horizontal.ScrolledTo: `scrollChapterItemList` measures the button's own `clientWidth`, for the offset and the right stop alike. The model takes it to be `data-chapter-item-width`, the `style.width` that `resize` gives every button on overflow. Padding or borders that make a button wider than that width (content-box sizing) are not modelled, so the in-view results of `ScrolledTo` and `TimeUpdatedInView` assume the two widths agree.
- `parseInt` of attributes and `style.left` is the identity here. The model keeps the integers the code wrote.
- Non-numeric and NaN times and durations are not modelled, and neither are non-string `chapterType` values, on which `toLowerCase` throws.
- Plugin.LowerCase: only ASCII letters are lowered. JavaScript's `toLowerCase` also lowers letters of other scripts, which no recognised type contains.
- Horizontal.ChapterHorizontalControl.AddChapters: the `null` container check is not modelled, because the container always exists once the control is built.
- Horizontal.ChaptersAdded: each `addChapters` with chapters registers one more timeupdate handler, which keeps its own time array. The model has one handler flag, and ticks use the latest times only.
- Horizontal.ChapterHorizontalControl.Valid: the class invariant is only "one button per time". The bounds, the highlight and the button times are proved as `Consistent` on the transitions and on every event sequence (`ReachableConsistent`), not carried by each method.
- Horizontal.Resized: the offset is not proved to stay in view. With overflow `resize` keeps the old offset while the right stop moves, so a narrower list can leave the offset past the new right stop until the next scroll.

## Findings

| source | as written | input that shows it | evidently intended | confidence | as-written member | corrected member |
|---|---|---|---|---|---|---|
| videojs_chapters_v8_11.js:320-322 | the timeupdate change branch uses `chapteringItemList`, which is not declared in `onChapterProgressForHorizontal` (its parameter is `chapterItemList`). The branch stops with a reference error after writing the selection and clearing every button, so no button is active and the list does not scroll | chapters at 0 s and 30 s, duration 60 s, player 880 px, first tick at 0 s: selection 0 becomes 1 | the same branch with `chapterItemList`, as videojs-chapters_v8_2.js:345-347 has it: the new chapter's button becomes the only active one and the list scrolls to it | not executed | Horizontal.TimeUpdatedAsWritten, Horizontal.AsWrittenLosesHighlight, Horizontal.FirstTickChangesChapter | Horizontal.TimeUpdated, Horizontal.TimeUpdatedHighlightsNewChapter |

## Where the description and the code differ

The model follows the code in each of these cases:

- **`maxScrollIndex` is not clamped to 0.** It is the unfiltered chapter count minus the display count. With fewer chapters than fit it is negative, and the scroll index then grows without bound (`StepsRightUnbounded`).
- **Ticks move the scroll index, not changes of chapter.** It steps on every matching tick whose previous selection was past chapter 1, not once per change of chapter.
- **The offset is not derived from the step index.** The arrows move `style.left` from its previous value. Only `scrollChapterItemList` derives it, from the button's input position. The two counters and the offset can therefore diverge.
- **Filtering shifts button numbers.** A button's `data-chapter-index` is its unfiltered position plus one (`KeptRank`), but the lookup numbers chapters after filtering.
- **The rewrite does not filter.** It keeps every chapter and treats `native` as the horizontal list.
