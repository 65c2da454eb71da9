/**
 * The horizontal chapter bar (`ChapterHorizontalControl`): a row of chapter buttons
 * of equal width inside a viewport, scrolled by arrow buttons and by playback.
 * The source keeps its state in `data-chapter-*` attributes of the item list and in
 * its `style.left`; here those become fields of a class. Each method is specified by
 * a function from the old state to the new one, and the lemmas and contracts of those
 * functions carry the invariants.
 */
module Horizontal {
  import opened Wrappers
  import opened ChapterIndex

  /** `minChapterItemWidth()`, in px. */
  const MinChapterItemWidth: int := 220

  /** `addChapters`: `Math.floor(width / 220)`, raised to 1 when below 1. */
  function DisplayCount(width: int): (r: int)
    ensures r >= 1
    ensures width >= MinChapterItemWidth ==> r * MinChapterItemWidth <= width < (r + 1) * MinChapterItemWidth
    ensures width < 2 * MinChapterItemWidth ==> r == 1
  {
    var d := width / MinChapterItemWidth;
    if d < 1 then 1 else d
  }

  /**
   * `resize`: `Math.floor(width / 220)`, raised to 1 only when it is exactly 0. For the
   * non-negative widths the DOM reports this is `DisplayCount`.
   */
  function ResizeDisplayCount(width: int): (r: int)
    ensures width >= 0 ==> r == DisplayCount(width)
    ensures width < 0 ==> r < 0
  {
    var d := width / MinChapterItemWidth;
    if d == 0 then 1 else d
  }

  /** `Math.floor(innerWidth / itemsDisplayed)`: the largest equal share of the inner width. */
  function ItemWidth(innerWidth: int, itemsDisplayed: int): (r: int)
    requires itemsDisplayed >= 1
    ensures r * itemsDisplayed <= innerWidth < (r + 1) * itemsDisplayed
    ensures innerWidth >= 0 ==> r >= 0
  {
    innerWidth / itemsDisplayed
  }

  /**
   * One step of the scroll index to the right (`scrollRight`, and a tick whose previous
   * chapter was past the first): it stays put only when it equals `maxScrollIndex`.
   */
  function StepRight(scrollIndex: int, maxScrollIndex: int): (r: int)
    ensures 0 <= scrollIndex <= maxScrollIndex ==> 0 <= r <= maxScrollIndex
    ensures r == scrollIndex <==> scrollIndex == maxScrollIndex
    ensures scrollIndex <= r <= scrollIndex + 1
  {
    if scrollIndex == maxScrollIndex then scrollIndex else scrollIndex + 1
  }

  /** One step of the scroll index to the left (`scrollLeft`): it stays put at 0. */
  function StepLeft(scrollIndex: int): (r: int)
    ensures scrollIndex >= 0 ==> 0 <= r <= scrollIndex
    ensures r == scrollIndex <==> scrollIndex == 0
    ensures scrollIndex > 0 ==> r == scrollIndex - 1
  {
    if scrollIndex == 0 then 0 else scrollIndex - 1
  }

  /** `n` steps to the right. */
  function StepsRight(n: nat, scrollIndex: int, maxScrollIndex: int): int {
    if n == 0 then scrollIndex else StepsRight(n - 1, StepRight(scrollIndex, maxScrollIndex), maxScrollIndex)
  }

  /** `n` steps to the left. */
  function StepsLeft(n: nat, scrollIndex: int): int {
    if n == 0 then scrollIndex else StepsLeft(n - 1, StepLeft(scrollIndex))
  }

  /** From inside `[0, maxScrollIndex]`, steps to the right climb to the bound and stay there. */
  lemma {:induction false} StepsRightClamped(n: nat, scrollIndex: int, maxScrollIndex: int)
    requires 0 <= scrollIndex <= maxScrollIndex
    ensures StepsRight(n, scrollIndex, maxScrollIndex) == if scrollIndex + n <= maxScrollIndex then scrollIndex + n else maxScrollIndex
  {
    if n > 0 {
      StepsRightClamped(n - 1, StepRight(scrollIndex, maxScrollIndex), maxScrollIndex);
    }
  }

  /**
   * Above `maxScrollIndex` (which happens from 0 whenever it is negative, that is with
   * fewer chapters than fit), the right steps never stop: the bound is tested by
   * equality only.
   */
  lemma {:induction false} StepsRightUnbounded(n: nat, scrollIndex: int, maxScrollIndex: int)
    requires maxScrollIndex < scrollIndex
    ensures StepsRight(n, scrollIndex, maxScrollIndex) == scrollIndex + n
  {
    if n > 0 {
      StepsRightUnbounded(n - 1, scrollIndex + 1, maxScrollIndex);
    }
  }

  /** Steps to the left descend to 0 and stay there. */
  lemma {:induction false} StepsLeftClamped(n: nat, scrollIndex: int)
    requires 0 <= scrollIndex
    ensures StepsLeft(n, scrollIndex) == if scrollIndex >= n then scrollIndex - n else 0
  {
    if n > 0 {
      StepsLeftClamped(n - 1, StepLeft(scrollIndex));
    }
  }

  /** A `data-chapter-index`: the 1-based input position of a chapter. */
  type ChapterNumber = n: int | n >= 1 witness 1

  /** A chapter button: its `data-chapter-index`, its `data-time`, and whether it carries `vjs-viostream-chapter-item-active`. */
  datatype Item = Item(index: ChapterNumber, time: real, active: bool)

  /** The buttons `addChapters` appends for the kept input positions, numbered from the input position. */
  function ItemsFor(chapters: seq<Chapter>, positions: seq<nat>): (items: seq<Item>)
    requires forall k :: 0 <= k < |positions| ==> positions[k] < |chapters|
    ensures |items| == |positions|
    ensures forall k :: 0 <= k < |items| ==> items[k] == Item(positions[k] + 1, chapters[positions[k]].time, false)
  {
    seq(|positions|, k requires 0 <= k < |positions| => Item(positions[k] + 1, chapters[positions[k]].time, false))
  }

  /** `clearSelectedStyle`: no button is active. */
  function Cleared(items: seq<Item>): (r: seq<Item>)
    ensures |r| == |items|
    ensures forall k :: 0 <= k < |r| ==> r[k] == items[k].(active := false)
  {
    seq(|items|, k requires 0 <= k < |items| => items[k].(active := false))
  }

  /**
   * `querySelector('.vjs-viostream-chapter-item-active')`: the first active button, or
   * `None` (the source's `null`) when no button is active.
   */
  function FirstActive(items: seq<Item>): (r: Option<nat>)
    ensures r.None? <==> forall k :: 0 <= k < |items| ==> !items[k].active
    ensures r.Some? ==> r.value < |items| && items[r.value].active && forall j :: 0 <= j < r.value ==> !items[j].active
  {
    if |items| == 0 then None
    else if items[0].active then Some(0)
    else match FirstActive(items[1..]) {
      case None => None
      case Some(k) => Some(k + 1)
    }
  }

  /** The whole state of one horizontal bar, as the class below holds it in its fields. */
  datatype Window = Window(
    times: seq<real>,      // chapterTimeArray, captured by the timeupdate handler
    items: seq<Item>,      // the buttons in the item list, in order
    tracking: bool,        // a timeupdate handler is registered
    hidden: bool,          // the container carries 'v-hide'
    noScroll: bool,        // the container carries 'vjs-viostream-chaptering-noscroll'
    selected: int,         // data-chapter-selected
    scrollIndex: int,      // data-chapter-scroll-index
    maxScrollIndex: int,   // data-chapter-max-scroll-index
    stepIndex: int,        // data-chapter-step-index
    itemsDisplayed: int,   // data-chapter-item-display
    itemWidth: int,        // data-chapter-item-width
    left: int,             // style.left of the item list, in px
    listWidth: int         // clientWidth of the item list, in px
  )

  /** The state of a bar whose container has just been built: hidden, empty, unmeasured. */
  const Initial: Window := Window([], [], false, true, false, 0, 0, 0, 0, 1, 0, 0, 0)

  /** One button per time the handler compares against: what the operations need to be defined. */
  ghost predicate WellFormed(w: Window) {
    |w.items| == |w.times|
  }

  /**
   * The counters and measures stay in range: the selection names a chapter or none, the
   * scroll index lies in `[0, maxScrollIndex]` whenever that range is not empty, the step
   * index is not negative, at least one item fits and no width is negative.
   */
  ghost predicate Bounded(w: Window) {
    && 0 <= w.selected <= |w.times|
    && 0 <= w.scrollIndex && (w.maxScrollIndex >= 0 ==> w.scrollIndex <= w.maxScrollIndex)
    && 0 <= w.stepIndex
    && w.itemsDisplayed >= 1 && w.itemWidth >= 0 && w.listWidth >= 0
  }

  /** Each button carries the time the handler compares against for its place. */
  ghost predicate ButtonsMatch(w: Window) {
    |w.items| == |w.times| && forall k :: 0 <= k < |w.items| ==> w.items[k].time == w.times[k]
  }

  /** At most one button is active, and the selected chapter's button is one of them. */
  ghost predicate Highlighted(w: Window) {
    && |w.items| == |w.times|
    && 0 <= w.selected <= |w.items|
    && (forall j, k :: 0 <= j < k < |w.items| ==> !(w.items[j].active && w.items[k].active))
    && (w.selected >= 1 ==> w.items[w.selected - 1].active)
  }

  /** The most negative offset: the list's right edge against the viewport's. */
  function RightStop(w: Window): int {
    -(w.listWidth - w.itemWidth * w.itemsDisplayed)
  }

  /** The list offset lies between the right stop and 0. */
  ghost predicate InView(w: Window) {
    RightStop(w) <= w.left <= 0
  }

  /**
   * The first half of `addChapters`: the list back at offset 0, `d` items to a view, the
   * selection and both counters at 0, and `maxScrollIndex` the unfiltered chapter count
   * `total` minus `d` (not clamped).
   */
  function CountersReset(w: Window, total: nat, d: int): (r: Window)
    requires WellFormed(w) && d >= 1
    ensures WellFormed(r)
    ensures Bounded(w) ==> Bounded(r)
    ensures r == w.(left := 0, itemsDisplayed := d, selected := 0, stepIndex := 0, scrollIndex := 0,
                    maxScrollIndex := total - d)
  {
    w.(left := 0, itemsDisplayed := d, selected := 0, stepIndex := 0, scrollIndex := 0, maxScrollIndex := total - d)
  }

  /**
   * `addChapters`. With `null` chapters the container is hidden and nothing else moves.
   * Otherwise the counters are reset, the buttons are rebuilt from the chapters inside the
   * duration, a handler is registered when the unfiltered list is not empty, and the
   * container is shown.
   */
  function ChaptersAdded(w: Window, chapters: Option<seq<Chapter>>, playerWidth: int, duration: real): (r: Window)
    requires WellFormed(w)
    ensures WellFormed(r)
    ensures Bounded(w) ==> Bounded(r)
    ensures chapters.None? ==> r == w.(hidden := true)
    ensures chapters.Some? ==>
      && r.left == 0 && r.selected == 0 && r.stepIndex == 0 && r.scrollIndex == 0
      && r.itemsDisplayed == DisplayCount(playerWidth)
      && r.maxScrollIndex == |chapters.value| - r.itemsDisplayed
      && !r.hidden && (r.tracking <==> w.tracking || |chapters.value| > 0)
    ensures chapters.Some? ==>
      && r.items == ItemsFor(chapters.value, Kept(chapters.value, duration, |chapters.value|))
      && r.noScroll == w.noScroll && r.itemWidth == w.itemWidth && r.listWidth == w.listWidth
  {
    match chapters {
      case None => w.(hidden := true)
      case Some(cs) =>
        var kept := Kept(cs, duration, |cs|);
        CountersReset(w, |cs|, DisplayCount(playerWidth)).(
          times := TimesAt(cs, kept), items := ItemsFor(cs, kept),
          tracking := w.tracking || |cs| > 0, hidden := false)
    }
  }

  /**
   * After `addChapters` the handler's times are exactly the kept chapters' times, each
   * button carries its own chapter's time, and no button is active.
   */
  lemma ChaptersAddedButtons(w: Window, chapters: seq<Chapter>, playerWidth: int, duration: real)
    requires WellFormed(w)
    ensures var r := ChaptersAdded(w, Some(chapters), playerWidth, duration);
      && r.times == KeptTimes(chapters, duration)
      && ButtonsMatch(r) && Highlighted(r)
      && forall k :: 0 <= k < |r.items| ==> !r.items[k].active
  {
  }

  /**
   * `resize` (without its deferred part): how many items fit, their width, and whether
   * the list overflows. Without overflow the list is put back at offset 0 and marked
   * no-scroll; with overflow the offset is kept.
   */
  function Resized(w: Window, containerWidth: int, innerWidth: int): (r: Window)
    requires WellFormed(w) && containerWidth >= 0 && innerWidth >= 0
    ensures WellFormed(r)
    ensures Bounded(w) ==> Bounded(r)
    ensures r == w.(itemsDisplayed := r.itemsDisplayed, itemWidth := r.itemWidth, left := r.left,
                    noScroll := r.noScroll, listWidth := r.listWidth)
    ensures r.itemsDisplayed == DisplayCount(containerWidth)
    ensures r.itemWidth * r.itemsDisplayed <= innerWidth < (r.itemWidth + 1) * r.itemsDisplayed
    ensures r.noScroll <==> |w.items| * r.itemWidth <= innerWidth
    ensures r.noScroll ==> r.left == 0
    ensures !r.noScroll ==> r.left == w.left
    ensures r.listWidth == if r.noScroll then innerWidth else |w.items| * r.itemWidth
    ensures RightStop(r) <= 0
  {
    var d := ResizeDisplayCount(containerWidth);
    var iw := ItemWidth(innerWidth, d);
    var lw := |w.items| * iw;
    if lw <= innerWidth then
      w.(itemsDisplayed := d, itemWidth := iw, left := 0, noScroll := true, listWidth := innerWidth)
    else
      w.(itemsDisplayed := d, itemWidth := iw, noScroll := false, listWidth := lw)
  }

  /**
   * `scrollChapterItemList`: nothing without a button or with the no-scroll mark;
   * otherwise the step index becomes the button's `data-chapter-index - 1` and the offset
   * moves that many button widths left, but not past the right stop.
   */
  function ScrolledTo(w: Window, item: Option<nat>): (r: Window)
    requires WellFormed(w) && (item.Some? ==> item.value < |w.items|)
    ensures WellFormed(r)
    ensures Bounded(w) ==> Bounded(r)
    ensures r == w.(stepIndex := r.stepIndex, left := r.left)
    ensures item.None? || w.noScroll ==> r == w
    ensures item.Some? && !w.noScroll ==>
      && r.stepIndex == w.items[item.value].index - 1
      && RightStop(r) <= r.left
      && (r.left == RightStop(r) || r.left == -w.itemWidth * r.stepIndex)
      && r.left >= -w.itemWidth * r.stepIndex
    ensures Bounded(w) && RightStop(w) <= 0 && ((item.Some? && !w.noScroll) || InView(w)) ==> InView(r)
  {
    if item.None? || w.noScroll then w
    else
      var step := w.items[item.value].index - 1;
      var offset := w.itemWidth * -step;
      w.(stepIndex := step, left := if offset >= RightStop(w) then offset else RightStop(w))
  }

  /** `scrollLeft`: one step left, and the offset one button width right, but not past 0. */
  function ScrolledLeft(w: Window): (r: Window)
    requires WellFormed(w)
    ensures WellFormed(r)
    ensures Bounded(w) ==> Bounded(r)
    ensures r == w.(scrollIndex := StepLeft(w.scrollIndex), left := r.left)
    ensures r.left <= 0
    ensures r.left == 0 || r.left == w.left + w.itemWidth
    ensures r.left <= w.left + w.itemWidth
    ensures Bounded(w) && InView(w) ==> InView(r)
  {
    var leftStep := w.left + w.itemWidth;
    w.(scrollIndex := StepLeft(w.scrollIndex), left := if leftStep <= 0 then leftStep else 0)
  }

  /** `scrollRight`: one step right, and the offset one button width left, but not past the right stop. */
  function ScrolledRight(w: Window): (r: Window)
    requires WellFormed(w)
    ensures WellFormed(r)
    ensures Bounded(w) ==> Bounded(r)
    ensures r == w.(scrollIndex := StepRight(w.scrollIndex, w.maxScrollIndex), left := r.left)
    ensures r.left >= RightStop(r)
    ensures r.left == RightStop(r) || r.left == w.left - w.itemWidth
    ensures r.left >= w.left - w.itemWidth
    ensures Bounded(w) && InView(w) ==> InView(r)
  {
    var rightStep := w.left - w.itemWidth;
    w.(scrollIndex := StepRight(w.scrollIndex, w.maxScrollIndex),
       left := if rightStep >= RightStop(w) then rightStep else RightStop(w))
  }

  /** The playback time `t` lies before the first kept chapter. */
  predicate BeforeFirst(w: Window, t: real) {
    |w.times| > 0 && t < w.times[0]
  }

  /** A timeupdate at `t` makes the handler take its change branch. */
  predicate ChangesChapter(w: Window, t: real) {
    && w.tracking && !BeforeFirst(w, t)
    && NewChapter(w.times, t) != 0 && NewChapter(w.times, t) != w.selected
  }

  /**
   * The part of the timeupdate handler common to both versions: with a matching chapter,
   * the scroll index steps right when the previous selection was past the first chapter
   * and is reset to 0 otherwise, on every tick.
   */
  function Stepped(w: Window): (r: Window)
    requires WellFormed(w)
    ensures WellFormed(r)
    ensures Bounded(w) ==> Bounded(r)
    ensures r == w.(scrollIndex := r.scrollIndex)
    ensures w.selected <= 1 ==> r.scrollIndex == 0
    ensures w.selected > 1 && w.scrollIndex != w.maxScrollIndex ==> r.scrollIndex == w.scrollIndex + 1
    ensures w.selected > 1 && w.scrollIndex == w.maxScrollIndex ==> r.scrollIndex == w.scrollIndex
  {
    w.(scrollIndex := if w.selected > 1 then StepRight(w.scrollIndex, w.maxScrollIndex) else 0)
  }

  /** `clearSelectedStyle` followed by adding the active class to button `k`. */
  function Activated(w: Window, k: nat): (r: Window)
    requires k < |w.items|
    ensures r == w.(items := r.items)
    ensures |r.items| == |w.items|
    ensures forall j :: 0 <= j < |r.items| ==> r.items[j] == w.items[j].(active := j == k)
  {
    var cleared := Cleared(w.items);
    w.(items := cleared[k := cleared[k].(active := true)])
  }

  /**
   * The handler once the lookup has found chapter `c` (1-based): the scroll index steps,
   * and only when `c` is not the selection already is it recorded, its button made the
   * only active one, and the list scrolled to it.
   */
  function Reached(w: Window, c: int): (r: Window)
    requires WellFormed(w) && 1 <= c <= |w.items|
    ensures WellFormed(r)
    ensures Bounded(w) ==> Bounded(r)
    ensures r.selected == c && r.scrollIndex == Stepped(w).scrollIndex
    ensures r.times == w.times && r.maxScrollIndex == w.maxScrollIndex
    ensures c == w.selected ==> r == Stepped(w)
  {
    if c == w.selected then Stepped(w)
    else ScrolledTo(Activated(Stepped(w).(selected := c), c - 1), Some(c - 1))
  }

  /**
   * A timeupdate at `t`, as the bar with the in-scope item list handles it: before the
   * first chapter the selection is cleared to 0 and nothing else changes; a time with
   * no chapter started changes nothing; otherwise the chapter found is `Reached`.
   */
  function TimeUpdated(w: Window, t: real): (r: Window)
    requires WellFormed(w)
    ensures WellFormed(r)
    ensures Bounded(w) ==> Bounded(r)
    ensures !w.tracking ==> r == w
    ensures w.tracking && BeforeFirst(w, t) ==> r == w.(selected := 0)
    ensures w.tracking && !BeforeFirst(w, t) && NewChapter(w.times, t) == 0 ==> r == w
    ensures w.tracking && !BeforeFirst(w, t) && NewChapter(w.times, t) != 0 ==>
      && r.selected == NewChapter(w.times, t)
      && r.scrollIndex == Stepped(w).scrollIndex
    ensures w.tracking && !BeforeFirst(w, t) && NewChapter(w.times, t) != 0 && NewChapter(w.times, t) == w.selected ==>
      r == Stepped(w)
    ensures r.times == w.times && r.maxScrollIndex == w.maxScrollIndex
  {
    if !w.tracking then w
    else if BeforeFirst(w, t) then w.(selected := 0)
    else
      var newChapter := NewChapter(w.times, t);
      if newChapter == 0 then w else Reached(w, newChapter)
  }

  /** The change branch of a timeupdate, spelled out. */
  lemma TimeUpdatedChangeBranch(w: Window, t: real)
    requires WellFormed(w) && ChangesChapter(w, t)
    ensures var c := NewChapter(w.times, t);
      TimeUpdated(w, t) == ScrolledTo(Activated(Stepped(w).(selected := c), c - 1), Some(c - 1))
  {
  }

  /**
   * On a change of chapter exactly the new chapter's button is active afterwards, so the
   * highlight invariant holds whatever the state before.
   */
  lemma TimeUpdatedHighlightsNewChapter(w: Window, t: real)
    requires WellFormed(w) && ChangesChapter(w, t)
    ensures var r := TimeUpdated(w, t);
      && Highlighted(r)
      && forall k :: 0 <= k < |r.items| ==> (r.items[k].active <==> k == r.selected - 1)
  {
    var c := NewChapter(w.times, t);
    var a := Activated(Stepped(w).(selected := c), c - 1);
    assert TimeUpdated(w, t) == ScrolledTo(a, Some(c - 1));
  }

  /** Every timeupdate keeps the highlight invariant and the buttons' times. */
  lemma TimeUpdatedKeepsHighlight(w: Window, t: real)
    requires WellFormed(w) && Highlighted(w)
    ensures Highlighted(TimeUpdated(w, t))
    ensures ButtonsMatch(w) ==> ButtonsMatch(TimeUpdated(w, t))
  {
    if ChangesChapter(w, t) {
      TimeUpdatedHighlightsNewChapter(w, t);
    }
  }

  /** Every timeupdate keeps the offset inside the scroll range. */
  lemma TimeUpdatedInView(w: Window, t: real)
    requires WellFormed(w) && Bounded(w) && InView(w)
    ensures InView(TimeUpdated(w, t))
  {
  }

  /**
   * `Reached` as the v8_11 file has it: the change branch records the selection and
   * clears every button, then stops on a reference to an undeclared name, so no button
   * is made active and the list is not scrolled.
   */
  function ReachedAsWritten(w: Window, c: int): (r: Window)
    requires WellFormed(w) && 1 <= c <= |w.items|
    ensures WellFormed(r)
    ensures Bounded(w) ==> Bounded(r)
    ensures c == w.selected ==> r == Reached(w, c)
    ensures c != w.selected ==> r == Stepped(w).(selected := c, items := Cleared(w.items))
  {
    if c == w.selected then Stepped(w)
    else Stepped(w).(selected := c, items := Cleared(w.items))
  }

  /** The v8_11 timeupdate handler: `TimeUpdated` with `ReachedAsWritten` in place of `Reached`. */
  function TimeUpdatedAsWritten(w: Window, t: real): (r: Window)
    requires WellFormed(w)
    ensures WellFormed(r)
    ensures Bounded(w) ==> Bounded(r)
    ensures !ChangesChapter(w, t) ==> r == TimeUpdated(w, t)
    ensures ChangesChapter(w, t) ==>
      r == Stepped(w).(selected := NewChapter(w.times, t), items := Cleared(w.items))
  {
    if !w.tracking then w
    else if BeforeFirst(w, t) then w.(selected := 0)
    else
      var newChapter := NewChapter(w.times, t);
      if newChapter == 0 then w else ReachedAsWritten(w, newChapter)
  }

  /**
   * The v8_11 handler loses the highlight on every change of chapter that the corrected
   * handler highlights: the selection is the same, but no button is active.
   */
  lemma AsWrittenLosesHighlight(w: Window, t: real)
    requires WellFormed(w) && ChangesChapter(w, t)
    ensures Highlighted(TimeUpdated(w, t))
    ensures !Highlighted(TimeUpdatedAsWritten(w, t))
    ensures TimeUpdated(w, t).selected == TimeUpdatedAsWritten(w, t).selected
  {
    TimeUpdatedHighlightsNewChapter(w, t);
    var r := TimeUpdatedAsWritten(w, t);
    assert !r.items[r.selected - 1].active;
  }

  /**
   * An input that reaches the v8_11 change branch: chapters at 0 and 30 s of a 60 s video
   * in an 880 px player, and the first timeupdate at 0 s.
   */
  lemma FirstTickChangesChapter()
    ensures ChangesChapter(ChaptersAdded(Initial, Some([Chapter(0.0, "a"), Chapter(30.0, "b")]), 880, 60.0), 0.0)
  {
    var cs := [Chapter(0.0, "a"), Chapter(30.0, "b")];
    KeptTimesAllInRange(cs, 60.0);
    var w := ChaptersAdded(Initial, Some(cs), 880, 60.0);
    ChaptersAddedButtons(Initial, cs, 880, 60.0);
    assert w.times == [0.0, 30.0];
    NewChapterSorted(w.times, 0.0, 0);
  }

  /**
   * Mounting (`addChapters` then `resize`, as the ready callback runs them) leaves the
   * offset at 0 inside a right stop that is never positive.
   */
  lemma MountedInView(chapters: seq<Chapter>, playerWidth: int, duration: real, containerWidth: int, innerWidth: int)
    requires containerWidth >= 0 && innerWidth >= 0
    ensures InView(Resized(ChaptersAdded(Initial, Some(chapters), playerWidth, duration), containerWidth, innerWidth))
  {
  }

  /**
   * A 900 px viewport fits 4 items; with 10 chapters the scroll index stops at 6 however
   * often the right arrow is pressed.
   */
  lemma TenChaptersScenario()
    ensures DisplayCount(900) == 4
    ensures StepsRight(10, 0, 10 - DisplayCount(900)) == 6
  {
    StepsRightClamped(10, 0, 6);
  }

  /** What can happen to a mounted bar: the calls and callbacks that change its state. */
  datatype Event =
    | ChaptersEvent(chapters: Option<seq<Chapter>>, playerWidth: int, duration: real)  // addChapters
    | ResizeEvent(containerWidth: nat, innerWidth: nat)                               // resize
    | SettleEvent                                                                     // resize's deferred scroll
    | LeftArrowClick                                                                  // scrollLeft
    | RightArrowClick                                                                 // scrollRight
    | TimeUpdateEvent(t: real)                                                        // timeupdate

  /** The state after one event, as the v8_2 file handles it. */
  function Apply(w: Window, e: Event): (r: Window)
    requires WellFormed(w)
    ensures WellFormed(r)
  {
    match e
    case ChaptersEvent(chapters, playerWidth, duration) => ChaptersAdded(w, chapters, playerWidth, duration)
    case ResizeEvent(containerWidth, innerWidth) => Resized(w, containerWidth, innerWidth)
    case SettleEvent => ScrolledTo(w, FirstActive(w.items))
    case LeftArrowClick => ScrolledLeft(w)
    case RightArrowClick => ScrolledRight(w)
    case TimeUpdateEvent(t) => TimeUpdated(w, t)
  }

  /** The state after a sequence of events, in order. */
  function Run(w: Window, events: seq<Event>): (r: Window)
    requires WellFormed(w)
    ensures WellFormed(r)
    decreases |events|
  {
    if |events| == 0 then w else Run(Apply(w, events[0]), events[1..])
  }

  /** The counters are in range, the highlight is sound and every button carries its time. */
  ghost predicate Consistent(w: Window) {
    Bounded(w) && Highlighted(w) && ButtonsMatch(w)
  }

  /** Every event keeps the bar consistent. */
  lemma ApplyKeepsConsistent(w: Window, e: Event)
    requires WellFormed(w) && Consistent(w)
    ensures Consistent(Apply(w, e))
  {
    match e
    case ChaptersEvent(chapters, playerWidth, duration) =>
      if chapters.Some? {
        ChaptersAddedButtons(w, chapters.value, playerWidth, duration);
      }
    case TimeUpdateEvent(t) =>
      TimeUpdatedKeepsHighlight(w, t);
    case _ =>
  }

  /** Any sequence of events keeps the bar consistent. */
  lemma {:induction false} RunKeepsConsistent(w: Window, events: seq<Event>)
    requires WellFormed(w) && Consistent(w)
    ensures Consistent(Run(w, events))
    decreases |events|
  {
    if |events| > 0 {
      ApplyKeepsConsistent(w, events[0]);
      RunKeepsConsistent(Apply(w, events[0]), events[1..]);
    }
  }

  /** Every state a freshly built bar can reach is consistent. */
  lemma ReachableConsistent(events: seq<Event>)
    ensures Consistent(Run(Initial, events))
  {
    RunKeepsConsistent(Initial, events);
  }

  /** An event that neither rebuilds the buttons nor measures the bar again. */
  predicate Scrolls(e: Event) {
    !e.ChaptersEvent? && !e.ResizeEvent?
  }

  /** Arrow clicks, ticks and the deferred scroll keep the offset inside the scroll range. */
  lemma {:induction false} RunKeepsInView(w: Window, events: seq<Event>)
    requires WellFormed(w) && Bounded(w) && InView(w)
    requires forall k :: 0 <= k < |events| ==> Scrolls(events[k])
    ensures InView(Run(w, events))
    decreases |events|
  {
    if |events| > 0 {
      var e := events[0];
      if e.TimeUpdateEvent? {
        TimeUpdatedInView(w, e.t);
      }
      assert InView(Apply(w, e));
      RunKeepsInView(Apply(w, e), events[1..]);
    }
  }

  /**
   * After the ready callback (`addChapters`, then `resize`), the offset stays inside the
   * scroll range for as long as neither of the two runs again.
   */
  lemma ReadyStaysInView(chapters: seq<Chapter>, playerWidth: int, duration: real, containerWidth: nat,
                         innerWidth: nat, events: seq<Event>)
    requires forall k :: 0 <= k < |events| ==> Scrolls(events[k])
    ensures InView(Run(Resized(ChaptersAdded(Initial, Some(chapters), playerWidth, duration), containerWidth, innerWidth), events))
  {
    MountedInView(chapters, playerWidth, duration, containerWidth, innerWidth);
    RunKeepsInView(Resized(ChaptersAdded(Initial, Some(chapters), playerWidth, duration), containerWidth, innerWidth), events);
  }

  /** `ChapterHorizontalControl`, its attribute-held state as fields. */
  class ChapterHorizontalControl {
    var times: seq<real>
    var items: seq<Item>
    var tracking: bool
    var hidden: bool
    var noScroll: bool
    var selected: int
    var scrollIndex: int
    var maxScrollIndex: int
    var stepIndex: int
    var itemsDisplayed: int
    var itemWidth: int
    var left: int
    var listWidth: int

    /** The fields as one value. */
    function Snapshot(): Window
      reads this
    {
      Window(times, items, tracking, hidden, noScroll, selected, scrollIndex, maxScrollIndex,
             stepIndex, itemsDisplayed, itemWidth, left, listWidth)
    }

    ghost predicate Valid()
      reads this
    {
      WellFormed(Snapshot())
    }

    /** The container, arrows and empty item list, hidden until chapters are added. */
    constructor ()
      ensures Snapshot() == Initial
      ensures Valid()
    {
      times, items := [], [];
      tracking, hidden, noScroll := false, true, false;
      selected, scrollIndex, maxScrollIndex, stepIndex := 0, 0, 0, 0;
      itemsDisplayed, itemWidth, left, listWidth := 1, 0, 0, 0;
    }

    /** The attribute writes at the head of `addChapters`. */
    method ResetCounters(total: nat, displayNumber: int)
      requires Valid() && displayNumber >= 1
      modifies this
      ensures Snapshot() == CountersReset(old(Snapshot()), total, displayNumber)
      ensures Valid()
    {
      left := 0;
      itemsDisplayed := displayNumber;
      selected, stepIndex, scrollIndex := 0, 0, 0;
      maxScrollIndex := total - displayNumber;
    }

    method AddChapters(chapters: Option<seq<Chapter>>, playerWidth: int, duration: real)
      requires Valid()
      modifies this
      ensures Snapshot() == ChaptersAdded(old(Snapshot()), chapters, playerWidth, duration)
      ensures Valid()
    {
      if chapters.None? {
        hidden := true;
        return;
      }
      var cs := chapters.value;
      var displayNumber := playerWidth / MinChapterItemWidth;
      if displayNumber < 1 {
        displayNumber := 1;
      }
      ResetCounters(|cs|, displayNumber);
      var kept, positions := FilterChapters(cs, duration);
      times, items := kept, ItemsFor(cs, positions);
      tracking, hidden := tracking || |cs| > 0, false;
    }

    /** `clearSelectedStyle`: removes the active class from every button, one by one. */
    method ClearSelectedStyle()
      modifies this
      ensures Snapshot() == old(Snapshot()).(items := Cleared(old(items)))
    {
      var i := 0;
      while i < |items|
        invariant 0 <= i <= |items| == |old(items)|
        invariant forall k :: 0 <= k < i ==> items[k] == old(items)[k].(active := false)
        invariant forall k :: i <= k < |items| ==> items[k] == old(items)[k]
        invariant Snapshot() == old(Snapshot()).(items := items)
      {
        items := items[i := items[i].(active := false)];
        i := i + 1;
      }
    }

    method ScrollChapterItemList(item: Option<nat>)
      requires Valid() && (item.Some? ==> item.value < |items|)
      modifies this
      ensures Snapshot() == ScrolledTo(old(Snapshot()), item)
      ensures Valid()
    {
      if item.None? || noScroll {
        return;
      }
      var newStepIndex := items[item.value].index - 1;
      var newLeftOffset := itemWidth * -newStepIndex;
      var rightStop := -(listWidth - itemWidth * itemsDisplayed);
      stepIndex := newStepIndex;
      left := if newLeftOffset >= rightStop then newLeftOffset else rightStop;
    }

    method ScrollLeft()
      requires Valid()
      modifies this
      ensures Snapshot() == ScrolledLeft(old(Snapshot()))
      ensures Valid()
    {
      scrollIndex := if scrollIndex == 0 then 0 else scrollIndex - 1;
      var leftStep := left + itemWidth;
      left := if leftStep <= 0 then leftStep else 0;
    }

    method ScrollRight()
      requires Valid()
      modifies this
      ensures Snapshot() == ScrolledRight(old(Snapshot()))
      ensures Valid()
    {
      var rightStep := left - itemWidth;
      var rightStop := -(listWidth - itemWidth * itemsDisplayed);
      scrollIndex := if scrollIndex == maxScrollIndex then scrollIndex else scrollIndex + 1;
      left := if rightStep >= rightStop then rightStep else rightStop;
    }

    /** `resize` up to the deferred scroll, which `Settle` models. */
    method Resize(containerWidth: int, innerWidth: int)
      requires Valid() && containerWidth >= 0 && innerWidth >= 0
      modifies this
      ensures Snapshot() == Resized(old(Snapshot()), containerWidth, innerWidth)
      ensures Valid()
    {
      var displayNumber := containerWidth / MinChapterItemWidth;
      if displayNumber == 0 {
        displayNumber := 1;
      }
      assert displayNumber == ResizeDisplayCount(containerWidth);
      itemsDisplayed := displayNumber;
      var chapterItemWidth := innerWidth / displayNumber;
      assert chapterItemWidth == ItemWidth(innerWidth, displayNumber);
      itemWidth := chapterItemWidth;
      var totalItems := |items|;
      var newListWidth := totalItems * chapterItemWidth;
      if newListWidth <= innerWidth {
        left := 0;
        noScroll := true;
        listWidth := innerWidth;
      } else {
        noScroll := false;
        listWidth := newListWidth;
      }
    }

    /** The callback `resize` schedules when the list overflows: scroll to the active button, if any. */
    method Settle()
      requires Valid()
      modifies this
      ensures Snapshot() == ScrolledTo(old(Snapshot()), FirstActive(old(items)))
      ensures Valid()
    {
      ScrollChapterItemList(FirstActive(items));
    }

    /** The ready callback: `addChapters`, then `resize`. */
    method Ready(chapters: Option<seq<Chapter>>, playerWidth: int, duration: real, containerWidth: int, innerWidth: int)
      requires Valid() && containerWidth >= 0 && innerWidth >= 0
      modifies this
      ensures Snapshot() == Resized(ChaptersAdded(old(Snapshot()), chapters, playerWidth, duration), containerWidth, innerWidth)
      ensures Valid()
    {
      AddChapters(chapters, playerWidth, duration);
      Resize(containerWidth, innerWidth);
    }

    /**
     * The change branch of the timeupdate handler: record the new chapter, make its button
     * the only active one, and scroll the list to it.
     */
    method SelectChapter(newChapter: int)
      requires Valid() && 1 <= newChapter <= |items|
      modifies this
      ensures Snapshot() == ScrolledTo(Activated(old(Snapshot()).(selected := newChapter), newChapter - 1), Some(newChapter - 1))
      ensures Valid()
    {
      selected := newChapter;
      ClearSelectedStyle();
      items := items[newChapter - 1 := items[newChapter - 1].(active := true)];
      ScrollChapterItemList(Some(newChapter - 1));
    }

    /** The timeupdate handler of the v8_2 file, from the point where the lookup has found `newChapter`. */
    method MoveTo(newChapter: int)
      requires Valid() && 1 <= newChapter <= |items|
      modifies this
      ensures Snapshot() == Reached(old(Snapshot()), newChapter)
      ensures Valid()
    {
      var currentChapter := selected;
      if currentChapter > 1 {
        scrollIndex := if scrollIndex == maxScrollIndex then scrollIndex else scrollIndex + 1;
      } else {
        scrollIndex := 0;
      }
      if newChapter != currentChapter {
        SelectChapter(newChapter);
      }
    }

    /** A timeupdate at `t`, handled as in the v8_2 file. */
    method TimeUpdate(t: real)
      requires Valid()
      modifies this
      ensures Snapshot() == TimeUpdated(old(Snapshot()), t)
      ensures Valid()
    {
      if !tracking {
        return;
      }
      if |times| > 0 && t < times[0] {
        selected := 0;
        return;
      }
      var small := AtOrBefore(times, t);
      if |small| > 0 {
        var newChapter := IndexOfTime(times, small[|small| - 1]) + 1;
        MoveTo(newChapter);
      }
    }

    /**
     * `MoveTo` as the v8_11 file has it; `threw` reports the reference error that ends its
     * change branch.
     */
    method MoveToAsWritten(newChapter: int) returns (threw: bool)
      requires Valid() && 1 <= newChapter <= |items|
      modifies this
      ensures Snapshot() == ReachedAsWritten(old(Snapshot()), newChapter)
      ensures Valid()
      ensures threw <==> newChapter != old(selected)
    {
      threw := false;
      var currentChapter := selected;
      if currentChapter > 1 {
        scrollIndex := if scrollIndex == maxScrollIndex then scrollIndex else scrollIndex + 1;
      } else {
        scrollIndex := 0;
      }
      if newChapter != currentChapter {
        selected := newChapter;
        ClearSelectedStyle();
        threw := true;
      }
    }

    /**
     * A timeupdate at `t`, handled as in the v8_11 file; `threw` reports the reference
     * error that ends its change branch.
     */
    method TimeUpdateAsWritten(t: real) returns (threw: bool)
      requires Valid()
      modifies this
      ensures Snapshot() == TimeUpdatedAsWritten(old(Snapshot()), t)
      ensures Valid()
      ensures threw <==> ChangesChapter(old(Snapshot()), t)
    {
      threw := false;
      if !tracking {
        return;
      }
      if |times| > 0 && t < times[0] {
        selected := 0;
        return;
      }
      var small := AtOrBefore(times, t);
      if |small| > 0 {
        var newChapter := IndexOfTime(times, small[|small| - 1]) + 1;
        threw := MoveToAsWritten(newChapter);
      }
    }
  }
}
