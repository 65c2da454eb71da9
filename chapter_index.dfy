/**
 * The chapter list: the filter that keeps the chapters lying within the media
 * duration, and the three ways the controls map a playback time to a chapter.
 * Times are only compared, never computed, so they are modelled as `real`.
 */
module ChapterIndex {

  /** One entry of `options.chapters`. */
  datatype Chapter = Chapter(time: real, caption: string)  // `caption` is the source's `label`, a keyword in Dafny

  /** The filter loops keep a chapter unless `time < 0 || time > duration`. */
  predicate InRange(c: Chapter, duration: real) {
    0.0 <= c.time <= duration
  }

  /** Strictly ascending times (the order the plugin expects but never checks). */
  predicate Ascending(times: seq<real>) {
    forall i, j :: 0 <= i < j < |times| ==> times[i] < times[j]
  }

  /** No time occurs twice. */
  predicate Distinct(times: seq<real>) {
    forall i, j :: 0 <= i < j < |times| ==> times[i] != times[j]
  }

  /**
   * The input positions, among the first `n`, of the chapters the filter keeps, in
   * input order: exactly the in-range ones, strictly increasing.
   */
  function Kept(chapters: seq<Chapter>, duration: real, n: nat): (r: seq<nat>)
    requires n <= |chapters|
    ensures |r| <= n
    ensures forall k :: 0 <= k < |r| ==> r[k] < n && InRange(chapters[r[k]], duration)
    ensures forall k, l :: 0 <= k < l < |r| ==> r[k] < r[l]
    ensures forall i :: 0 <= i < n && InRange(chapters[i], duration) ==> i in r
  {
    if n == 0 then []
    else Kept(chapters, duration, n - 1) + (if InRange(chapters[n - 1], duration) then [n - 1] else [])
  }

  /** The chapters at the given input positions. */
  function TimesAt(chapters: seq<Chapter>, positions: seq<nat>): (times: seq<real>)
    requires forall k :: 0 <= k < |positions| ==> positions[k] < |chapters|
    ensures |times| == |positions|
    ensures forall k :: 0 <= k < |times| ==> times[k] == chapters[positions[k]].time
  {
    seq(|positions|, k requires 0 <= k < |positions| => chapters[positions[k]].time)
  }

  /** The times the filter keeps: `chapterTimeArray`. */
  function KeptTimes(chapters: seq<Chapter>, duration: real): seq<real> {
    TimesAt(chapters, Kept(chapters, duration, |chapters|))
  }

  /**
   * The filter loop shared by the dropdown constructor and `addChapters`: pushes the
   * time of every chapter with `0 <= time <= duration`, in input order, and reports the
   * input position of each (the source numbers its buttons from it).
   */
  method FilterChapters(chapters: seq<Chapter>, duration: real) returns (times: seq<real>, positions: seq<nat>)
    ensures positions == Kept(chapters, duration, |chapters|)
    ensures times == TimesAt(chapters, positions)
  {
    times, positions := [], [];
    var i := 0;
    while i < |chapters|
      invariant 0 <= i <= |chapters|
      invariant positions == Kept(chapters, duration, i)
      invariant times == TimesAt(chapters, positions)
    {
      if chapters[i].time < 0.0 || chapters[i].time > duration {
        i := i + 1;
        continue;
      }
      times := times + [chapters[i].time];
      positions := positions + [i];
      i := i + 1;
    }
  }

  /** All chapters are kept exactly when every one of them lies in range. */
  lemma {:induction false} KeptAll(chapters: seq<Chapter>, duration: real, n: nat)
    requires n <= |chapters|
    ensures |Kept(chapters, duration, n)| == n <==> forall i :: 0 <= i < n ==> InRange(chapters[i], duration)
  {
    if n > 0 {
      var prev := Kept(chapters, duration, n - 1);
      KeptAll(chapters, duration, n - 1);
      if InRange(chapters[n - 1], duration) {
        assert |Kept(chapters, duration, n)| == |prev| + 1;
      } else {
        assert |Kept(chapters, duration, n)| == |prev| < n;
      }
    }
  }

  /**
   * The k-th kept chapter sits at input position `>= k`, and at exactly `k` only when
   * no chapter before it was dropped: so `data-chapter-index` (input position + 1) is
   * at least the button's place in the list, and equal to it only without filtering.
   */
  lemma {:induction false} KeptRank(chapters: seq<Chapter>, duration: real, n: nat, k: nat)
    requires n <= |chapters| && k < |Kept(chapters, duration, n)|
    ensures Kept(chapters, duration, n)[k] >= k
    ensures Kept(chapters, duration, n)[k] == k <==>
            forall i :: 0 <= i < Kept(chapters, duration, n)[k] ==> InRange(chapters[i], duration)
  {
    var prev := Kept(chapters, duration, n - 1);
    var r := Kept(chapters, duration, n);
    assert r == prev + (if InRange(chapters[n - 1], duration) then [n - 1] else []);
    if k < |prev| {
      assert r[k] == prev[k];
      KeptRank(chapters, duration, n - 1, k);
    } else {
      assert r[k] == n - 1 && k == |prev|;
      KeptAll(chapters, duration, n - 1);
    }
  }

  /** When every chapter lies in range, the filter keeps all their times, in order. */
  lemma KeptTimesAllInRange(chapters: seq<Chapter>, duration: real)
    requires forall i :: 0 <= i < |chapters| ==> InRange(chapters[i], duration)
    ensures KeptTimes(chapters, duration) == seq(|chapters|, i requires 0 <= i < |chapters| => chapters[i].time)
  {
    var kept := Kept(chapters, duration, |chapters|);
    KeptAll(chapters, duration, |chapters|);
    forall k | 0 <= k < |kept|
      ensures kept[k] == k
    {
      KeptRank(chapters, duration, |chapters|, k);
    }
  }

  /**
   * The dropdown's backward scan: the greatest index whose time is `<= t`, or -1 when
   * there is none.
   */
  function LastAtOrBefore(times: seq<real>, t: real): (r: int)
    ensures -1 <= r < |times|
    ensures r >= 0 ==> times[r] <= t
    ensures forall j :: r < j < |times| ==> t < times[j]
  {
    if |times| == 0 then -1
    else if times[|times| - 1] <= t then |times| - 1
    else LastAtOrBefore(times[..|times| - 1], t)
  }

  /** The two properties of `LastAtOrBefore` pin it down. */
  lemma LastAtOrBeforeUnique(times: seq<real>, t: real, r: int)
    requires -1 <= r < |times|
    requires r >= 0 ==> times[r] <= t
    requires forall j :: r < j < |times| ==> t < times[j]
    ensures LastAtOrBefore(times, t) == r
  {
  }

  /**
   * On ascending times, the chapter whose interval `[times[i], times[i+1])` holds `t`
   * is found, the boundary `t == times[i]` included.
   */
  lemma LastAtOrBeforeSorted(times: seq<real>, t: real, i: int)
    requires Ascending(times) && 0 <= i < |times|
    requires times[i] <= t && (i + 1 == |times| || t < times[i + 1])
    ensures LastAtOrBefore(times, t) == i
  {
  }

  /** `chapterTimeArray.filter(sec => sec <= t)`: the times at or before `t`, in order. */
  function AtOrBefore(times: seq<real>, t: real): (r: seq<real>)
    ensures |r| <= |times|
    ensures forall k :: 0 <= k < |r| ==> r[k] <= t
    ensures |r| == 0 <==> LastAtOrBefore(times, t) == -1
    ensures |r| > 0 ==> r[|r| - 1] == times[LastAtOrBefore(times, t)]
  {
    if |times| == 0 then []
    else
      var rest := AtOrBefore(times[..|times| - 1], t);
      if times[|times| - 1] <= t then rest + [times[|times| - 1]] else rest
  }

  /** `chapterTimeArray.indexOf(x)`: the first index holding `x`, or -1. */
  function IndexOfTime(times: seq<real>, x: real): (r: int)
    ensures -1 <= r < |times|
    ensures r == -1 <==> x !in times
    ensures r >= 0 ==> times[r] == x && forall j :: 0 <= j < r ==> times[j] != x
  {
    if |times| == 0 then -1
    else if times[0] == x then 0
    else
      var r := IndexOfTime(times[1..], x);
      assert x in times[1..] ==> x in times;
      if r == -1 then -1 else r + 1
  }

  /**
   * The horizontal control's lookup (`filter`, take the last, `indexOf`, plus one): the
   * 1-based number of the first chapter that has the same time as the last chapter at or
   * before `t`, or 0 when no chapter has started.
   */
  function NewChapter(times: seq<real>, t: real): (r: int)
    ensures 0 <= r <= |times|
    ensures r == 0 <==> LastAtOrBefore(times, t) == -1
    ensures r > 0 ==> r - 1 <= LastAtOrBefore(times, t) && times[r - 1] == times[LastAtOrBefore(times, t)]
    ensures r > 0 ==> forall j :: 0 <= j < r - 1 ==> times[j] != times[LastAtOrBefore(times, t)]
  {
    var small := AtOrBefore(times, t);
    if |small| > 0 then IndexOfTime(times, small[|small| - 1]) + 1 else 0
  }

  /** Without repeated times, the horizontal lookup agrees with the dropdown's scan. */
  lemma NewChapterDistinct(times: seq<real>, t: real)
    requires Distinct(times)
    ensures NewChapter(times, t) == LastAtOrBefore(times, t) + 1
  {
  }

  /**
   * On ascending times, the horizontal lookup selects chapter `i + 1` throughout the
   * interval `[times[i], times[i+1])`, its left end included.
   */
  lemma NewChapterSorted(times: seq<real>, t: real, i: int)
    requires Ascending(times) && 0 <= i < |times|
    requires times[i] <= t && (i + 1 == |times| || t < times[i + 1])
    ensures NewChapter(times, t) == i + 1
  {
    NewChapterDistinct(times, t);
  }

  /**
   * With a repeated time the horizontal lookup and the dropdown disagree. At 12 s the
   * dropdown selects option 2 (0-based: the third chapter); `indexOf` finds the first copy
   * of 10 s, so the horizontal bar selects chapter 2 (1-based: the second chapter) and the
   * third chapter is never highlighted.
   */
  lemma NewChapterRepeatedTime()
    ensures LastAtOrBefore([0.0, 10.0, 10.0], 12.0) == 2
    ensures NewChapter([0.0, 10.0, 10.0], 12.0) == 2
  {
    var times := [0.0, 10.0, 10.0];
    assert IndexOfTime(times, 10.0) == 1;
  }

  /**
   * The forward scan of `highlight`: the last index of the longest prefix whose times
   * are all `<= t`, or -1. The scan stops at the first later chapter.
   */
  function ScanForward(times: seq<real>, t: real): (r: int)
    ensures -1 <= r < |times|
    ensures forall j :: 0 <= j <= r ==> times[j] <= t
    ensures r + 1 < |times| ==> t < times[r + 1]
  {
    if |times| == 0 || t < times[0] then -1
    else 1 + ScanForward(times[1..], t)
  }

  /** The forward scan's result is the only index with the properties it ensures. */
  lemma ScanForwardUnique(times: seq<real>, t: real, r: int)
    requires -1 <= r < |times|
    requires forall j :: 0 <= j <= r ==> times[j] <= t
    requires r + 1 < |times| ==> t < times[r + 1]
    ensures ScanForward(times, t) == r
  {
  }

  /** The forward scan never goes past the backward scan. */
  lemma ScanForwardAtMostLast(times: seq<real>, t: real)
    ensures ScanForward(times, t) <= LastAtOrBefore(times, t)
  {
  }

  /** On ascending times the forward scan finds the same chapter as the backward scan. */
  lemma ScanForwardSorted(times: seq<real>, t: real)
    requires Ascending(times)
    ensures ScanForward(times, t) == LastAtOrBefore(times, t)
  {
    var r := ScanForward(times, t);
    if r + 1 < |times| {
      assert forall j :: r < j < |times| ==> times[r + 1] <= times[j];
    }
    LastAtOrBeforeUnique(times, t, r);
  }

  /** Chapters after the first one later than `t` are never looked at. */
  lemma {:induction false} ScanForwardPrefix(times: seq<real>, rest: seq<real>, t: real)
    requires ScanForward(times, t) < |times| - 1
    ensures ScanForward(times + rest, t) == ScanForward(times, t)
  {
    if |times| > 0 && !(t < times[0]) {
      assert (times + rest)[1..] == times[1..] + rest;
      ScanForwardPrefix(times[1..], rest, t);
    }
  }

  /** The chapters at 0, 30 and 90 s of a 120 s video are all kept. */
  lemma ThreeChaptersKept()
    ensures KeptTimes([Chapter(0.0, "a"), Chapter(30.0, "b"), Chapter(90.0, "c")], 120.0) == [0.0, 30.0, 90.0]
  {
    KeptTimesAllInRange([Chapter(0.0, "a"), Chapter(30.0, "b"), Chapter(90.0, "c")], 120.0);
  }

  /**
   * With chapters at 0, 30 and 90 s: chapter 1 at 0 and 29.9 s, chapter 2 from 30 s,
   * chapter 3 from 90 s on, also past the end.
   */
  lemma ThreeChaptersLookup()
    ensures NewChapter([0.0, 30.0, 90.0], 0.0) == 1
    ensures NewChapter([0.0, 30.0, 90.0], 29.9) == 1
    ensures NewChapter([0.0, 30.0, 90.0], 30.0) == 2
    ensures NewChapter([0.0, 30.0, 90.0], 200.0) == 3
  {
    var times := [0.0, 30.0, 90.0];
    assert Ascending(times);
    NewChapterSorted(times, 0.0, 0);
    NewChapterSorted(times, 29.9, 0);
    NewChapterSorted(times, 30.0, 1);
    NewChapterSorted(times, 200.0, 2);
  }
}
