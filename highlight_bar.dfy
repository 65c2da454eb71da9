/**
 * The Video.js 8 rewrite of the plugin: a horizontal list with one item per chapter,
 * highlighted by a forward scan on every tick, and a progress bar with one marker per
 * chapter. Neither filters the chapters against the duration.
 */
module HighlightBar {
  import opened ChapterIndex

  /** The time of every chapter, in input order. */
  function AllTimes(chapters: seq<Chapter>): (times: seq<real>)
    ensures |times| == |chapters|
    ensures forall i :: 0 <= i < |times| ==> times[i] == chapters[i].time
  {
    seq(|chapters|, i requires 0 <= i < |chapters| => chapters[i].time)
  }

  /**
   * Keeping every chapter agrees with the duration filter of the other controls
   * exactly when no chapter lies outside the duration.
   */
  lemma AllTimesVersusFilter(chapters: seq<Chapter>, duration: real)
    ensures AllTimes(chapters) == KeptTimes(chapters, duration) <==>
            forall i :: 0 <= i < |chapters| ==> InRange(chapters[i], duration)
  {
    if forall i :: 0 <= i < |chapters| ==> InRange(chapters[i], duration) {
      KeptTimesAllInRange(chapters, duration);
    }
    if AllTimes(chapters) == KeptTimes(chapters, duration) {
      assert |Kept(chapters, duration, |chapters|)| == |chapters|;
      KeptAll(chapters, duration, |chapters|);
    }
  }

  /** The number of flags that are set: the number of items carrying `vjs-current`. */
  function CountSet(flags: seq<bool>): (n: nat)
    ensures n <= |flags|
  {
    if |flags| == 0 then 0 else (if flags[0] then 1 else 0) + CountSet(flags[1..])
  }

  /** When exactly the flag at `c` is set, one flag is set if `c` is an index, none otherwise. */
  lemma {:induction false} CountSetSingle(flags: seq<bool>, c: int)
    requires forall j :: 0 <= j < |flags| ==> (flags[j] <==> j == c)
    ensures CountSet(flags) == if 0 <= c < |flags| then 1 else 0
  {
    if |flags| > 0 {
      CountSetSingle(flags[1..], c - 1);
    }
  }

  /** `ChapterMarkersProgressBarControl`: one marker per chapter, holding its time. */
  class MarkerBar {
    /** The time of each marker in `this.markers`. */
    var markers: seq<real>

    /** `buildMarkers`: pushes a marker for every chapter, in input order. */
    constructor (chapters: seq<Chapter>)
      ensures markers == AllTimes(chapters)
    {
      var pushed := [];
      var i := 0;
      while i < |chapters|
        invariant 0 <= i <= |chapters|
        invariant pushed == AllTimes(chapters[..i])
      {
        pushed := pushed + [chapters[i].time];
        i := i + 1;
      }
      assert chapters[..i] == chapters;
      markers := pushed;
    }
  }

  /**
   * `ChapterHorizontalControl` of the rewrite: the list item at position `j` has
   * `data-index = j` and the chapter's time; `current[j]` says whether it carries
   * `vjs-current`.
   */
  class HorizontalBar {
    /** The chapter times, read from the options on every tick. */
    const times: seq<real>
    var current: seq<bool>

    /** One flag per list item. */
    ghost predicate Valid()
      reads this
    {
      |current| == |times|
    }

    /** `buildList`: one item per chapter, none highlighted. */
    constructor (chapters: seq<Chapter>)
      ensures times == AllTimes(chapters)
      ensures current == seq(|chapters|, j => false)
      ensures Valid()
    {
      times := AllTimes(chapters);
      var flags := [];
      var i := 0;
      while i < |chapters|
        invariant 0 <= i <= |chapters|
        invariant flags == seq(i, j => false)
      {
        flags := flags + [false];
        i := i + 1;
      }
      current := flags;
    }

    /**
     * `highlight`: scans forward while the chapter has started, stopping at the first
     * later one, then toggles `vjs-current` so that exactly the item whose index is the
     * result carries it (none when the result is -1).
     */
    method Highlight(t: real) returns (cur: int)
      requires Valid()
      modifies this
      ensures cur == ScanForward(times, t)
      ensures cur == -1 <==> |times| == 0 || t < times[0]
      ensures |current| == |times|
      ensures forall j :: 0 <= j < |current| ==> (current[j] <==> j == cur)
      ensures Valid()
    {
      cur := -1;
      var i := 0;
      while i < |times|
        invariant 0 <= i <= |times|
        invariant cur == i - 1
        invariant forall j :: 0 <= j < i ==> times[j] <= t
      {
        if t >= times[i] {
          cur := i;
        } else {
          break;
        }
        i := i + 1;
      }
      ScanForwardUnique(times, t, cur);

      var j := 0;
      while j < |current|
        invariant 0 <= j <= |current| == |times|
        invariant forall k :: 0 <= k < j ==> (current[k] <==> k == cur)
      {
        current := current[j := j == cur];
        j := j + 1;
      }
    }
  }

  /** After any tick at most one item is highlighted, and one is iff a chapter has started. */
  lemma HighlightCount(times: seq<real>, t: real, flags: seq<bool>)
    requires |flags| == |times|
    requires forall j :: 0 <= j < |flags| ==> (flags[j] <==> j == ScanForward(times, t))
    ensures CountSet(flags) == if |times| > 0 && times[0] <= t then 1 else 0
  {
    CountSetSingle(flags, ScanForward(times, t));
  }
}
