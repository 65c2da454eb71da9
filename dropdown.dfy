/** The dropdown variant: a `<select>` with one option per kept chapter. */
module Dropdown {
  import opened ChapterIndex

  /** `ChapterDropdownControl`: the option times and the select's `selectedIndex`. */
  class DropdownControl {
    /** `chapterTimeArray`, captured by the timeupdate handler. */
    const times: seq<real>
    /** `selectList.selectedIndex`; -1 means no option is selected. */
    var selectedIndex: int

    /**
     * Builds the options from the chapters inside the duration and selects the first.
     * Setting `selectedIndex = 0` on a select without options leaves it at -1.
     */
    constructor (chapters: seq<Chapter>, duration: real)
      ensures times == KeptTimes(chapters, duration)
      ensures selectedIndex == if |times| == 0 then -1 else 0
    {
      var kept, _ := FilterChapters(chapters, duration);
      times := kept;
      selectedIndex := if |kept| == 0 then -1 else 0;
    }

    /**
     * The timeupdate handler: nothing happens before the first chapter or without
     * chapters; otherwise the option of the last chapter at or before `t` is selected.
     */
    method OnTimeUpdate(t: real)
      modifies this
      ensures selectedIndex == if |times| == 0 || t < times[0] then old(selectedIndex) else LastAtOrBefore(times, t)
    {
      if |times| == 0 || t < times[0] {
        return;
      }
      var c := |times|;
      while c > 0
        invariant 0 <= c <= |times|
        invariant forall j :: c <= j < |times| ==> t < times[j]
        invariant selectedIndex == old(selectedIndex)
      {
        if t >= times[c - 1] {
          if selectedIndex != c - 1 {
            selectedIndex := c - 1;
          }
          LastAtOrBeforeUnique(times, t, c - 1);
          break;
        }
        c := c - 1;
      }
    }
  }
}
