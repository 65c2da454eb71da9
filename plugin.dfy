/**
 * The `Chapters` plugin constructors: once the metadata is loaded, each chooses which
 * control to build from `chapterType` and the chapter list. An option the caller did
 * not set is `None`.
 */
module Plugin {
  import opened Wrappers
  import opened ChapterIndex

  /** The control a plugin builds, if any. */
  datatype Rendered = NothingRendered | DropdownList | ProgressMarkers | HorizontalList

  /** `toLowerCase` on one character, for the ASCII letters. */
  function LowerChar(ch: char): (r: char)
    ensures 'A' <= ch <= 'Z' ==> r as int == ch as int + 32
    ensures !('A' <= ch <= 'Z') ==> r == ch
    ensures !('A' <= r <= 'Z')
  {
    if 'A' <= ch <= 'Z' then (ch as int + 32) as char else ch
  }

  /** `toLowerCase` on a string: every upper-case ASCII letter replaced, nothing else. */
  function LowerCase(s: string): (r: string)
    ensures |r| == |s|
    ensures forall i :: 0 <= i < |s| ==> r[i] == LowerChar(s[i])
  {
    if |s| == 0 then "" else [LowerChar(s[0])] + LowerCase(s[1..])
  }

  /** Lowering twice is lowering once. */
  lemma LowerCaseIdempotent(s: string)
    ensures LowerCase(LowerCase(s)) == LowerCase(s)
  {
    var once := LowerCase(s);
    assert forall i :: 0 <= i < |once| ==> LowerCase(once)[i] == once[i];
  }

  /**
   * The constructor of the Video.js 8.2 plugin: nothing without a `chapterType`, without
   * `chapters` or with no chapter; then, ignoring case, `dropdown` gives the dropdown,
   * `native` and `progressbar` the progress-bar markers, and every other type the
   * horizontal list.
   */
  function DispatchV82(chapterType: Option<string>, chapters: Option<seq<Chapter>>): (r: Rendered)
    ensures r == NothingRendered <==> chapterType.None? || chapters.None? || |chapters.value| < 1
    ensures r == DropdownList <==> r != NothingRendered && LowerCase(chapterType.value) == "dropdown"
    ensures r == ProgressMarkers <==>
            r != NothingRendered && LowerCase(chapterType.value) in {"native", "progressbar"}
  {
    if chapterType.None? || chapters.None? then NothingRendered
    else if |chapters.value| < 1 then NothingRendered
    else match LowerCase(chapterType.value) {
      case "dropdown" => DropdownList
      case "native" => ProgressMarkers
      case "progressbar" => ProgressMarkers
      case _ => HorizontalList
    }
  }

  /**
   * The constructor of the Video.js 8 rewrite: `chapterType` defaults to `horizontal` and
   * `chapters` to the empty list; nothing for an empty list; then, ignoring case,
   * `dropdown` and `progressbar` pick their controls and every other type, `native`
   * included, the horizontal list.
   */
  function DispatchV8(chapterType: Option<string>, chapters: Option<seq<Chapter>>): (r: Rendered)
    ensures r == NothingRendered <==> chapters.None? || |chapters.value| == 0
    ensures r == DropdownList <==>
            r != NothingRendered && chapterType.Some? && LowerCase(chapterType.value) == "dropdown"
    ensures r == ProgressMarkers <==>
            r != NothingRendered && chapterType.Some? && LowerCase(chapterType.value) == "progressbar"
  {
    var kind := if chapterType.Some? then chapterType.value else "horizontal";
    var list := if chapters.Some? then chapters.value else [];
    if |list| == 0 then NothingRendered
    else match LowerCase(kind) {
      case "dropdown" => DropdownList
      case "progressbar" => ProgressMarkers
      case _ => HorizontalList
    }
  }

  /** Both dispatches ignore the case of `chapterType`. */
  lemma DispatchIgnoresCase(chapterType: string, chapters: Option<seq<Chapter>>)
    ensures DispatchV82(Some(chapterType), chapters) == DispatchV82(Some(LowerCase(chapterType)), chapters)
    ensures DispatchV8(Some(chapterType), chapters) == DispatchV8(Some(LowerCase(chapterType)), chapters)
  {
    LowerCaseIdempotent(chapterType);
  }

  /**
   * Given a type and at least one chapter, the two versions agree except on `native`,
   * which gives markers in 8.2 but the horizontal list in the rewrite.
   */
  lemma DispatchVersionsCompared(chapterType: string, chapters: seq<Chapter>)
    requires |chapters| > 0
    ensures LowerCase(chapterType) != "native" ==>
              DispatchV82(Some(chapterType), Some(chapters)) == DispatchV8(Some(chapterType), Some(chapters))
    ensures LowerCase(chapterType) == "native" ==>
              DispatchV82(Some(chapterType), Some(chapters)) == ProgressMarkers &&
              DispatchV8(Some(chapterType), Some(chapters)) == HorizontalList
  {
  }

  /** Without a type only the rewrite renders: its default, the horizontal list. */
  lemma DispatchWithoutType(chapters: seq<Chapter>)
    requires |chapters| > 0
    ensures DispatchV82(None, Some(chapters)) == NothingRendered
    ensures DispatchV8(None, Some(chapters)) == HorizontalList
  {
  }

  /** `Dropdown` is recognised by 8.2 as the dropdown. */
  lemma CapitalisedDropdown(chapters: seq<Chapter>)
    requires |chapters| > 0
    ensures DispatchV82(Some("Dropdown"), Some(chapters)) == DropdownList
  {
    assert LowerCase("Dropdown") == "dropdown";
  }

  /** `NATIVE` gives markers in 8.2 and the horizontal list in the rewrite. */
  lemma UpperCaseNative(chapters: seq<Chapter>)
    requires |chapters| > 0
    ensures DispatchV82(Some("NATIVE"), Some(chapters)) == ProgressMarkers
    ensures DispatchV8(Some("NATIVE"), Some(chapters)) == HorizontalList
  {
    assert LowerCase("NATIVE") == "native";
  }
}
