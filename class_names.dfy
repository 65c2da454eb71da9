/**
 * The class-name helpers of the horizontal control: `addClass`, `removeClass` and
 * `hasClass` work on `elem.className` as a plain string, with substring tests
 * (`indexOf`) rather than whole-token tests.
 */
module ClassNames {

  /** The characters that JavaScript's `\s` matches and that `String.prototype.trim` strips. */
  predicate IsSpace(c: char) {
    c in Spaces
  }

  const Spaces: set<char> := {' ', '\t', '\n', '\r', '\U{000B}', '\U{000C}', '\U{00A0}', '\U{1680}',
    '\U{2000}', '\U{2001}', '\U{2002}', '\U{2003}', '\U{2004}', '\U{2005}', '\U{2006}', '\U{2007}',
    '\U{2008}', '\U{2009}', '\U{200A}', '\U{2028}', '\U{2029}', '\U{202F}', '\U{205F}', '\U{3000}', '\U{FEFF}'}

  /** `sub` occurs in `s` starting at position `i`. */
  predicate OccursAt(s: string, sub: string, i: int) {
    0 <= i && i + |sub| <= |s| && s[i..i + |sub|] == sub
  }

  /** `sub` is a substring of `s`. */
  predicate Contains(s: string, sub: string) {
    exists i :: 0 <= i <= |s| - |sub| && OccursAt(s, sub, i)
  }

  /** The characters of `s` that are not white space, in order. */
  function Unspaced(s: string): string {
    if s == [] then []
    else if IsSpace(s[0]) then Unspaced(s[1..])
    else [s[0]] + Unspaced(s[1..])
  }

  lemma {:induction false} UnspacedConcat(a: string, b: string)
    ensures Unspaced(a + b) == Unspaced(a) + Unspaced(b)
  {
    if a == [] {
      assert a + b == b;
    } else {
      assert (a + b)[0] == a[0];
      assert (a + b)[1..] == a[1..] + b;
      UnspacedConcat(a[1..], b);
    }
  }

  /** A class name as the plugin passes it: not empty, no white space at either end. */
  predicate IsToken(cls: string) {
    |cls| > 0 && !IsSpace(cls[0]) && !IsSpace(cls[|cls| - 1])
  }

  /** The class names in `s`: its maximal runs of characters that are not white space, in order. */
  function Tokens(s: string): (r: seq<string>)
    ensures s != [] && !IsSpace(s[0]) ==> r != []
  {
    if s == [] then []
    else if IsSpace(s[0]) then Tokens(s[1..])
    else
      var rest := Tokens(s[1..]);
      if |s| > 1 && !IsSpace(s[1]) then [[s[0]] + rest[0]] + rest[1..] else [[s[0]]] + rest
  }

  /** A leading white-space character separates nothing. */
  lemma TokensSpaceFirst(c: char, x: string)
    requires IsSpace(c)
    ensures Tokens([c] + x) == Tokens(x)
  {
    assert ([c] + x)[1..] == x;
  }

  /**
   * A first character that is not white space joins the first class name of what follows
   * when that starts with one, so it makes the same names of two strings that agree on
   * their names and on how they start.
   */
  lemma TokensNameFirst(c: char, x: string, y: string)
    requires !IsSpace(c) && Tokens(x) == Tokens(y)
    requires x == [] <==> y == []
    requires x != [] ==> (IsSpace(x[0]) <==> IsSpace(y[0]))
    ensures Tokens([c] + x) == Tokens([c] + y)
  {
    assert ([c] + x)[1..] == x;
    assert ([c] + y)[1..] == y;
  }

  /** White space after the last class name separates nothing. */
  lemma {:induction false} TokensSpaces(x: string, sp: string)
    requires forall k :: 0 <= k < |sp| ==> IsSpace(sp[k])
    ensures Tokens(x + sp) == Tokens(x)
    decreases |x| + |sp|
  {
    if x == [] {
      assert x + sp == sp;
      if sp != [] {
        TokensSpaces([], sp[1..]);
        assert [] + sp[1..] == sp[1..];
      }
    } else {
      assert (x + sp)[0] == x[0];
      assert (x + sp)[1..] == x[1..] + sp;
      TokensSpaces(x[1..], sp);
      if |x| == 1 && sp != [] {
        assert (x + sp)[1] == sp[0];
      }
    }
  }

  /** Leading white space separates nothing either. */
  lemma {:induction false} TokensTrimStart(s: string)
    ensures Tokens(TrimStart(s)) == Tokens(s)
  {
    if s != [] && IsSpace(s[0]) {
      TokensTrimStart(s[1..]);
    }
  }

  /** Joining two class lists with a space gives the class names of both, in order. */
  lemma {:induction false} TokensJoin(a: string, b: string)
    ensures Tokens(a + " " + b) == Tokens(a) + Tokens(b)
  {
    var s := a + " " + b;
    if a == [] {
      assert s == [' '] + b;
      assert s[1..] == b;
    } else {
      assert s[0] == a[0];
      assert s[1..] == a[1..] + " " + b;
      TokensJoin(a[1..], b);
      if |a| == 1 {
        assert s[1] == ' ';
      } else {
        assert s[1] == a[1];
      }
    }
  }

  /** `r` is the slice of `s` at `i`, and every character of `s` outside it is white space. */
  predicate TrimmedAt(s: string, r: string, i: int) {
    && 0 <= i <= |s| - |r|
    && r == s[i..i + |r|]
    && (forall k :: 0 <= k < i ==> IsSpace(s[k]))
    && (forall k :: i + |r| <= k < |s| ==> IsSpace(s[k]))
  }

  /** A class-name string in which every space is ' ' and no two spaces are adjacent. */
  predicate Normalized(s: string) {
    && (forall i :: 0 <= i < |s| && IsSpace(s[i]) ==> s[i] == ' ')
    && (forall i :: 0 <= i < |s| - 1 ==> !(IsSpace(s[i]) && IsSpace(s[i + 1])))
  }

  /** `String.prototype.indexOf(sub, from)`: the first position at or after `from` where `sub` occurs, or -1. */
  function IndexOfFrom(s: string, sub: string, from: nat): (r: int)
    ensures r == -1 || (from <= r && OccursAt(s, sub, r))
    ensures forall j :: from <= j && (r == -1 || j < r) ==> !OccursAt(s, sub, j)
    decreases |s| - from
  {
    if from + |sub| > |s| then -1
    else if s[from..from + |sub|] == sub then from
    else IndexOfFrom(s, sub, from + 1)
  }

  /** `s.indexOf(sub)`: the first occurrence of `sub` in `s`, or -1 when there is none. */
  function IndexOf(s: string, sub: string): (r: int)
    ensures r == -1 <==> !Contains(s, sub)
    ensures r != -1 ==> OccursAt(s, sub, r) && forall j :: 0 <= j < r ==> !OccursAt(s, sub, j)
  {
    IndexOfFrom(s, sub, 0)
  }

  /** `trimStart`: drops the leading white space. */
  function TrimStart(s: string): (r: string)
    ensures |r| <= |s| && r == s[|s| - |r|..]
    ensures r == [] || !IsSpace(r[0])
    ensures forall i :: 0 <= i < |s| - |r| ==> IsSpace(s[i])
    ensures Unspaced(r) == Unspaced(s)
  {
    if s != [] && IsSpace(s[0]) then TrimStart(s[1..]) else s
  }

  /** `trimEnd`: drops the trailing white space. */
  function TrimEnd(s: string): (r: string)
    ensures |r| <= |s| && r == s[..|r|]
    ensures r == [] || !IsSpace(r[|r| - 1])
    ensures forall i :: |r| <= i < |s| ==> IsSpace(s[i])
    ensures Unspaced(r) == Unspaced(s)
  {
    if s != [] && IsSpace(s[|s| - 1]) then
      var r := TrimEnd(s[..|s| - 1]);
      UnspacedConcat(s[..|s| - 1], [s[|s| - 1]]);
      assert s[..|s| - 1] + [s[|s| - 1]] == s;
      r
    else s
  }

  /**
   * `String.prototype.trim`: a slice of `s` with only white space cut away on either
   * side, and none left at either end.
   */
  function Trim(s: string): (r: string)
    ensures r == [] || (!IsSpace(r[0]) && !IsSpace(r[|r| - 1]))
    ensures exists i :: TrimmedAt(s, r, i)
    ensures Unspaced(r) == Unspaced(s)
  {
    var t := TrimStart(s);
    var r := TrimEnd(t);
    assert r != [] ==> r[0] == t[0];
    var i := |s| - |t|;
    assert r == s[i..i + |r|] by {
      assert r == t[..|r|];
    }
    assert forall k :: i + |r| <= k < |s| ==> IsSpace(s[k]) by {
      forall k | i + |r| <= k < |s|
        ensures IsSpace(s[k])
      {
        assert s[k] == t[k - i];
      }
    }
    assert TrimmedAt(s, r, i);
    r
  }

  /** `trim` keeps the class names, in order. */
  lemma TrimTokens(s: string)
    ensures Tokens(Trim(s)) == Tokens(s)
  {
    var t := TrimStart(s);
    TokensTrimStart(s);
    TokensTrimEnd(t);
  }

  /** Trailing white space separates nothing. */
  lemma TokensTrimEnd(t: string)
    ensures Tokens(TrimEnd(t)) == Tokens(t)
  {
    var r := TrimEnd(t);
    var sp := t[|r|..];
    assert t == r + sp by {
      assert r == t[..|r|];
    }
    forall k | 0 <= k < |sp|
      ensures IsSpace(sp[k])
    {
      assert sp[k] == t[|r| + k];
    }
    TokensSpaces(r, sp);
  }

  /** `s.replace(/\s+/g, ' ')`: every maximal run of white space becomes one ' '. */
  function CollapseSpaces(s: string): (r: string)
    ensures Normalized(r)
    ensures Unspaced(r) == Unspaced(s)
    ensures |r| <= |s|
    ensures r == [] <==> s == []
    ensures s != [] ==> (IsSpace(r[0]) <==> IsSpace(s[0]))
    decreases |s|
  {
    if s == [] then []
    else if IsSpace(s[0]) then
      var rest := TrimStart(s[1..]);
      var tail := CollapseSpaces(rest);
      assert tail == [] || !IsSpace(tail[0]);
      NormalizedCons(' ', tail);
      UnspacedCons(' ', tail);
      UnspacedCons(s[0], s[1..]);
      [' '] + tail
    else
      var tail := CollapseSpaces(s[1..]);
      NormalizedCons(s[0], tail);
      UnspacedCons(s[0], tail);
      UnspacedCons(s[0], s[1..]);
      [s[0]] + tail
  }

  /** A normalized string stays normalized behind a ' ' before a non-space, or behind a non-space. */
  lemma NormalizedCons(c: char, x: string)
    requires Normalized(x)
    requires IsSpace(c) ==> c == ' ' && (x == [] || !IsSpace(x[0]))
    ensures Normalized([c] + x)
  {
    var y := [c] + x;
    forall i | 0 <= i < |y| - 1
      ensures !(IsSpace(y[i]) && IsSpace(y[i + 1]))
    {
      if i > 0 {
        assert y[i] == x[i - 1] && y[i + 1] == x[i];
      }
    }
  }

  /** The characters that are not white space, one character at a time. */
  lemma UnspacedCons(c: char, x: string)
    ensures Unspaced([c] + x) == if IsSpace(c) then Unspaced(x) else [c] + Unspaced(x)
  {
    assert ([c] + x)[1..] == x;
  }

  /** Both empty, or both start with white space or neither, and likewise at the end. */
  predicate SameEnds(r: string, s: string) {
    && (r == [] <==> s == [])
    && (r != [] && s != [] ==> (IsSpace(r[0]) <==> IsSpace(s[0])) && (IsSpace(r[|r| - 1]) <==> IsSpace(s[|s| - 1])))
  }

  /**
   * `replace(/\s+/g, ' ')` keeps the class names, in order, and a string ends in white
   * space after it exactly when it did before.
   */
  lemma {:induction false} CollapseSpacesTokens(s: string)
    ensures Tokens(CollapseSpaces(s)) == Tokens(s)
    ensures SameEnds(CollapseSpaces(s), s)
    decreases |s|
  {
    if s != [] {
      var r := CollapseSpaces(s);
      assert s == [s[0]] + s[1..];
      if IsSpace(s[0]) {
        var rest := TrimStart(s[1..]);
        CollapseSpacesTokens(rest);
        TokensSpaceFirst(' ', CollapseSpaces(rest));
        TokensTrimStart(s[1..]);
        TokensSpaceFirst(s[0], s[1..]);
        if rest != [] {
          assert rest[|rest| - 1] == s[|s| - 1];
        }
      } else {
        CollapseSpacesTokens(s[1..]);
        TokensNameFirst(s[0], CollapseSpaces(s[1..]), s[1..]);
      }
    }
  }

  /** `hasClass`: true exactly when `cls` is a substring of the class name. */
  function HasClass(className: string, cls: string): (r: bool)
    ensures r <==> Contains(className, cls)
  {
    IndexOf(className, cls) != -1
  }

  /**
   * `addClass`: unchanged when `cls` already occurs as a substring; otherwise `cls` is
   * appended after a space and the result is trimmed.
   */
  function AddClass(className: string, cls: string): (r: string)
    ensures Contains(className, cls) ==> r == className
    ensures !Contains(className, cls) ==> Tokens(r) == Tokens(className) + Tokens(cls)
    ensures !Contains(className, cls) ==> exists i :: TrimmedAt(className + " " + cls, r, i)
    ensures !Contains(className, cls) ==> Unspaced(r) == Unspaced(className) + Unspaced(cls)
    ensures !Contains(className, cls) ==> r == [] || (!IsSpace(r[0]) && !IsSpace(r[|r| - 1]))
  {
    if IndexOf(className, cls) > -1 then className
    else
      UnspacedJoin(className, cls);
      TokensJoin(className, cls);
      TrimTokens(className + " " + cls);
      Trim(className + " " + cls)
  }

  /** Joining with a space adds no character that is not white space. */
  lemma UnspacedJoin(a: string, b: string)
    ensures Unspaced(a + " " + b) == Unspaced(a) + Unspaced(b)
  {
    UnspacedConcat(a + " ", b);
    UnspacedConcat(a, " ");
    assert Unspaced(" ") == [];
  }

  /**
   * `removeClass`: unchanged when `cls` does not occur; otherwise its first occurrence is
   * cut out and every run of white space is collapsed to a single ' ' (nothing is trimmed).
   */
  function RemoveClass(className: string, cls: string): (r: string)
    ensures !Contains(className, cls) ==> r == className
    ensures Contains(className, cls) ==> Normalized(r) && |r| <= |className| - |cls|
    ensures Contains(className, cls) ==>
      var i := IndexOf(className, cls);
      var cut := className[..i] + className[i + |cls|..];
      && Tokens(r) == Tokens(cut)
      && SameEnds(r, cut)
      && Unspaced(r) == Unspaced(cut)
  {
    var i := IndexOf(className, cls);
    if i == -1 then className
    else
      var cut := className[..i] + className[i + |cls|..];
      assert |cut| == |className| - |cls|;
      CollapseSpacesTokens(cut);
      CollapseSpaces(cut)
  }

  /** Stripping leading white space never reaches past a following non-space character. */
  lemma {:induction false} TrimStartAppend(x: string, y: string)
    requires y != [] && !IsSpace(y[0])
    ensures TrimStart(x + y) == TrimStart(x) + y
  {
    if x == [] {
      assert x + y == y;
    } else {
      assert (x + y)[0] == x[0];
      if IsSpace(x[0]) {
        assert (x + y)[1..] == x[1..] + y;
        TrimStartAppend(x[1..], y);
      }
    }
  }

  /** Once a character that is not white space has been reached, what follows is kept. */
  lemma {:induction false} TrimStartKeeps(x: string, y: string)
    requires TrimStart(x) != []
    ensures TrimStart(x + y) == TrimStart(x) + y
  {
    assert (x + y)[0] == x[0];
    if IsSpace(x[0]) {
      assert (x + y)[1..] == x[1..] + y;
      TrimStartKeeps(x[1..], y);
    }
  }

  /**
   * On a class list with a class name in it (white space at its end included, as
   * `removeClass` leaves it), `addClass` drops only the leading white space and appends
   * a space and `cls`: a trailing space of the list stays, so two spaces can separate
   * the names.
   */
  lemma AddClassAfterSpace(className: string, cls: string)
    requires TrimStart(className) != []
    requires IsToken(cls) && !Contains(className, cls)
    ensures AddClass(className, cls) == TrimStart(className) + " " + cls
  {
    TrimJoin(className, cls);
    assert IndexOf(className, cls) == -1;
  }

  lemma JoinAssociates(a: string, b: string)
    ensures a + " " + b == a + (" " + b)
  {
  }

  /** Trimming `className + " " + cls` drops only the leading white space of `className`. */
  lemma TrimJoin(className: string, cls: string)
    requires TrimStart(className) != [] && IsToken(cls)
    ensures Trim(className + " " + cls) == TrimStart(className) + " " + cls
  {
    var s := className + " " + cls;
    var t := TrimStart(className) + " " + cls;
    assert TrimStart(s) == t by {
      JoinAssociates(className, cls);
      TrimStartKeeps(className, " " + cls);
    }
    assert t[|t| - 1] == cls[|cls| - 1];
  }

  /** `addClass(elem, cls)` followed by `hasClass(elem, cls)` answers true. */
  lemma AddClassThenHasClass(className: string, cls: string)
    requires IsToken(cls)
    ensures HasClass(AddClass(className, cls), cls)
  {
    if !Contains(className, cls) {
      var s := className + " " + cls;
      assert s == (className + " ") + cls;
      TrimStartAppend(className + " ", cls);
      var t := TrimStart(s);
      assert t[|t| - 1] == cls[|cls| - 1];
      assert TrimEnd(t) == t;
      assert t[|t| - |cls|..] == cls;
      assert OccursAt(t, cls, |t| - |cls|);
    }
  }

  /** A second `addClass` with the same name changes nothing. */
  lemma AddClassIdempotent(className: string, cls: string)
    requires IsToken(cls)
    ensures AddClass(AddClass(className, cls), cls) == AddClass(className, cls)
  {
    AddClassThenHasClass(className, cls);
  }

  /** Collapsing white space leaves an already normalized string as it is. */
  lemma {:induction false} CollapseNormalized(s: string)
    requires Normalized(s)
    ensures CollapseSpaces(s) == s
  {
    if s != [] {
      assert Normalized(s[1..]);
      if IsSpace(s[0]) {
        assert s[1..] == [] || !IsSpace(s[1..][0]);
        assert TrimStart(s[1..]) == s[1..];
      }
      CollapseNormalized(s[1..]);
    }
  }

  /** On a trimmed, non-empty class list that lacks `cls`, `addClass` appends " " + cls. */
  lemma AddClassToTrimmed(className: string, cls: string)
    requires className != [] && !IsSpace(className[0]) && !IsSpace(className[|className| - 1])
    requires IsToken(cls) && !Contains(className, cls)
    ensures AddClass(className, cls) == className + " " + cls
  {
    var s := className + " " + cls;
    assert TrimStart(s) == s;
    assert TrimEnd(s) == s;
  }

  /** On an empty class list, `addClass` gives `cls` itself. */
  lemma AddClassToEmpty(cls: string)
    requires IsToken(cls)
    ensures AddClass([], cls) == cls
  {
    var s := [] + " " + cls;
    assert TrimStart(s) == cls by { assert s[1..] == cls; }
    assert TrimEnd(cls) == cls;
  }

  /** When `cls` has no white space and is absent from `className`, its first occurrence in
      `className + " " + cls` is the appended one. */
  lemma FirstOccurrenceIsAppended(className: string, cls: string)
    requires |cls| > 0 && forall k :: 0 <= k < |cls| ==> !IsSpace(cls[k])
    requires !Contains(className, cls)
    ensures IndexOf(className + " " + cls, cls) == |className| + 1
  {
    var s := className + " " + cls;
    var n := |className|;
    assert OccursAt(s, cls, n + 1) by { assert s[n + 1..n + 1 + |cls|] == cls; }
    forall j | 0 <= j < n + 1
      ensures !OccursAt(s, cls, j)
    {
      if j + |cls| <= n {
        assert className[j..j + |cls|] == s[j..j + |cls|];
        assert !OccursAt(className, cls, j);
      } else {
        assert s[n] == ' ';
      }
    }
  }

  /** Cutting the appended `cls` out of `className + " " + cls` leaves `className + " "`. */
  lemma RemoveAppendedClass(className: string, cls: string)
    requires Normalized(className) && className != [] && !IsSpace(className[|className| - 1])
    requires |cls| > 0 && forall k :: 0 <= k < |cls| ==> !IsSpace(cls[k])
    requires !Contains(className, cls)
    ensures RemoveClass(className + " " + cls, cls) == className + " "
  {
    var s := className + " " + cls;
    FirstOccurrenceIsAppended(className, cls);
    var i := |className| + 1;
    assert s[..i] + s[i + |cls|..] == className + " ";
    assert Normalized(className + " ");
    CollapseNormalized(className + " ");
  }

  /**
   * `removeClass` after `addClass` on a tidy class list that lacks `cls` does not give the
   * list back: a trailing space is left behind (or nothing at all, from an empty list).
   */
  lemma RemoveClassAfterAddClass(className: string, cls: string)
    requires Normalized(className) && (className == [] || (!IsSpace(className[0]) && !IsSpace(className[|className| - 1])))
    requires |cls| > 0 && forall k :: 0 <= k < |cls| ==> !IsSpace(cls[k])
    requires !Contains(className, cls)
    ensures RemoveClass(AddClass(className, cls), cls) == if className == [] then [] else className + " "
  {
    if className == [] {
      AddClassToEmpty(cls);
      assert OccursAt(cls, cls, 0);
      assert cls[..0] + cls[|cls|..] == [];
    } else {
      AddClassToTrimmed(className, cls);
      RemoveAppendedClass(className, cls);
    }
  }
}
