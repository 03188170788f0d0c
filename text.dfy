/**
 * The two string operations the pipeline relies on: Python's `str.strip()`
 * (no argument) and `"\n".join(...)`. Strings are sequences of code points,
 * as Python's `str` is, so `len` is `|s|`.
 */
module Text {

  /** The characters for which Python's `str.isspace()` holds; `strip()` removes exactly these. */
  predicate IsSpace(c: char) {
    c == ' ' || '\t' <= c <= '\r' || '\U{1C}' <= c <= '\U{1F}' ||
    c == '\U{85}' || c == '\U{A0}' || c == '\U{1680}' || '\U{2000}' <= c <= '\U{200A}' ||
    c == '\U{2028}' || c == '\U{2029}' || c == '\U{202F}' || c == '\U{205F}' || c == '\U{3000}'
  }

  predicate AllSpace(s: string) {
    forall k :: 0 <= k < |s| ==> IsSpace(s[k])
  }

  /** `s.lstrip()`. */
  function StripLeft(s: string): (r: string) {
    if |s| > 0 && IsSpace(s[0]) then StripLeft(s[1..]) else s
  }

  /** `s.rstrip()`. */
  function StripRight(s: string): (r: string) {
    if |s| > 0 && IsSpace(s[|s| - 1]) then StripRight(s[..|s| - 1]) else s
  }

  /** `s.strip()`. */
  function Strip(s: string): (r: string) {
    StripRight(StripLeft(s))
  }

  /** lstrip keeps the longest suffix whose dropped prefix is all whitespace. */
  lemma {:induction false} StripLeftSpec(s: string)
    ensures var r := StripLeft(s);
            |r| <= |s| && r == s[|s| - |r|..] && AllSpace(s[..|s| - |r|]) && (r == [] || !IsSpace(r[0]))
  {
    if |s| > 0 && IsSpace(s[0]) {
      StripLeftSpec(s[1..]);
      var r := StripLeft(s);
      assert forall k :: 1 <= k < |s| - |r| ==> s[k] == s[1..][k - 1];
    }
  }

  /** rstrip keeps the longest prefix whose dropped suffix is all whitespace. */
  lemma {:induction false} StripRightSpec(s: string)
    ensures var r := StripRight(s);
            |r| <= |s| && r == s[..|r|] && AllSpace(s[|r|..]) && (r == [] || !IsSpace(r[|r| - 1]))
  {
    if |s| > 0 && IsSpace(s[|s| - 1]) {
      StripRightSpec(s[..|s| - 1]);
      var r := StripRight(s);
      assert forall k :: |r| <= k < |s| - 1 ==> s[k] == s[..|s| - 1][k];
    }
  }

  /**
   * strip gives a slice of `s` that is empty or begins and ends with a
   * non-whitespace character, and everything around it is whitespace.
   */
  lemma StripSpec(s: string)
    ensures var r := Strip(s);
            (r == [] || (!IsSpace(r[0]) && !IsSpace(r[|r| - 1]))) &&
            exists i :: 0 <= i <= |s| - |r| && r == s[i..i + |r|] && AllSpace(s[..i]) && AllSpace(s[i + |r|..])
  {
    var left := StripLeft(s);
    var r := StripRight(left);
    StripLeftSpec(s);
    StripRightSpec(left);
    var i := |s| - |left|;
    assert r == s[i..i + |r|];
    assert s[i + |r|..] == left[|r|..];
    if r != [] {
      assert r[0] == left[0];
    }
  }

  /** A string strips to nothing exactly when it is all whitespace (Python's `if s.strip():`). */
  lemma StripEmptyIff(s: string)
    ensures Strip(s) == [] <==> AllSpace(s)
  {
    StripSpec(s);
    var r := Strip(s);
    var i :| 0 <= i <= |s| - |r| && r == s[i..i + |r|] && AllSpace(s[..i]) && AllSpace(s[i + |r|..]);
    if r == [] {
      forall k | 0 <= k < |s|
        ensures IsSpace(s[k])
      {
        if k < i {
          assert s[..i][k] == s[k];
        } else {
          assert s[i..][k - i] == s[k];
        }
      }
    } else {
      assert s[i] == r[0] && !IsSpace(s[i]);
    }
  }

  /** Stripping twice is stripping once. */
  lemma StripIdempotent(s: string)
    ensures Strip(Strip(s)) == Strip(s)
  {
    StripSpec(s);
    var r := Strip(s);
    if r != [] {
      assert StripLeft(r) == r;
      assert StripRight(r) == r;
    }
  }

  /** Python's `"\n".join(ps)`. */
  function JoinLines(ps: seq<string>): (r: string) {
    if |ps| == 0 then ""
    else if |ps| == 1 then ps[0]
    else ps[0] + "\n" + JoinLines(ps[1..])
  }

  /** Python's `s.split("\n")`: the pieces between newlines, always at least one. */
  function SplitLines(s: string): (r: seq<string>)
    ensures |r| >= 1
  {
    if |s| == 0 then [""]
    else
      var rest := SplitLines(s[1..]);
      if s[0] == '\n' then [""] + rest else [[s[0]] + rest[0]] + rest[1..]
  }

  lemma {:induction false} SplitLinesSingle(p: string)
    requires '\n' !in p
    ensures SplitLines(p) == [p]
  {
    if |p| > 0 {
      SplitLinesSingle(p[1..]);
      assert [p[0]] + p[1..] == p;
    }
  }

  lemma {:induction false} SplitLinesCons(p: string, t: string)
    requires '\n' !in p
    ensures SplitLines(p + "\n" + t) == [p] + SplitLines(t)
  {
    var s := p + "\n" + t;
    if |p| == 0 {
      assert s[0] == '\n' && s[1..] == t;
    } else {
      assert s[1..] == p[1..] + "\n" + t;
      SplitLinesCons(p[1..], t);
      assert [p[0]] + p[1..] == p;
    }
  }

  /**
   * Joining paragraph texts with newlines loses nothing: when no text holds a
   * newline of its own, splitting the joined content at newlines gives the
   * texts back, in order.
   */
  /**
   * With no paragraph at all the content is "", the same as for one empty
   * paragraph, and "" splits back to one empty piece: the round trip needs at
   * least one paragraph.
   */
  lemma JoinNoParagraphs()
    ensures JoinLines([]) == JoinLines([""]) == ""
    ensures SplitLines(JoinLines([])) == [""]
  {
  }

  lemma {:induction false} SplitJoinLines(ps: seq<string>)
    requires |ps| > 0
    requires forall k :: 0 <= k < |ps| ==> '\n' !in ps[k]
    ensures SplitLines(JoinLines(ps)) == ps
  {
    if |ps| == 1 {
      SplitLinesSingle(ps[0]);
    } else {
      SplitLinesCons(ps[0], JoinLines(ps[1..]));
      SplitJoinLines(ps[1..]);
    }
  }
}
