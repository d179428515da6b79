/** The .NET string operations the program applies to console input:
    `char.IsWhiteSpace`, `string.Trim` and `string.IsNullOrWhiteSpace`. */
module Strings {
  import opened Wrappers

  /** `char.IsWhiteSpace`: the Unicode space, line and paragraph separators,
      the control characters U+0009 to U+000D, and U+0085. */
  predicate IsWhiteSpace(c: char) {
    // space separators
    c == ' ' || c == '\U{A0}' || c == '\U{1680}' || ('\U{2000}' <= c <= '\U{200A}') ||
    c == '\U{202F}' || c == '\U{205F}' || c == '\U{3000}' ||
    // line and paragraph separators
    c == '\U{2028}' || c == '\U{2029}' ||
    // tab, line feed, vertical tab, form feed, carriage return; next line
    ('\t' <= c <= '\r') || c == '\U{85}'
  }

  predicate AllWhiteSpace(s: string) {
    forall i :: 0 <= i < |s| ==> IsWhiteSpace(s[i])
  }

  /** Drops the leading white space: the result is the suffix of `s` that
      starts at its first non-white-space character. */
  function TrimStart(s: string): (r: string)
    ensures |r| <= |s| && r == s[|s| - |r|..]
    ensures AllWhiteSpace(s[..|s| - |r|])
    ensures r != [] ==> !IsWhiteSpace(r[0])
  {
    if s != [] && IsWhiteSpace(s[0]) then
      var r := TrimStart(s[1..]);
      assert s[..|s| - |r|] == [s[0]] + s[1..][..|s| - 1 - |r|];
      r
    else s
  }

  /** Drops the trailing white space: the result is the prefix of `s` that
      ends at its last non-white-space character. */
  function TrimEnd(s: string): (r: string)
    ensures |r| <= |s| && r == s[..|r|]
    ensures AllWhiteSpace(s[|r|..])
    ensures r != [] ==> !IsWhiteSpace(r[|r| - 1])
  {
    if s != [] && IsWhiteSpace(s[|s| - 1]) then
      var r := TrimEnd(s[..|s| - 1]);
      assert s[|r|..] == s[..|s| - 1][|r|..] + [s[|s| - 1]];
      r
    else s
  }

  /** `string.Trim()`: white space removed from both ends. */
  function Trim(s: string): (r: string)
    ensures |r| <= |s|
    ensures r != [] ==> !IsWhiteSpace(r[0]) && !IsWhiteSpace(r[|r| - 1])
  {
    var t := TrimStart(s);
    var r := TrimEnd(t);
    assert r != [] ==> r[0] == t[0];
    r
  }

  /** Trimming text padded by white space gives back the text, when the
      text itself neither starts nor ends with white space. */
  lemma TrimOfPadded(lead: string, t: string, trail: string)
    requires AllWhiteSpace(lead) && AllWhiteSpace(trail)
    requires t != [] ==> !IsWhiteSpace(t[0]) && !IsWhiteSpace(t[|t| - 1])
    ensures Trim(lead + t + trail) == t
  {
    var u := t + trail;
    assert lead + t + trail == lead + u;
    if t == [] {
      assert u == trail;
      TrimStartOfPadded(lead, u, false);
    } else {
      assert u[0] == t[0];
      TrimStartOfPadded(lead, u, true);
      TrimEndOfPadded(t, trail);
    }
  }

  lemma {:induction false} TrimStartOfPadded(lead: string, u: string, solid: bool)
    requires AllWhiteSpace(lead)
    requires solid ==> u != [] && !IsWhiteSpace(u[0])
    requires !solid ==> AllWhiteSpace(u)
    ensures TrimStart(lead + u) == if solid then u else []
  {
    if lead == [] {
      assert lead + u == u;
      if !solid {
        AllWhiteSpaceTrimStart(u);
      }
    } else {
      assert (lead + u)[1..] == lead[1..] + u;
      TrimStartOfPadded(lead[1..], u, solid);
    }
  }

  lemma AllWhiteSpaceTrimStart(u: string)
    requires AllWhiteSpace(u)
    ensures TrimStart(u) == []
  {
  }

  lemma {:induction false} TrimEndOfPadded(t: string, trail: string)
    requires AllWhiteSpace(trail)
    requires t != [] && !IsWhiteSpace(t[|t| - 1])
    ensures TrimEnd(t + trail) == t
  {
    if trail == [] {
      assert t + trail == t;
    } else {
      assert (t + trail)[..|t + trail| - 1] == t + trail[..|trail| - 1];
      TrimEndOfPadded(t, trail[..|trail| - 1]);
    }
  }

  /** `string.IsNullOrWhiteSpace`: no line at all, or a line of white space only. */
  predicate IsNullOrWhiteSpace(line: Option<string>) {
    match line
    case None => true
    case Some(s) => AllWhiteSpace(s)
  }

  /** A line is blank exactly when trimming it leaves nothing. */
  lemma BlankIffTrimsToEmpty(s: string)
    ensures IsNullOrWhiteSpace(Some(s)) <==> Trim(s) == []
  {
    var t := TrimStart(s);
    if AllWhiteSpace(s) {
      AllWhiteSpaceTrimStart(s);
    } else {
      assert t != [];
      assert TrimEnd(t) != [];
    }
  }
}
