/** Lines of a text, as Python's splitlines, strip, partition and join see them. */
module ConfText {
  /** Characters that end a line. */
  predicate IsBreak(c: char) {
    c == '\n' || c == '\r' || '\U{0b}' <= c <= '\U{0c}' || '\U{1c}' <= c <= '\U{1e}' || c == '\U{85}' || c == '\U{2028}' || c == '\U{2029}'
  }

  /** Characters that strip removes at the ends. */
  predicate IsSpace(c: char) {
    IsBreak(c) || c == ' ' || c == '\t' || c == '\U{1f}' || c == '\U{a0}' || c == '\U{1680}'
    || '\U{2000}' <= c <= '\U{200a}' || c == '\U{202f}' || c == '\U{205f}' || c == '\U{3000}'
  }

  function LStrip(s: string): (t: string)
    ensures |t| <= |s|
  {
    if s != "" && IsSpace(s[0]) then LStrip(s[1..]) else s
  }

  function RStrip(s: string): (t: string)
    ensures |t| <= |s|
  {
    if s != "" && IsSpace(s[|s| - 1]) then RStrip(s[..|s| - 1]) else s
  }

  function Strip(s: string): string { RStrip(LStrip(s)) }

  /** Neither end is white. */
  predicate Trim(s: string) { s == "" || (!IsSpace(s[0]) && !IsSpace(s[|s| - 1])) }

  lemma {:induction false} LStripEnds(s: string)
    ensures LStrip(s) == "" || !IsSpace(LStrip(s)[0])
    ensures LStrip(s) == s[|s| - |LStrip(s)|..]
  {
    if s != "" && IsSpace(s[0]) {
      LStripEnds(s[1..]);
    }
  }

  lemma {:induction false} RStripEnds(s: string)
    ensures RStrip(s) == "" || !IsSpace(RStrip(s)[|RStrip(s)| - 1])
    ensures RStrip(s) == s[..|RStrip(s)|]
  {
    if s != "" && IsSpace(s[|s| - 1]) {
      RStripEnds(s[..|s| - 1]);
    }
  }

  /** Stripping leaves no white ends, changes nothing that has none, and keeps a stretch of the text. */
  lemma StripTrims(s: string)
    ensures Trim(Strip(s)) && (Trim(s) ==> Strip(s) == s)
    ensures exists i, j :: 0 <= i <= j <= |s| && Strip(s) == s[i..j]
  {
    LStripEnds(s);
    RStripEnds(LStrip(s));
    var l := LStrip(s);
    var i := |s| - |l|;
    assert Strip(s) == s[i..i + |Strip(s)|];
  }

  predicate NoBreaks(s: string) { forall i :: 0 <= i < |s| ==> !IsBreak(s[i]) }

  lemma StripNoBreaks(s: string)
    requires NoBreaks(s)
    ensures NoBreaks(Strip(s))
  {
    StripTrims(s);
  }

  // ---- lines ----

  function BreakAt(s: string, i: nat): (e: nat)
    requires i <= |s|
    ensures i <= e <= |s| && (e < |s| ==> IsBreak(s[e])) && forall k :: i <= k < e ==> !IsBreak(s[k])
    decreases |s| - i
  {
    if i == |s| || IsBreak(s[i]) then i else BreakAt(s, i + 1)
  }

  function SplitLines(s: string): (ls: seq<string>)
    decreases |s|
  {
    if s == "" then []
    else
      var e := BreakAt(s, 0);
      if e == |s| then [s]
      else [s[..e]] + SplitLines(s[if s[e] == '\r' && e + 1 < |s| && s[e + 1] == '\n' then e + 2 else e + 1..])
  }

  function Join(ls: seq<string>): string {
    if ls == [] then "" else if |ls| == 1 then ls[0] else ls[0] + "\n" + Join(ls[1..])
  }

  predicate CleanLines(ls: seq<string>) { forall i :: 0 <= i < |ls| ==> NoBreaks(ls[i]) }

  lemma {:induction false} SplitLinesClean(s: string)
    ensures CleanLines(SplitLines(s))
    decreases |s|
  {
    if s != "" {
      var e := BreakAt(s, 0);
      if e < |s| {
        SplitLinesClean(s[if s[e] == '\r' && e + 1 < |s| && s[e + 1] == '\n' then e + 2 else e + 1..]);
      }
    }
  }

  /** A final empty line leaves no trace in the joined text. */
  function WithoutLastEmpty(ls: seq<string>): seq<string> {
    if ls != [] && ls[|ls| - 1] == "" then ls[..|ls| - 1] else ls
  }

  lemma FirstLine(a: string, rest: string)
    requires NoBreaks(a)
    ensures SplitLines(a + "\n" + rest) == [a] + SplitLines(rest)
  {
    var s := a + "\n" + rest;
    assert s[|a|] == '\n' && s[..|a|] == a && s[|a| + 1..] == rest;
    assert BreakAt(s, 0) == |a| by {
      assert forall k :: 0 <= k < |a| ==> s[k] == a[k];
    }
  }

  /** Joined lines are split where they were joined. */
  lemma {:induction false} SplitOfJoin(ls: seq<string>)
    requires CleanLines(ls)
    ensures SplitLines(Join(ls)) == WithoutLastEmpty(ls)
    decreases |ls|
  {
    if |ls| == 1 {
      if ls[0] != "" {
        assert BreakAt(ls[0], 0) == |ls[0]|;
        assert SplitLines(ls[0]) == [ls[0]];
      }
    } else if |ls| > 1 {
      SplitOfJoin(ls[1..]);
      FirstLine(ls[0], Join(ls[1..]));
      assert ls == [ls[0]] + ls[1..];
    }
  }

  // ---- key = value ----

  function EqualsAt(s: string, i: nat): (e: nat)
    requires i <= |s|
    ensures i <= e <= |s| && (e < |s| ==> s[e] == '=') && forall k :: i <= k < e ==> s[k] != '='
    decreases |s| - i
  {
    if i == |s| || s[i] == '=' then i else EqualsAt(s, i + 1)
  }

  predicate HasEquals(s: string) { EqualsAt(s, 0) < |s| }

  /** The text before the first equals sign, stripped. */
  function KeyOf(s: string): string { Strip(s[..EqualsAt(s, 0)]) }

  /** The text after it, stripped. */
  function ValueOf(s: string): string
    requires HasEquals(s)
  {
    Strip(s[EqualsAt(s, 0) + 1..])
  }

  lemma KeyValue(k: string, v: string)
    requires Trim(k) && Trim(v) && (forall i :: 0 <= i < |k| ==> k[i] != '=') && k != "" && v != ""
    ensures var s := k + " = " + v; HasEquals(s) && KeyOf(s) == k && ValueOf(s) == v && Trim(s)
  {
    var s := k + " = " + v;
    assert s[|k| + 1] == '=' && s[..|k| + 1] == k + " " && s[|k| + 2..] == " " + v;
    assert EqualsAt(s, 0) == |k| + 1 by {
      assert forall i :: 0 <= i < |k| ==> s[i] == k[i];
      assert s[|k|] == ' ';
    }
    OneSpaceAfter(k);
    OneSpaceBefore(v);
    assert s[0] == k[0] && s[|s| - 1] == v[|v| - 1];
  }

  lemma OneSpaceAfter(k: string)
    requires Trim(k) && k != ""
    ensures Strip(k + " ") == k
  {
    var s := k + " ";
    assert LStrip(s) == s;
    assert s[..|s| - 1] == k;
    assert RStrip(s) == RStrip(k) == k;
  }

  lemma OneSpaceBefore(v: string)
    requires Trim(v) && v != ""
    ensures Strip(" " + v) == v
  {
    var s := " " + v;
    assert s[1..] == v;
    assert LStrip(s) == LStrip(v) == v;
    assert RStrip(v) == v;
  }
}
