/** Python's line splitting and stripping, which the scanners of tool reports
    (src/nova_rtl/adapters/base.py) and of waveform dumps (src/nova_rtl/benchmark/power.py)
    are built on. */
module Text {
  /** Characters that `str.strip` removes. */
  predicate IsSpace(c: char) {
    || '\U{9}' <= c <= '\U{d}' || '\U{1c}' <= c <= '\U{20}' || c == '\U{85}' || c == '\U{a0}' || c == '\U{1680}'
    || '\U{2000}' <= c <= '\U{200a}' || c == '\U{2028}' || c == '\U{2029}' || c == '\U{202f}' || c == '\U{205f}' || c == '\U{3000}'
  }

  /** Characters that end a line for `str.splitlines`; "\r\n" ends one line, not two. */
  predicate IsBreak(c: char) {
    || '\U{a}' <= c <= '\U{d}' || '\U{1c}' <= c <= '\U{1e}' || c == '\U{85}' || c == '\U{2028}' || c == '\U{2029}'
  }

  predicate OneLine(s: string) { forall c :: c in s ==> !IsBreak(c) }

  function NextBreak(s: string): (k: nat)
    ensures k <= |s| && OneLine(s[..k]) && (k < |s| ==> IsBreak(s[k]))
  {
    if s == "" || IsBreak(s[0]) then 0
    else
      var k := NextBreak(s[1..]);
      assert s[..k + 1] == [s[0]] + s[1..][..k];
      k + 1
  }

  function SplitLines(s: string): seq<string>
    decreases |s|
  {
    if s == "" then []
    else
      var k := NextBreak(s);
      if k == |s| then [s]
      else if s[k] == '\r' && k + 1 < |s| && s[k + 1] == '\n' then [s[..k]] + SplitLines(s[k + 2..])
      else [s[..k]] + SplitLines(s[k + 1..])
  }

  function StripLeft(s: string): string { if s != "" && IsSpace(s[0]) then StripLeft(s[1..]) else s }

  function StripRight(s: string): string { if s != "" && IsSpace(s[|s| - 1]) then StripRight(s[..|s| - 1]) else s }

  function Strip(s: string): string { StripRight(StripLeft(s)) }

  predicate AllSpace(s: string) { forall c :: c in s ==> IsSpace(c) }

  /** Neither end is a space. */
  predicate Bare(s: string) { s == "" || (!IsSpace(s[0]) && !IsSpace(s[|s| - 1])) }

  lemma {:induction false} StripLeftSpec(s: string) returns (a: string)
    ensures s == a + StripLeft(s) && AllSpace(a) && (StripLeft(s) == "" || !IsSpace(StripLeft(s)[0]))
  {
    a := "";
    if s != "" && IsSpace(s[0]) {
      var b := StripLeftSpec(s[1..]);
      a := [s[0]] + b;
      assert s == [s[0]] + s[1..];
    }
  }

  lemma {:induction false} StripRightSpec(s: string) returns (b: string)
    ensures s == StripRight(s) + b && AllSpace(b) && (StripRight(s) == "" || !IsSpace(StripRight(s)[|StripRight(s)| - 1]))
  {
    b := "";
    if s != "" && IsSpace(s[|s| - 1]) {
      var c := StripRightSpec(s[..|s| - 1]);
      b := c + [s[|s| - 1]];
      assert s == s[..|s| - 1] + [s[|s| - 1]];
    }
  }

  /** Stripping takes the spaces off both ends and nothing else. */
  lemma StripSpec(s: string) returns (a: string, b: string)
    ensures s == a + Strip(s) + b && AllSpace(a) && AllSpace(b) && Bare(Strip(s))
  {
    a := StripLeftSpec(s);
    b := StripRightSpec(StripLeft(s));
    if Strip(s) != "" { assert StripLeft(s)[0] == Strip(s)[0]; }
  }

  lemma StripEmptyIff(s: string)
    ensures Strip(s) == "" <==> AllSpace(s)
  {
    var a, b := StripSpec(s);
    if Strip(s) != "" { assert s[|a|] == Strip(s)[0] && s[|a|] in s; }
  }

  /** Each line followed by a line feed, as `puts` prints them. */
  function Printed(lines: seq<string>): string {
    if lines == [] then "" else lines[0] + "\n" + Printed(lines[1..])
  }

  lemma NextBreakIs(line: string, rest: string)
    requires OneLine(line)
    ensures NextBreak(line + "\n" + rest) == |line|
  {
    var s := line + "\n" + rest;
    var k := NextBreak(s);
    assert s[|line|] == '\n' && forall i :: 0 <= i < |line| ==> s[i] == line[i] && line[i] in line;
    assert forall i :: 0 <= i < k ==> s[..k][i] == s[i] && s[..k][i] in s[..k];
  }

  /** Splitting takes one line off: up to the first line break, which is one character or
      "\r\n"; text without a break is one line, unless it is empty. */
  lemma SplitLinesIs(line: string, c: char, rest: string)
    requires OneLine(line) && IsBreak(c)
    ensures SplitLines("") == [] && (line != "" ==> SplitLines(line) == [line])
    ensures SplitLines(line + [c] + rest)
              == [line] + SplitLines(if c == '\r' && rest != "" && rest[0] == '\n' then rest[1..] else rest)
  {
    var s := line + [c] + rest;
    var k := NextBreak(s);
    assert s[|line|] == c && forall i :: 0 <= i < |line| ==> s[i] == line[i] && line[i] in line;
    assert forall i :: 0 <= i < k ==> s[..k][i] == s[i] && s[..k][i] in s[..k];
    assert k == |line| && s[..k] == line && s[k + 1..] == rest;
    if rest != "" { assert s[k + 2..] == rest[1..] && s[k + 1] == rest[0]; }
  }

  lemma {:induction false} SplitInvertsPrinted(lines: seq<string>)
    requires forall l :: l in lines ==> OneLine(l)
    ensures SplitLines(Printed(lines)) == lines
  {
    if lines != [] {
      var l, rest := lines[0], Printed(lines[1..]);
      var s := l + "\n" + rest;
      NextBreakIs(l, rest);
      assert s[|l|] == '\n' && s[..|l|] == l && s[|l| + 1..] == rest;
      SplitInvertsPrinted(lines[1..]);
    }
  }

  lemma {:induction false} SplitLinesOneLine(s: string)
    ensures forall l :: l in SplitLines(s) ==> OneLine(l)
    decreases |s|
  {
    if s != "" {
      var k := NextBreak(s);
      if k < |s| {
        SplitLinesOneLine(s[k + 1..]);
        if k + 1 < |s| { SplitLinesOneLine(s[k + 2..]); }
      } else {
        assert s[..k] == s;
      }
    }
  }

  lemma {:induction false} StripLeftSnoc(t: string, c: char)
    requires IsSpace(c)
    ensures StripLeft(t + [c]) == if StripLeft(t) == "" then "" else StripLeft(t) + [c]
  {
    if t == "" {
      assert StripLeft([c]) == StripLeft([c][1..]) == "";
    } else if IsSpace(t[0]) {
      assert (t + [c])[1..] == t[1..] + [c];
      StripLeftSnoc(t[1..], c);
    }
  }

  /** Stripping the right end first makes no difference. */
  lemma {:induction false} StripStripRight(s: string)
    ensures Strip(StripRight(s)) == Strip(s) && StripRight(StripRight(s)) == StripRight(s)
    ensures OneLine(s) ==> OneLine(StripRight(s))
  {
    if s != "" && IsSpace(s[|s| - 1]) {
      var t, c := s[..|s| - 1], s[|s| - 1];
      assert s == t + [c];
      StripStripRight(t);
      StripLeftSnoc(t, c);
      if StripLeft(t) != "" { assert (StripLeft(t) + [c])[..|StripLeft(t)|] == StripLeft(t); }
    }
  }

  /** Python's `str.upper` on the ASCII letters of a name. */
  function Upper(s: string): string {
    seq(|s|, i requires 0 <= i < |s| => if 'a' <= s[i] <= 'z' then s[i] - 'a' + 'A' else s[i])
  }
}
