/** Whitespace, searching and line splitting as the program's text functions use them. */
module Strings {
  import opened Base

  /** Whitespace of every kind, as stripping and `\s` take it. */
  predicate IsSpace(c: char) {
    var n := c as int;
    || 9 <= n <= 13 || 28 <= n <= 32 || n == 0x85 || n == 0xa0 || n == 0x1680 || 0x2000 <= n <= 0x200a
    || n == 0x2028 || n == 0x2029 || n == 0x202f || n == 0x205f || n == 0x3000
  }

  predicate IsBlankChar(c: char) {
    c == ' ' || c == '\t'
  }

  function TrimLeft(s: string): string {
    if s != "" && IsSpace(s[0]) then TrimLeft(s[1..]) else s
  }

  function TrimRight(s: string): string {
    if s != "" && IsSpace(s[|s| - 1]) then TrimRight(s[..|s| - 1]) else s
  }

  function Strip(s: string): string {
    TrimRight(TrimLeft(s))
  }

  /** How many characters from `at` on satisfy `holds`. */
  function RunLength(s: string, at: nat, holds: char -> bool): (n: nat)
    requires at <= |s|
    ensures at + n <= |s|
    decreases |s| - at
  {
    if at < |s| && holds(s[at]) then 1 + RunLength(s, at + 1, holds) else 0
  }

  lemma {:induction false} RunHolds(s: string, at: nat, holds: char -> bool)
    requires at <= |s|
    ensures var n := RunLength(s, at, holds);
      && (forall i :: at <= i < at + n ==> holds(s[i])) && (at + n < |s| ==> !holds(s[at + n]))
    decreases |s| - at
  {
    if at < |s| && holds(s[at]) {
      RunHolds(s, at + 1, holds);
    }
  }

  /** The run from `at` on is the part whose characters satisfy `holds`, up to one that does not. */
  lemma RunIs(s: string, at: nat, run: string, rest: string, holds: char -> bool)
    requires at <= |s| && s[at..] == run + rest && forall i :: 0 <= i < |run| ==> holds(run[i])
    requires rest == "" || !holds(rest[0])
    ensures RunLength(s, at, holds) == |run|
  {
    RunHolds(s, at, holds);
    assert forall i :: 0 <= i < |s| - at ==> s[at + i] == s[at..][i];
    assert forall i :: 0 <= i < |run| ==> (run + rest)[i] == run[i];
    assert rest != "" ==> (run + rest)[|run|] == rest[0];
  }

  // ----- stripping -----

  const WHITESPACE :=
    " \t\n\r\U{0b}\U{0c}\U{1c}\U{1d}\U{1e}\U{1f}\U{85}\U{a0}\U{1680}\U{2000}\U{2001}\U{2002}\U{2003}\U{2004}"
    + "\U{2005}\U{2006}\U{2007}\U{2008}\U{2009}\U{200a}\U{2028}\U{2029}\U{202f}\U{205f}\U{3000}"

  predicate IsWhite(c: char) {
    c in WHITESPACE
  }

  lemma WhitespaceIs(c: char)
    ensures IsSpace(c) <==> IsWhite(c)
  {
  }

  predicate AllSpace(s: string) {
    forall i :: 0 <= i < |s| ==> IsWhite(s[i])
  }

  lemma {:induction false} TrimLeftIs(lead: string, rest: string)
    requires AllSpace(lead) && (rest == "" || !IsSpace(rest[0]))
    ensures TrimLeft(lead + rest) == rest
  {
    hide IsSpace, IsWhite;
    if lead == "" {
      assert lead + rest == rest;
    } else {
      WhitespaceIs(lead[0]);
      assert (lead + rest)[1..] == lead[1..] + rest;
      TrimLeftIs(lead[1..], rest);
    }
  }

  lemma {:induction false} TrimLeftCuts(s: string) returns (lead: string)
    ensures s == lead + TrimLeft(s) && AllSpace(lead) && (TrimLeft(s) == "" || !IsSpace(TrimLeft(s)[0]))
  {
    hide IsSpace, IsWhite;
    lead := "";
    if s != "" && IsSpace(s[0]) {
      WhitespaceIs(s[0]);
      lead := TrimLeftCuts(s[1..]);
      lead := [s[0]] + lead;
    }
  }

  lemma {:induction false} TrimRightIs(rest: string, tail: string)
    requires AllSpace(tail) && (rest == "" || !IsSpace(rest[|rest| - 1]))
    ensures TrimRight(rest + tail) == rest
  {
    hide IsSpace, IsWhite;
    if tail == "" {
      assert rest + tail == rest;
    } else {
      WhitespaceIs(tail[|tail| - 1]);
      assert (rest + tail)[..|rest + tail| - 1] == rest + tail[..|tail| - 1];
      TrimRightIs(rest, tail[..|tail| - 1]);
    }
  }

  lemma {:induction false} TrimRightCuts(s: string)
    ensures var n := |TrimRight(s)|;
      && n <= |s| && TrimRight(s) == s[..n] && AllSpace(s[n..]) && (n > 0 ==> !IsSpace(s[n - 1]))
  {
    hide IsSpace, IsWhite;
    if s != "" && IsSpace(s[|s| - 1]) {
      WhitespaceIs(s[|s| - 1]);
      var front := s[..|s| - 1];
      TrimRightCuts(front);
      var n := |TrimRight(s)|;
      assert s[n..] == front[n..] + [s[|s| - 1]];
    }
  }

  /** Whitespace around a text that neither starts nor ends with any. */
  ghost predicate StripParts(s: string, lead: string, text: string, tail: string) {
    && s == lead + text + tail && AllSpace(lead) && AllSpace(tail)
    && (text == "" ==> tail == "")
    && (text != "" ==> !IsWhite(text[0]) && !IsWhite(text[|text| - 1]))
  }

  lemma StripShape(s: string, text: string)
    ensures Strip(s) == text <==> exists lead, tail :: StripParts(s, lead, text, tail)
  {
    hide StripParts, Strip;
    if Strip(s) == text {
      StripHasParts(s);
    }
    if lead, tail :| StripParts(s, lead, text, tail) {
      StripOfParts(s, lead, text, tail);
    }
  }

  lemma StripHasParts(s: string)
    ensures exists lead, tail :: StripParts(s, lead, Strip(s), tail)
  {
    hide IsSpace, IsWhite, TrimLeft, TrimRight;
    var text := Strip(s);
    var lead := TrimLeftCuts(s);
    TrimRightCuts(TrimLeft(s));
    var tail := TrimLeft(s)[|text|..];
    if text != "" {
      WhitespaceIs(text[0]);
      WhitespaceIs(text[|text| - 1]);
    } else if tail != "" {
      WhitespaceIs(tail[0]);
    }
    assert lead + (text + tail) == lead + text + tail;
    assert StripParts(s, lead, text, tail);
  }

  lemma StripOfParts(s: string, lead: string, text: string, tail: string)
    requires StripParts(s, lead, text, tail)
    ensures Strip(s) == text
  {
    hide IsSpace, IsWhite, TrimLeft, TrimRight;
    if text != "" {
      WhitespaceIs(text[0]);
      WhitespaceIs(text[|text| - 1]);
    }
    assert s == lead + (text + tail);
    TrimLeftIs(lead, text + tail);
    TrimRightIs(text, tail);
  }

  predicate StartsWith(s: string, prefix: string) {
    |prefix| <= |s| && s[..|prefix|] == prefix
  }

  /** `pattern` stands in `s` at `at`. */
  predicate StandsAt(s: string, pattern: string, at: nat) {
    at + |pattern| <= |s| && s[at..at + |pattern|] == pattern
  }

  /** The first place from `from` on where `pattern` stands. */
  function Find(s: string, pattern: string, from: nat): (at: Option<nat>)
    ensures at.Some? ==> from <= at.value && StandsAt(s, pattern, at.value)
    ensures at.Some? ==> forall i :: from <= i < at.value ==> !StandsAt(s, pattern, i)
    ensures at.None? ==> forall i :: from <= i ==> !StandsAt(s, pattern, i)
    decreases |s| - from
  {
    if from + |pattern| > |s| then None
    else if StandsAt(s, pattern, from) then Some(from)
    else if from == |s| then None
    else Find(s, pattern, from + 1)
  }

  lemma FindIs(s: string, pattern: string, from: nat, at: nat)
    requires from <= at && StandsAt(s, pattern, at) && forall i :: from <= i < at ==> !StandsAt(s, pattern, i)
    ensures Find(s, pattern, from) == Some(at)
  {
    hide Find, StandsAt;
  }

  // ----- lines -----

  /** Behind the first line feed from `from` on, or the end. */
  function LineEnd(s: string, from: nat): (n: nat)
    requires from < |s|
    ensures from < n <= |s|
    ensures forall i :: from <= i < n - 1 ==> s[i] != '\n'
    ensures n < |s| ==> s[n - 1] == '\n'
    decreases |s| - from
  {
    if s[from] == '\n' || from + 1 == |s| then from + 1 else LineEnd(s, from + 1)
  }

  /** Characters up to and with the first line feed. */
  function FirstLine(s: string): (n: nat)
    requires s != ""
    ensures 0 < n <= |s|
  {
    LineEnd(s, 0)
  }

  /** The lines of a text with their line breaks; `\r\n` is a line feed with a character before it. */
  function SplitLines(s: string): seq<string> {
    if s == "" then [] else [s[..FirstLine(s)]] + SplitLines(s[FirstLine(s)..])
  }

  function Concat(lines: seq<string>): string {
    if lines == [] then "" else lines[0] + Concat(lines[1..])
  }

  /** A line feed at the end and nowhere else. */
  predicate IsLine(s: string) {
    s != "" && s[|s| - 1] == '\n' && forall i :: 0 <= i < |s| - 1 ==> s[i] != '\n'
  }

  predicate AllLines(lines: seq<string>) {
    forall i :: 0 <= i < |lines| ==> IsLine(lines[i])
  }

  lemma {:induction false} ConcatAppend(a: seq<string>, b: seq<string>)
    ensures Concat(a + b) == Concat(a) + Concat(b)
  {
    if a == [] {
      assert a + b == b;
    } else {
      assert (a + b)[1..] == a[1..] + b;
      ConcatAppend(a[1..], b);
    }
  }

  lemma SliceJoins(s: string, n: nat)
    requires n <= |s|
    ensures s[..n] + s[n..] == s
  {
  }

  lemma Prepended(line: string, lines: seq<string>)
    ensures [line] + lines != [] && ([line] + lines)[0] == line && ([line] + lines)[1..] == lines
  {
  }

  lemma SplitFirst(s: string)
    requires s != ""
    ensures var n := FirstLine(s);
      SplitLines(s) != [] && SplitLines(s)[0] == s[..n] && SplitLines(s)[1..] == SplitLines(s[n..])
        && s[..n] + s[n..] == s
  {
    hide LineEnd;
    SliceJoins(s, FirstLine(s));
    Prepended(s[..FirstLine(s)], SplitLines(s[FirstLine(s)..]));
  }

  lemma {:induction false} ConcatSplit(s: string)
    ensures Concat(SplitLines(s)) == s
  {
    if s != "" {
      SplitFirst(s);
      ConcatSplit(s[FirstLine(s)..]);
    }
  }

  lemma {:induction false} SplitIsLines(s: string)
    requires s != "" && s[|s| - 1] == '\n'
    ensures AllLines(SplitLines(s)) && SplitLines(s) != []
  {
    hide LineEnd, IsLine, SplitLines;
    var n := FirstLine(s);
    SplitFirst(s);
    FirstIsLine(s);
    if n < |s| {
      SplitIsLines(s[n..]);
      AllLinesMore(s[..n], SplitLines(s[n..]));
    } else {
      assert s[n..] == "";
    }
  }

  lemma FirstIsLine(s: string)
    requires s != "" && s[|s| - 1] == '\n'
    ensures IsLine(s[..FirstLine(s)]) && SplitLines("") == []
  {
    assert s[..FirstLine(s)][FirstLine(s) - 1] == '\n';
  }

  lemma AllLinesMore(line: string, lines: seq<string>)
    requires IsLine(line) && AllLines(lines)
    ensures AllLines([line] + lines)
  {
  }

  lemma FirstLineOf(line: string, rest: string)
    requires IsLine(line)
    ensures FirstLine(line + rest) == |line|
    ensures (line + rest)[..|line|] == line && (line + rest)[|line|..] == rest
  {
    assert forall i :: 0 <= i < |line| ==> (line + rest)[i] == line[i];
  }

  lemma {:induction false} SplitConcat(lines: seq<string>)
    requires AllLines(lines)
    ensures SplitLines(Concat(lines)) == lines
  {
    if lines != [] {
      FirstLineOf(lines[0], Concat(lines[1..]));
      SplitConcat(lines[1..]);
    }
  }
}
