/** Splitting a document into bounded sections for summarising, without losing a character. */
module SummarySections {
  import opened Strings

  const DOCUMENT_START := "(document start)"
  const REMAINING := "(remaining document; additional headings omitted)"

  /** A stretch of a source line, with the line's number. */
  type Piece = (nat, string)

  datatype Section = Section(heading: string, startLine: nat, endLine: nat, lines: seq<Piece>)

  // ----- headings -----

  predicate IsSign(c: char) {
    c == '#'
  }

  predicate IsLead(c: char) {
    c == ' ' || c == '#'
  }

  /** Up to three blanks, one to six number signs, a blank. */
  predicate IsHeading(line: string) {
    var blanks := RunLength(line, 0, IsSpace);
    var signs := RunLength(line, blanks, IsSign);
    blanks <= 3 && 1 <= signs <= 6 && blanks + signs < |line| && IsSpace(line[blanks + signs])
  }

  function Label(line: string): string {
    var rest := line[RunLength(line, 0, IsLead)..];
    if rest == "" then "(untitled)" else if |rest| > 200 then rest[..200] else rest
  }

  /** The parts of a heading line; behind the blank anything may stand. */
  ghost predicate HeadingParts(line: string, blanks: string, signs: string, gap: char, rest: string) {
    && line == blanks + signs + [gap] + rest && AllSpace(blanks) && |blanks| <= 3
    && signs in {"#", "##", "###", "####", "#####", "######"} && IsWhite(gap)
  }

  /** A heading line is one of this shape. */
  lemma HeadingShape(line: string)
    ensures IsHeading(line) <==> exists blanks, signs, gap, rest :: HeadingParts(line, blanks, signs, gap, rest)
  {
    hide IsHeading, HeadingParts;
    if IsHeading(line) {
      HeadingHasParts(line);
    }
    forall blanks, signs, gap, rest | HeadingParts(line, blanks, signs, gap, rest)
      ensures IsHeading(line)
    {
      HeadingOfParts(line, blanks, signs, gap, rest);
    }
  }

  lemma HeadingHasParts(line: string)
    requires IsHeading(line)
    ensures exists blanks, signs, gap, rest :: HeadingParts(line, blanks, signs, gap, rest)
  {
    hide RunLength, IsSpace, IsWhite;
    var n := RunLength(line, 0, IsSpace);
    var m := n + RunLength(line, n, IsSign);
    RunHolds(line, 0, IsSpace);
    RunHolds(line, n, IsSign);
    forall i | 0 <= i < n
      ensures IsWhite(line[i])
    {
      WhitespaceIs(line[i]);
    }
    WhitespaceIs(line[m]);
    SignsAre(line[n..m]);
    assert line == line[..n] + line[n..m] + [line[m]] + line[m + 1..];
    assert HeadingParts(line, line[..n], line[n..m], line[m], line[m + 1..]);
  }

  lemma SignsAre(signs: string)
    ensures signs in {"#", "##", "###", "####", "#####", "######"} <==>
      1 <= |signs| <= 6 && forall i :: 0 <= i < |signs| ==> signs[i] == '#'
  {
    if 1 <= |signs| <= 6 && forall i :: 0 <= i < |signs| ==> signs[i] == '#' {
      assert signs == "######"[..|signs|];
      assert "######"[..1] == "#" && "######"[..2] == "##" && "######"[..3] == "###";
      assert "######"[..4] == "####" && "######"[..5] == "#####" && "######"[..6] == "######";
    }
  }

  lemma HeadingOfParts(line: string, blanks: string, signs: string, gap: char, rest: string)
    requires HeadingParts(line, blanks, signs, gap, rest)
    ensures IsHeading(line)
  {
    hide RunLength, IsSpace, IsWhite;
    SignsAre(signs);
    forall i | 0 <= i < |blanks|
      ensures IsSpace(blanks[i])
    {
      WhitespaceIs(blanks[i]);
    }
    WhitespaceIs(gap);
    SignIsNoSpace(gap);
    assert (signs + [gap] + rest)[0] == '#';
    assert line[0..] == blanks + (signs + [gap] + rest);
    RunIs(line, 0, blanks, signs + [gap] + rest, IsSpace);
    assert line[|blanks|..] == signs + ([gap] + rest);
    RunIs(line, |blanks|, signs, [gap] + rest, IsSign);
    assert line[|blanks| + |signs|] == gap;
  }

  lemma SignIsNoSpace(gap: char)
    ensures !IsSpace('#') && (IsSpace(gap) ==> !IsSign(gap))
  {
  }

  /** A heading is what stands behind the blanks and number signs, up to 200 characters of it. */
  lemma LabelShape(lead: string, rest: string)
    requires forall i :: 0 <= i < |lead| ==> lead[i] in " #"
    requires rest == "" || rest[0] !in " #"
    ensures Label(lead + rest) ==
      if rest == "" then "(untitled)" else if |rest| <= 200 then rest else rest[..200]
  {
    hide RunLength;
    assert (lead + rest)[0..] == lead + rest && (lead + rest)[|lead|..] == rest;
    RunIs(lead + rest, 0, lead, rest, IsLead);
    assert |rest| == 200 ==> rest[..200] == rest;
  }

  /** The number of the last heading line up to line `number`; 0 when there is none. */
  function LastHeading(lines: seq<string>, number: nat): (at: nat)
    requires number <= |lines|
    ensures at <= number
  {
    if number == 0 then 0
    else if IsHeading(lines[number - 1]) then number
    else LastHeading(lines, number - 1)
  }

  // ----- pieces -----

  function Pieces(line: string, maxChars: nat): (pieces: seq<string>)
    requires maxChars > 0
    ensures pieces != [] && forall i :: 0 <= i < |pieces| ==> |pieces[i]| <= maxChars
    decreases |line|
  {
    if |line| <= maxChars then [line] else [line[..maxChars]] + Pieces(line[maxChars..], maxChars)
  }

  function Numbered(number: nat, pieces: seq<string>): (numbered: seq<Piece>)
    ensures |numbered| == |pieces| && forall i :: 0 <= i < |pieces| ==> numbered[i] == (number, pieces[i])
  {
    seq(|pieces|, i requires 0 <= i < |pieces| => (number, pieces[i]))
  }

  /** All pieces of the first n lines. */
  function AllPieces(lines: seq<string>, n: nat, maxChars: nat): seq<Piece>
    requires n <= |lines| && maxChars > 0
  {
    if n == 0 then [] else AllPieces(lines, n - 1, maxChars) + Numbered(n, Pieces(lines[n - 1], maxChars))
  }

  /** The pieces of one line put together again. */
  function Regroup(pieces: seq<Piece>, number: nat): string {
    if pieces == [] then ""
    else
      Regroup(pieces[..|pieces| - 1], number) +
      if pieces[|pieces| - 1].0 == number then pieces[|pieces| - 1].1 else ""
  }

  lemma {:induction false} RegroupAppend(a: seq<Piece>, b: seq<Piece>, number: nat)
    ensures Regroup(a + b, number) == Regroup(a, number) + Regroup(b, number)
  {
    if b == [] {
      assert a + b == a;
    } else {
      assert (a + b)[..|a + b| - 1] == a + b[..|b| - 1];
      RegroupAppend(a, b[..|b| - 1], number);
    }
  }

  lemma {:induction false} RegroupOther(pieces: seq<Piece>, number: nat)
    requires forall i :: 0 <= i < |pieces| ==> pieces[i].0 != number
    ensures Regroup(pieces, number) == ""
  {
    if pieces != [] {
      RegroupOther(pieces[..|pieces| - 1], number);
    }
  }

  lemma {:induction false} RegroupLine(line: string, number: nat, maxChars: nat)
    requires maxChars > 0
    ensures Regroup(Numbered(number, Pieces(line, maxChars)), number) == line
    decreases |line|
  {
    hide Regroup, Numbered;
    if |line| <= maxChars {
      RegroupOne(number, line);
    } else {
      var first, rest := line[..maxChars], Pieces(line[maxChars..], maxChars);
      RegroupLine(line[maxChars..], number, maxChars);
      RegroupOne(number, first);
      assert Numbered(number, [first] + rest) == Numbered(number, [first]) + Numbered(number, rest);
      RegroupAppend(Numbered(number, [first]), Numbered(number, rest), number);
      assert first + line[maxChars..] == line;
    }
  }

  lemma RegroupOne(number: nat, piece: string)
    ensures Regroup(Numbered(number, [piece]), number) == piece
  {
    assert Numbered(number, [piece])[..0] == [];
  }

  lemma RegroupNothing(number: nat)
    ensures Regroup([], number) == ""
  {
  }

  lemma RegroupNumbered(line: string, n: nat, maxChars: nat, number: nat)
    requires maxChars > 0
    ensures Regroup(Numbered(n, Pieces(line, maxChars)), number) == if number == n then line else ""
  {
    if number == n {
      RegroupLine(line, n, maxChars);
    } else {
      RegroupOther(Numbered(n, Pieces(line, maxChars)), number);
    }
  }

  /** Regrouped by line number, the pieces give back every line. */
  lemma {:induction false} PiecesAreLossless(lines: seq<string>, n: nat, maxChars: nat, number: nat)
    requires n <= |lines| && maxChars > 0
    ensures Regroup(AllPieces(lines, n, maxChars), number) == if 1 <= number <= n then lines[number - 1] else ""
  {
    hide Regroup, Numbered, Pieces;
    if n == 0 {
      RegroupNothing(number);
    } else {
      PiecesAreLossless(lines, n - 1, maxChars, number);
      var before, more := AllPieces(lines, n - 1, maxChars), Numbered(n, Pieces(lines[n - 1], maxChars));
      RegroupAppend(before, more, number);
      RegroupNumbered(lines[n - 1], n, maxChars, number);
      var a, b := Regroup(before, number), Regroup(more, number);
      assert Regroup(AllPieces(lines, n, maxChars), number) == a + b;
      assert a == "" ==> a + b == b;
      assert b == "" ==> a + b == a;
    }
  }

  // ----- sections -----

  /** Each piece costs its length and one line break. */
  function Cost(pieces: seq<Piece>): nat {
    if pieces == [] then 0 else Cost(pieces[..|pieces| - 1]) + |pieces[|pieces| - 1].1| + 1
  }

  function Flatten(sections: seq<Section>): seq<Piece> {
    if sections == [] then [] else Flatten(sections[..|sections| - 1]) + sections[|sections| - 1].lines
  }

  /** How many sections start before a line. */
  function StartedBefore(sections: seq<Section>, number: nat): (n: nat)
    ensures n <= |sections|
  {
    if sections == [] then 0
    else
      StartedBefore(sections[..|sections| - 1], number)
      + if sections[|sections| - 1].startLine < number then 1 else 0
  }

  /** The heading of what starts at a line: the last heading line, unless it comes after too many sections. */
  function HeadingAt(lines: seq<string>, sections: seq<Section>, number: nat, maxSections: nat): string
    requires number <= |lines|
  {
    var at := LastHeading(lines, number);
    if at == 0 then DOCUMENT_START
    else if StartedBefore(sections, at) >= maxSections then REMAINING
    else Label(lines[at - 1])
  }

  ghost predicate GroupHolds(group: seq<Piece>, maxChars: nat) {
    group != [] && (Cost(group) <= maxChars || (|group| == 1 && |group[0].1| == maxChars))
  }

  ghost predicate SectionHolds(s: Section, maxChars: nat) {
    && GroupHolds(s.lines, maxChars)
    && s.startLine == s.lines[0].0 && s.endLine == s.lines[|s.lines| - 1].0
  }

  /** The piece after a section could not have joined it: it is a heading's, or it did not fit. */
  ghost predicate Closed(lines: seq<string>, s: Section, next: Piece, maxChars: nat) {
    (0 < next.0 <= |lines| && IsHeading(lines[next.0 - 1])) || Cost(s.lines) + |next.1| + 1 > maxChars
  }

  ghost predicate AllClosed(lines: seq<string>, sections: seq<Section>, maxChars: nat) {
    forall i :: 0 < i < |sections| ==>
      sections[i].lines != [] && Closed(lines, sections[i - 1], sections[i].lines[0], maxChars)
  }

  lemma ClosedMore(lines: seq<string>, sections: seq<Section>, s: Section, maxChars: nat)
    requires AllClosed(lines, sections, maxChars) && s.lines != []
    requires sections != [] ==> Closed(lines, sections[|sections| - 1], s.lines[0], maxChars)
    ensures AllClosed(lines, sections + [s], maxChars)
  {
  }

  lemma HeadingNext(lines: seq<string>, sections: seq<Section>, number: nat, maxSections: nat)
    requires 0 < number <= |lines|
    ensures IsHeading(lines[number - 1]) && StartedBefore(sections, number) == |sections| ==>
      HeadingAt(lines, sections, number, maxSections) == NewHeading(lines[number - 1], |sections|, maxSections)
    ensures !IsHeading(lines[number - 1]) ==>
      HeadingAt(lines, sections, number, maxSections) == HeadingAt(lines, sections, number - 1, maxSections)
      && LastHeading(lines, number) == LastHeading(lines, number - 1)
  {
  }

  function NewHeading(line: string, sections: nat, maxSections: nat): string {
    if sections >= maxSections then REMAINING else Label(line)
  }

  lemma StartedBeforeMore(sections: seq<Section>, s: Section, number: nat)
    ensures StartedBefore(sections + [s], number)
      == StartedBefore(sections, number) + if s.startLine < number then 1 else 0
  {
    assert (sections + [s])[..|sections|] == sections;
  }

  lemma {:induction false} LastHeadingMonotone(lines: seq<string>, k: nat, number: nat)
    requires k <= number <= |lines|
    ensures LastHeading(lines, k) <= LastHeading(lines, number)
    ensures LastHeading(lines, number) <= k ==> LastHeading(lines, k) == LastHeading(lines, number)
    decreases number - k
  {
    if k < number {
      LastHeadingMonotone(lines, k, number - 1);
    }
  }

  /** A section that starts after the last heading moves no heading. */
  lemma HeadingsStay(lines: seq<string>, sections: seq<Section>, s: Section, number: nat, maxSections: nat, k: nat)
    requires s.startLine <= number <= |lines| && LastHeading(lines, s.startLine) == LastHeading(lines, number)
      && k <= number
    ensures HeadingAt(lines, sections + [s], k, maxSections) == HeadingAt(lines, sections, k, maxSections)
  {
    StartedBeforeMore(sections, s, LastHeading(lines, k));
    LastHeadingMonotone(lines, k, number);
  }

  /** Every section is within the limit and has the heading of its first line, which is read by now. */
  ghost predicate AllHold(lines: seq<string>, sections: seq<Section>, number: nat, maxChars: nat, maxSections: nat)
    requires number <= |lines|
  {
    forall i :: 0 <= i < |sections| ==>
      && SectionHolds(sections[i], maxChars) && sections[i].startLine <= number
      && sections[i].heading == HeadingAt(lines, sections, sections[i].startLine, maxSections)
  }

  lemma AllHoldMore(
    lines: seq<string>, sections: seq<Section>, s: Section, number: nat, maxChars: nat, maxSections: nat)
    requires number <= |lines| && AllHold(lines, sections, number, maxChars, maxSections) && SectionHolds(s, maxChars)
    requires s.startLine <= number && LastHeading(lines, s.startLine) == LastHeading(lines, number)
    requires s.heading == HeadingAt(lines, sections, number, maxSections)
    ensures AllHold(lines, sections + [s], number, maxChars, maxSections)
    ensures HeadingAt(lines, sections + [s], number, maxSections) == HeadingAt(lines, sections, number, maxSections)
  {
    hide StartedBefore, LastHeading, SectionHolds;
    HeadingsStay(lines, sections, s, number, maxSections, number);
    HeadingsStay(lines, sections, s, number, maxSections, s.startLine);
    forall i | 0 <= i < |sections|
      ensures HeadingAt(lines, sections + [s], sections[i].startLine, maxSections) ==
              HeadingAt(lines, sections, sections[i].startLine, maxSections)
    {
      HeadingsStay(lines, sections, s, number, maxSections, sections[i].startLine);
    }
  }

  lemma CostMore(group: seq<Piece>, piece: Piece)
    ensures Cost(group + [piece]) == Cost(group) + |piece.1| + 1 && (group == [] ==> Cost(group) == 0)
  {
    assert (group + [piece])[..|group|] == group;
  }

  /** The working state: finished sections, the open group with its cost, and the current heading. */
  class Builder {
    const lines: seq<string>
    const maxChars: nat
    const maxSections: nat
    var sections: seq<Section>
    var heading: string
    var group: seq<Piece>
    var size: nat

    constructor (lines: seq<string>, maxChars: nat, maxSections: nat)
      requires maxChars > 0
      ensures this.lines == lines && this.maxChars == maxChars && this.maxSections == maxSections
      ensures Holds(0, []) && Tight() && group == [] && sections == []
    {
      this.lines, this.maxChars, this.maxSections := lines, maxChars, maxSections;
      sections, heading, group, size := [], DOCUMENT_START, [], 0;
    }

    /** Up to line `number`, the pieces `done` are in the sections and the open group. */
    ghost predicate Holds(number: nat, done: seq<Piece>)
      reads this
    {
      && maxChars > 0 && number <= |lines|
      && Flatten(sections) + group == done
      && AllHold(lines, sections, number, maxChars, maxSections)
      && size == Cost(group) && (group != [] ==> GroupHolds(group, maxChars))
      && heading == HeadingAt(lines, sections, number, maxSections)
      && (group != [] ==> group[0].0 <= number && LastHeading(lines, group[0].0) == LastHeading(lines, number))
    }

    /** No group was closed before it had to be. */
    ghost predicate Tight()
      reads this
    {
      && AllClosed(lines, sections, maxChars)
      && (sections != [] && group != [] ==> Closed(lines, sections[|sections| - 1], group[0], maxChars))
    }

    /** Closes the open group. */
    method Flush(ghost number: nat, ghost done: seq<Piece>)
      requires Holds(number, done) && Tight()
      modifies this`sections, this`group, this`size
      ensures Holds(number, done) && group == [] && Tight()
      ensures old(group) != [] ==> sections != [] && sections[|sections| - 1].lines == old(group)
      ensures old(group) == [] ==> sections == old(sections)
    {
      if group != [] {
        var s := Section(heading, group[0].0, group[|group| - 1].0, group);
        ClosedMore(lines, sections, s, maxChars);
        AllHoldMore(lines, sections, s, number, maxChars, maxSections);
        assert (sections + [s])[..|sections|] == sections;
        sections := sections + [s];
        group, size := [], 0;
      }
    }

    /** Adds one piece, to a new group if the open one would get too large. */
    method AddPiece(number: nat, piece: string, ghost done: seq<Piece>)
      requires Holds(number, done) && |piece| <= maxChars && number > 0
      requires Tight() && (sections != [] && group == [] ==> IsHeading(lines[number - 1]))
      modifies this`sections, this`group, this`size
      ensures Holds(number, done + [(number, piece)])
      ensures Tight() && group != []
    {
      hide IsHeading, HeadingAt, LastHeading, StartedBefore, SectionHolds, Cost, Flatten, Label;
      if size + |piece| + 1 > maxChars && group != [] {
        Flush(number, done);
      }
      CostMore(group, (number, piece));
      assert Flatten(sections) + (group + [(number, piece)]) == done + [(number, piece)];
      group := group + [(number, piece)];
      size := size + |piece| + 1;
    }

    /** A heading closes the open group and becomes the current heading. */
    method BeginHeading(number: nat, ghost done: seq<Piece>)
      requires 0 < number <= |lines| && Holds(number - 1, done) && IsHeading(lines[number - 1]) && Tight()
      modifies this
      ensures Holds(number, done) && Tight()
    {
      hide IsHeading, HeadingAt, LastHeading, StartedBefore, SectionHolds, GroupHolds, Label, Cost, Flatten;
      Flush(number - 1, done);
      AllStarted(sections, number);
      HeadingNext(lines, sections, number, maxSections);
      heading := NewHeading(lines[number - 1], |sections|, maxSections);
    }

    /** Moves on to the next line. */
    method BeginLine(number: nat, ghost done: seq<Piece>)
      requires 0 < number <= |lines| && Holds(number - 1, done)
      requires Tight() && (sections != [] ==> group != [])
      modifies this
      ensures Holds(number, done)
      ensures Tight() && (sections != [] && group == [] ==> IsHeading(lines[number - 1]))
    {
      if IsHeading(lines[number - 1]) {
        BeginHeading(number, done);
      } else {
        HeadingNext(lines, sections, number, maxSections);
      }
    }

    /** Adds the pieces of the next line. */
    method AddLine(number: nat)
      requires 0 < number <= |lines| && maxChars > 0 && Holds(number - 1, AllPieces(lines, number - 1, maxChars))
      requires Tight() && (sections != [] ==> group != [])
      modifies this
      ensures Holds(number, AllPieces(lines, number, maxChars))
      ensures Tight() && group != []
    {
      hide IsHeading, HeadingAt, LastHeading, AllHold, GroupHolds, Closed, AllClosed, Pieces, Flatten, Cost;
      ghost var before := AllPieces(lines, number - 1, maxChars);
      BeginLine(number, before);
      var pieces := Pieces(lines[number - 1], maxChars);
      ghost var done := before;
      for i := 0 to |pieces|
        invariant Holds(number, done) && done == before + Numbered(number, pieces)[..i]
        invariant Tight() && (sections != [] && group == [] ==> IsHeading(lines[number - 1])) && (i > 0 ==> group != [])
      {
        AddPiece(number, pieces[i], done);
        done := done + [(number, pieces[i])];
      }
      assert Numbered(number, pieces)[..|pieces|] == Numbered(number, pieces);
    }
  }

  lemma {:induction false} AllStarted(sections: seq<Section>, number: nat)
    requires forall i :: 0 <= i < |sections| ==> sections[i].startLine < number
    ensures StartedBefore(sections, number) == |sections|
  {
    if sections != [] {
      AllStarted(sections[..|sections| - 1], number);
    }
  }

  /** Each section costs at most the limit and one line break. */
  ghost predicate WithinLimit(sections: seq<Section>, maxChars: nat) {
    forall i :: 0 <= i < |sections| ==> Cost(sections[i].lines) <= maxChars + 1
  }

  lemma CostsWithinLimit(lines: seq<string>, sections: seq<Section>, number: nat, maxChars: nat, maxSections: nat)
    requires number <= |lines| && AllHold(lines, sections, number, maxChars, maxSections)
    ensures WithinLimit(sections, maxChars)
  {
    forall i | 0 <= i < |sections|
      ensures Cost(sections[i].lines) <= maxChars + 1
    {
      assert SectionHolds(sections[i], maxChars);
      assert |sections[i].lines| == 1 ==> sections[i].lines[..0] == [];
    }
  }

  /**
    The sections of a document. No text is lost; every section stays within the limit except for a single
    full piece with its line break; none ends before the next piece is a heading's or does not fit; each
    carries the heading its first line stands under.
  */
  method Split(lines: seq<string>, maxChars: nat, maxSections: nat) returns (sections: seq<Section>)
    requires maxChars > 0 && lines != []
    ensures Flatten(sections) == AllPieces(lines, |lines|, maxChars)
    ensures forall number :: 1 <= number <= |lines| ==> Regroup(Flatten(sections), number) == lines[number - 1]
    ensures WithinLimit(sections, maxChars) && AllClosed(lines, sections, maxChars)
    ensures AllHold(lines, sections, |lines|, maxChars, maxSections)
  {
    hide IsHeading, HeadingAt, LastHeading, AllClosed, Pieces, Regroup;
    var builder := new Builder(lines, maxChars, maxSections);
    for number := 1 to |lines| + 1
      invariant builder.Holds(number - 1, AllPieces(lines, number - 1, maxChars))
      invariant builder.Tight() && (builder.sections != [] ==> builder.group != [])
      invariant builder.lines == lines && builder.maxChars == maxChars && builder.maxSections == maxSections
    {
      builder.AddLine(number);
    }
    builder.Flush(|lines|, AllPieces(lines, |lines|, maxChars));
    sections := builder.sections;
    forall number | 1 <= number <= |lines|
      ensures Regroup(Flatten(sections), number) == lines[number - 1]
    {
      assert Flatten(sections) == Flatten(sections) + [];
      PiecesAreLossless(lines, |lines|, maxChars, number);
    }
    CostsWithinLimit(lines, sections, |lines|, maxChars, maxSections);
  }
}
