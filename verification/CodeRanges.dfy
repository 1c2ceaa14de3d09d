/** Fenced blocks and inline code of a note: the ranges in which no link is a link. */
module CodeRanges {
  import opened Base
  import opened Strings

  datatype Range = Range(start: nat, end: nat) {
    predicate Contains(p: nat) { start <= p < end }
  }

  predicate IsInside(p: nat, ranges: seq<Range>) {
    exists i :: 0 <= i < |ranges| && ranges[i].Contains(p)
  }

  // ----- fences -----

  datatype Fence = Closed | Open(mark: char, length: nat)

  predicate IsTick(c: char) {
    c == '`'
  }

  predicate IsTilde(c: char) {
    c == '~'
  }

  /** The run of three or more fence characters a line starts with. */
  function Marker(line: string): Option<Fence> {
    var stripped := TrimLeft(line);
    var at := RunLength(stripped, 0, IsBlankChar);
    var ticks := RunLength(stripped, at, IsTick);
    var tildes := RunLength(stripped, at, IsTilde);
    if ticks >= 3 then Some(Open('`', ticks)) else if tildes >= 3 then Some(Open('~', tildes)) else None
  }

  predicate AllOf(s: string, c: char) {
    forall i :: 0 <= i < |s| ==> s[i] == c
  }

  /** Whitespace, then three or more of one fence character and no further one. */
  ghost predicate MarkerParts(line: string, lead: string, run: string, mark: char, rest: string) {
    && line == lead + run + rest && AllSpace(lead)
    && (mark == '`' || mark == '~') && |run| >= 3 && AllOf(run, mark) && (rest == "" || rest[0] != mark)
  }

  lemma MarkerHasParts(line: string, mark: char, length: nat)
    requires Marker(line) == Some(Open(mark, length))
    ensures exists lead, run, rest :: MarkerParts(line, lead, run, mark, rest) && |run| == length
  {
    hide RunLength, TrimLeft;
    var lead := TrimLeftCuts(line);
    var stripped := TrimLeft(line);
    RunHolds(stripped, 0, IsBlankChar);
    assert RunLength(stripped, 0, IsBlankChar) == 0;
    RunHolds(stripped, 0, IsTick);
    RunHolds(stripped, 0, IsTilde);
    assert MarkerParts(line, lead, stripped[..length], mark, stripped[length..]);
  }

  lemma MarkerOfParts(line: string, lead: string, run: string, mark: char, rest: string)
    requires MarkerParts(line, lead, run, mark, rest)
    ensures Marker(line) == Some(Open(mark, |run|))
  {
    assert line == lead + (run + rest);
    assert run[0] == mark && (run + rest)[0] == mark;
    TrimLeftIs(lead, run + rest);
    RunHolds(run + rest, 0, IsBlankChar);
    RunHolds(run + rest, 0, IsTick);
    assert (run + rest)[0..] == run + rest;
    RunIs(run + rest, 0, run, rest, if mark == '`' then IsTick else IsTilde);
  }

  /** A line has a marker exactly if it is of this shape. */
  lemma MarkerShape(line: string, mark: char, length: nat)
    ensures Marker(line) == Some(Open(mark, length)) <==>
      exists lead, run, rest :: MarkerParts(line, lead, run, mark, rest) && |run| == length
  {
    hide Marker;
    if Marker(line) == Some(Open(mark, length)) {
      MarkerHasParts(line, mark, length);
    }
    if lead, run, rest :| MarkerParts(line, lead, run, mark, rest) && |run| == length {
      MarkerOfParts(line, lead, run, mark, rest);
    }
  }

  /** A marker opens a fence; the same character at least as often closes it. */
  function Step(fence: Fence, line: string): Fence {
    match (fence, Marker(line))
    case (Closed, Some(marker)) => marker
    case (Open(mark, length), Some(Open(mark', length'))) =>
      if mark' == mark && length' >= length then Closed else fence
    case _ => fence
  }

  /** The fence state before line k. */
  function FenceAt(lines: seq<string>, k: nat): Fence
    requires k <= |lines|
  {
    if k == 0 then Closed else Step(FenceAt(lines, k - 1), lines[k - 1])
  }

  /** The line is in a fenced block, its first and last line included. */
  predicate Fenced(lines: seq<string>, k: nat)
    requires k < |lines|
  {
    FenceAt(lines, k).Open? || FenceAt(lines, k + 1).Open?
  }

  /** The line ends a fence of this many of this character. */
  ghost predicate Ends(line: string, mark: char, length: nat) {
    exists lead, run, rest :: MarkerParts(line, lead, run, mark, rest) && |run| >= length
  }

  lemma EndsIs(line: string, mark: char, length: nat)
    ensures Ends(line, mark, length) <==> exists n :: n >= length && Marker(line) == Some(Open(mark, n))
  {
    hide Marker;
    if lead, run, rest :| MarkerParts(line, lead, run, mark, rest) && |run| >= length {
      MarkerOfParts(line, lead, run, mark, rest);
    }
    if n :| n >= length && Marker(line) == Some(Open(mark, n)) {
      MarkerHasParts(line, mark, n);
    }
  }

  /** From its opening line on a fence lasts up to the first line that ends it, and then it is closed. */
  lemma {:induction false} FenceLasts(
    lines: seq<string>, i: nat, j: nat, lead: string, run: string, mark: char, rest: string)
    requires i < j <= |lines| && FenceAt(lines, i).Closed? && MarkerParts(lines[i], lead, run, mark, rest)
    requires forall k :: i < k < j ==> !Ends(lines[k], mark, |run|)
    ensures FenceAt(lines, j) == Open(mark, |run|)
    ensures forall k :: i <= k < j ==> Fenced(lines, k)
    ensures j < |lines| ==> Fenced(lines, j) && (FenceAt(lines, j + 1).Closed? <==> Ends(lines[j], mark, |run|))
  {
    hide Marker;
    if j == i + 1 {
      MarkerOfParts(lines[i], lead, run, mark, rest);
    } else {
      FenceLasts(lines, i, j - 1, lead, run, mark, rest);
    }
    if j < |lines| {
      EndsIs(lines[j], mark, |run|);
    }
  }

  /** A line without a marker opens no fence. */
  lemma OutsideFences(lines: seq<string>, k: nat)
    requires k < |lines| && FenceAt(lines, k).Closed?
    requires forall lead, run, mark, rest :: !MarkerParts(lines[k], lead, run, mark, rest)
    ensures !Fenced(lines, k) && FenceAt(lines, k + 1).Closed?
  {
    hide Marker;
    MarkerIsOpen(lines[k]);
    if Marker(lines[k]).Some? {
      MarkerHasParts(lines[k], Marker(lines[k]).value.mark, Marker(lines[k]).value.length);
    }
  }

  lemma MarkerIsOpen(line: string)
    ensures Marker(line).Some? ==> Marker(line).value.Open?
  {
  }

  // ----- inline code -----

  function Ticks(n: nat): (run: string)
    ensures |run| == n && forall i :: 0 <= i < n ==> run[i] == '`'
  {
    seq(n, i => '`')
  }

  /** From the first backtick on: a run, and the next place where as many backticks stand. */
  function NextSpan(line: string, from: nat): (span: Option<Range>)
    requires from <= |line|
    ensures span.Some? ==> from <= span.value.start < span.value.end <= |line|
  {
    match Find(line, "`", from)
    case None => None
    case Some(tick) =>
      var n := RunLength(line, tick, IsTick);
      match Find(line, Ticks(n), tick + n)
      case None => None
      case Some(closer) =>
        assert line[tick] == line[tick..tick + 1][0] == '`' && StandsAt(line, Ticks(n), closer);
        Some(Range(tick, closer + n))
  }

  /**
    No backtick, a run of them and what is not one, up to the first place behind the run where as many stand.
  */
  ghost predicate SpanParts(text: string, before: string, run: string, mid: string, rest: string) {
    && text == before + run + mid + run + rest
    && '`' !in before && run != "" && AllOf(run, '`') && mid != "" && mid[0] != '`'
    && forall i :: 0 <= i < |mid| ==> !StandsAt(mid + run + rest, run, i)
  }

  lemma TicksAre(run: string)
    requires AllOf(run, '`')
    ensures Ticks(|run|) == run
  {
  }

  lemma TickStands(line: string, i: nat)
    ensures StandsAt(line, "`", i) <==> i < |line| && line[i] == '`'
  {
  }

  lemma SpanHasParts(line: string, from: nat)
    requires from <= |line| && NextSpan(line, from).Some?
    ensures var span := NextSpan(line, from).value;
      exists before, run, mid, rest ::
        && SpanParts(line[from..], before, run, mid, rest)
        && span == Range(from + |before|, from + |before| + |run| + |mid| + |run|)
  {
    hide RunLength, Find, Ticks;
    var tick := Find(line, "`", from).value;
    var n := RunLength(line, tick, IsTick);
    var closer := Find(line, Ticks(n), tick + n).value;
    TickStands(line, tick);
    RunHolds(line, tick, IsTick);
    TicksAre(line[tick..tick + n]);
    forall i | from <= i < tick
      ensures line[i] != '`'
    {
      TickStands(line, i);
    }
    CutIsParts(line, from, tick, line[tick..tick + n], closer);
  }

  lemma CutIsParts(line: string, from: nat, tick: nat, run: string, closer: nat)
    requires from <= tick && run != "" && tick + |run| <= closer && closer + |run| <= |line|
    requires forall i :: from <= i < tick ==> line[i] != '`'
    requires AllOf(run, '`') && run == line[tick..tick + |run|]
    requires line[tick + |run|] != '`' && StandsAt(line, run, closer)
    requires forall i :: tick + |run| <= i < closer ==> !StandsAt(line, run, i)
    ensures SpanParts(
              line[from..], line[from..tick], run, line[tick + |run|..closer], line[closer + |run|..])
  {
    var at := tick + |run|;
    var before, mid, rest, tail := line[from..tick], line[at..closer], line[closer + |run|..], line[at..];
    assert line[from..] == before + run + tail && tail == mid + run + rest;
    assert line[closer] == line[closer..closer + |run|][0] == '`';
    forall i | 0 <= i < |mid|
      ensures !StandsAt(tail, run, i)
    {
      assert !StandsAt(line, run, at + i);
      assert i + |run| <= |tail| ==> tail[i..i + |run|] == line[at + i..at + i + |run|];
    }
  }

  lemma TickIs(line: string, from: nat, before: string, run: string, tail: string)
    requires from <= |line| && line[from..] == before + run + tail && '`' !in before
    requires run != "" && AllOf(run, '`') && tail != "" && tail[0] != '`'
    ensures var tick := from + |before|;
      && tick + |run| <= |line| && Find(line, "`", from) == Some(tick)
      && RunLength(line, tick, IsTick) == |run| && line[tick + |run|..] == tail
  {
    hide Find, RunLength;
    var tick := from + |before|;
    assert line[tick..] == run + tail;
    assert line[tick] == run[0];
    forall i | from <= i < tick
      ensures !StandsAt(line, "`", i)
    {
      TickStands(line, i);
      assert line[i] == before[i - from];
    }
    TickStands(line, tick);
    FindIs(line, "`", from, tick);
    RunIs(line, tick, run, tail, IsTick);
  }

  lemma CloserIs(line: string, at: nat, run: string, mid: string, rest: string)
    requires at <= |line| && line[at..] == mid + run + rest
    requires forall i :: 0 <= i < |mid| ==> !StandsAt(mid + run + rest, run, i)
    ensures Find(line, run, at) == Some(at + |mid|)
  {
    hide Find;
    var tail := mid + run + rest;
    forall i | at <= i < at + |mid|
      ensures !StandsAt(line, run, i)
    {
      assert !StandsAt(tail, run, i - at);
      assert i + |run| <= |line| ==> tail[i - at..i - at + |run|] == line[i..i + |run|];
    }
    assert tail[|mid|..|mid| + |run|] == run == line[at + |mid|..at + |mid| + |run|];
    FindIs(line, run, at, at + |mid|);
  }

  lemma SpanOfParts(line: string, from: nat, before: string, run: string, mid: string, rest: string)
    requires from <= |line| && SpanParts(line[from..], before, run, mid, rest)
    ensures NextSpan(line, from) == Some(Range(from + |before|, from + |before| + |run| + |mid| + |run|))
  {
    hide Find, RunLength, StandsAt;
    var tail := mid + run + rest;
    assert before + run + mid + run + rest == before + run + tail;
    TickIs(line, from, before, run, tail);
    TicksAre(run);
    CloserIs(line, from + |before| + |run|, run, mid, rest);
  }

  /** The next span of a line is told from how the text behind `from` is put together. */
  lemma SpanShape(line: string, from: nat, span: Range)
    requires from <= |line|
    ensures NextSpan(line, from) == Some(span) <==>
      exists before, run, mid, rest ::
        && SpanParts(line[from..], before, run, mid, rest)
        && span == Range(from + |before|, from + |before| + |run| + |mid| + |run|)
  {
    hide NextSpan, SpanParts;
    if NextSpan(line, from).Some? {
      SpanHasParts(line, from);
    }
    forall before, run, mid, rest | SpanParts(line[from..], before, run, mid, rest)
      ensures NextSpan(line, from) == Some(Range(from + |before|, from + |before| + |run| + |mid| + |run|))
    {
      SpanOfParts(line, from, before, run, mid, rest);
    }
  }

  /** The inline code spans of a line. A run that nothing closes ends the search. */
  function Spans(line: string, from: nat): (spans: seq<Range>)
    requires from <= |line|
    ensures forall i :: 0 <= i < |spans| ==> from <= spans[i].start < spans[i].end <= |line|
    decreases |line| - from
  {
    match NextSpan(line, from)
    case None => []
    case Some(span) => [span] + Spans(line, span.end)
  }

  /** Each span is the next one behind the one before it, and behind the last there is none. */
  lemma {:induction false} SpansChain(line: string, from: nat, i: nat)
    requires from <= |line| && i <= |Spans(line, from)|
    ensures var spans := Spans(line, from);
      NextSpan(line, if i == 0 then from else spans[i - 1].end) == if i < |spans| then Some(spans[i]) else None
    decreases i
  {
    hide NextSpan;
    if i > 0 {
      SpansChain(line, NextSpan(line, from).value.end, i - 1);
    }
  }

  function Shifted(spans: seq<Range>, offset: nat): (shifted: seq<Range>)
    ensures |shifted| == |spans|
    ensures forall i :: 0 <= i < |spans| ==> shifted[i] == Range(spans[i].start + offset, spans[i].end + offset)
  {
    seq(|spans|, i requires 0 <= i < |spans| => Range(spans[i].start + offset, spans[i].end + offset))
  }

  lemma ShiftedMore(done: seq<Range>, span: Range, offset: nat)
    ensures Shifted(done + [span], offset) == Shifted(done, offset) + [Range(span.start + offset, span.end + offset)]
  {
  }

  lemma ShiftedNone(offset: nat)
    ensures Shifted([], offset) == []
  {
  }

  lemma SpansNext(line: string, done: seq<Range>, cursor: nat)
    requires cursor <= |line| && (Spans(line, 0) == done + Spans(line, cursor) || (cursor == 0 && done == []))
    ensures var span := NextSpan(line, cursor);
      if span.None? then Spans(line, 0) == done
      else Spans(line, 0) == (done + [span.value]) + Spans(line, span.value.end)
  {
  }

  /** The spans one after the other, as positions in the text. */
  method InlineSpans(line: string, offset: nat) returns (spans: seq<Range>)
    ensures spans == Shifted(Spans(line, 0), offset)
  {
    hide Spans, NextSpan, Shifted;
    ghost var done: seq<Range> := [];
    ShiftedNone(offset);
    SpansNext(line, done, 0);
    spans := [];
    var span := NextSpan(line, 0);
    while span.Some?
      invariant spans == Shifted(done, offset) && (span.Some? ==> span.value.end <= |line|)
      invariant Spans(line, 0) == if span.None? then done else (done + [span.value]) + Spans(line, span.value.end)
      decreases if span.None? then 0 else |line| - span.value.end + 1
    {
      ShiftedMore(done, span.value, offset);
      spans := spans + [Range(span.value.start + offset, span.value.end + offset)];
      done := done + [span.value];
      SpansNext(line, done, span.value.end);
      span := NextSpan(line, span.value.end);
    }
  }

  // ----- which positions are code -----

  /** A position of line k is code: the line is fenced, or an inline span of it covers the position. */
  predicate InCode(lines: seq<string>, k: nat, at: nat)
    requires k < |lines|
  {
    Fenced(lines, k) || IsInside(at, Spans(lines[k], 0))
  }

  function Length(lines: seq<string>, k: nat): nat
    requires k <= |lines|
  {
    if k == 0 then 0 else Length(lines, k - 1) + |lines[k - 1]|
  }

  lemma {:induction false} LengthGrows(lines: seq<string>, j: nat, k: nat)
    requires j <= k <= |lines|
    ensures Length(lines, j) <= Length(lines, k)
    decreases k - j
  {
    if j < k {
      LengthGrows(lines, j, k - 1);
    }
  }

  /** Within the lines before line k, exactly the code positions are in the ranges. */
  ghost predicate CoversUpTo(ranges: seq<Range>, lines: seq<string>, k: nat)
    requires k <= |lines|
  {
    forall j, at: nat :: 0 <= j < k && at < |lines[j]| ==>
      (IsInside(Length(lines, j) + at, ranges) <==> InCode(lines, j, at))
  }

  ghost predicate EndBy(ranges: seq<Range>, limit: nat) {
    forall i :: 0 <= i < |ranges| ==> ranges[i].start < ranges[i].end <= limit
  }

  lemma InsideAppend(p: nat, a: seq<Range>, b: seq<Range>)
    ensures IsInside(p, a + b) <==> IsInside(p, a) || IsInside(p, b)
  {
    if IsInside(p, a) {
      var i :| 0 <= i < |a| && a[i].Contains(p);
      assert (a + b)[i] == a[i];
    }
    if IsInside(p, b) {
      var i :| 0 <= i < |b| && b[i].Contains(p);
      assert (a + b)[|a| + i] == b[i];
    }
    if i :| 0 <= i < |a + b| && (a + b)[i].Contains(p) {
      assert i < |a| ==> a[i].Contains(p);
      assert i >= |a| ==> b[i - |a|].Contains(p);
    }
  }

  lemma InsideShifted(p: nat, spans: seq<Range>, offset: nat)
    ensures IsInside(p + offset, Shifted(spans, offset)) <==> IsInside(p, spans)
    ensures IsInside(p, Shifted(spans, offset)) ==> p >= offset
  {
    if i :| 0 <= i < |spans| && spans[i].Contains(p) {
      assert Shifted(spans, offset)[i].Contains(p + offset);
    }
    if i :| 0 <= i < |spans| && Shifted(spans, offset)[i].Contains(p + offset) {
      assert spans[i].Contains(p);
    }
  }

  /** Ranges that start behind the first k lines change nothing there. */
  lemma CoverKept(ranges: seq<Range>, more: seq<Range>, lines: seq<string>, k: nat)
    requires k <= |lines| && CoversUpTo(ranges, lines, k)
    requires forall i :: 0 <= i < |more| ==> more[i].start >= Length(lines, k)
    ensures CoversUpTo(ranges + more, lines, k)
  {
    hide InCode, Length;
    forall j, at: nat | 0 <= j < k && at < |lines[j]|
      ensures IsInside(Length(lines, j) + at, ranges + more) <==> InCode(lines, j, at)
    {
      LengthGrows(lines, j + 1, k);
      LengthNext(lines, j);
      InsideAppend(Length(lines, j) + at, ranges, more);
    }
  }

  lemma LengthNext(lines: seq<string>, k: nat)
    requires k < |lines|
    ensures Length(lines, k + 1) == Length(lines, k) + |lines[k]|
  {
  }

  lemma NotInsideBehind(p: nat, ranges: seq<Range>, limit: nat)
    requires EndBy(ranges, limit) && p >= limit
    ensures !IsInside(p, ranges)
  {
  }

  /** A line outside fences adds its inline spans. */
  lemma PlainLine(ranges: seq<Range>, lines: seq<string>, k: nat)
    requires k < |lines| && CoversUpTo(ranges, lines, k) && EndBy(ranges, Length(lines, k)) && !Fenced(lines, k)
    ensures var more := ranges + Shifted(Spans(lines[k], 0), Length(lines, k));
      CoversUpTo(more, lines, k + 1) && EndBy(more, Length(lines, k + 1))
  {
    var offset := Length(lines, k);
    var spans := Spans(lines[k], 0);
    CoverKept(ranges, Shifted(spans, offset), lines, k);
    forall at: nat | at < |lines[k]|
      ensures IsInside(offset + at, ranges + Shifted(spans, offset)) <==> InCode(lines, k, at)
    {
      InsideAppend(offset + at, ranges, Shifted(spans, offset));
      NotInsideBehind(offset + at, ranges, offset);
      InsideShifted(at, spans, offset);
    }
  }

  /** All lines from the opening line to the one before k are fenced. */
  ghost predicate FencedFrom(lines: seq<string>, first: nat, k: nat)
    requires k <= |lines|
  {
    forall j :: first <= j < k ==> Fenced(lines, j)
  }

  /** Closing a block covers it whole; spans of the closing line lie inside it. */
  lemma BlockCovered(ranges: seq<Range>, lines: seq<string>, first: nat, k: nat, more: seq<Range>)
    requires first < k <= |lines| && CoversUpTo(ranges, lines, first) && FencedFrom(lines, first, k)
    requires EndBy(ranges, Length(lines, first)) && EndBy(more, Length(lines, k))
    requires forall i :: 0 <= i < |more| ==> more[i].start >= Length(lines, first)
    requires Length(lines, first) < Length(lines, k)
    ensures var all := ranges + ([Range(Length(lines, first), Length(lines, k))] + more);
      CoversUpTo(all, lines, k) && EndBy(all, Length(lines, k))
  {
    var block := [Range(Length(lines, first), Length(lines, k))];
    var all := ranges + (block + more);
    CoverKept(ranges, block + more, lines, first);
    LengthGrows(lines, first, k);
    forall j, at: nat | first <= j < k && at < |lines[j]|
      ensures IsInside(Length(lines, j) + at, all) <==> InCode(lines, j, at)
    {
      LengthGrows(lines, first, j);
      LengthGrows(lines, j + 1, k);
      assert block[0].Contains(Length(lines, j) + at);
      InsideAppend(Length(lines, j) + at, block, more);
      InsideAppend(Length(lines, j) + at, ranges, block + more);
    }
  }

  // ----- the scan -----

  /** Where the scan stands before line k. */
  datatype Scan = Scan(ranges: seq<Range>, fence: Fence, start: nat)

  /**
    Before line k the ranges cover exactly the code of the lines up to the open block, or of all lines;
    an open block begins at line `first`.
  */
  ghost predicate Scanned(s: Scan, lines: seq<string>, k: nat, first: nat)
    requires k <= |lines|
  {
    && s.fence == FenceAt(lines, k)
    && (s.fence.Closed? ==> CoversUpTo(s.ranges, lines, k) && EndBy(s.ranges, Length(lines, k)))
    && (s.fence.Open? ==>
          && first < k && s.start == Length(lines, first) < Length(lines, k) && FencedFrom(lines, first, k)
          && CoversUpTo(s.ranges, lines, first) && EndBy(s.ranges, s.start))
  }

  lemma MarkedLine(line: string)
    requires Marker(line).Some?
    ensures line != "" && Marker(line).value.Open?
  {
  }

  /** Line k opens a block. */
  lemma ScanOpens(s: Scan, lines: seq<string>, k: nat, first: nat)
    requires k < |lines| && Scanned(s, lines, k, first) && s.fence.Closed? && FenceAt(lines, k + 1).Open?
    ensures Scanned(Scan(s.ranges, FenceAt(lines, k + 1), Length(lines, k)), lines, k + 1, k)
  {
    MarkedLine(lines[k]);
  }

  /** Line k stays in the block. */
  lemma ScanStays(s: Scan, lines: seq<string>, k: nat, first: nat)
    requires k < |lines| && Scanned(s, lines, k, first) && s.fence.Open? && FenceAt(lines, k + 1).Open?
    ensures Scanned(Scan(s.ranges, FenceAt(lines, k + 1), s.start), lines, k + 1, first)
  {
  }

  /** Line k is outside fences. */
  lemma ScanPlain(s: Scan, lines: seq<string>, k: nat, first: nat)
    requires k < |lines| && Scanned(s, lines, k, first) && s.fence.Closed? && FenceAt(lines, k + 1).Closed?
    ensures Scanned(
      Scan(s.ranges + Shifted(Spans(lines[k], 0), Length(lines, k)), Closed, s.start), lines, k + 1, first)
  {
    PlainLine(s.ranges, lines, k);
  }

  /** Line k closes the block; its own inline spans are added too, inside the block. */
  lemma ScanCloses(s: Scan, lines: seq<string>, k: nat, first: nat)
    requires k < |lines| && Scanned(s, lines, k, first) && s.fence.Open? && FenceAt(lines, k + 1).Closed?
    ensures Scanned(
      Scan(
        s.ranges + ([Range(s.start, Length(lines, k + 1))] + Shifted(Spans(lines[k], 0), Length(lines, k))),
        Closed, s.start),
      lines, k + 1, first)
  {
    LengthGrows(lines, first, k);
    BlockCovered(s.ranges, lines, first, k + 1, Shifted(Spans(lines[k], 0), Length(lines, k)));
  }

  /** One line of the scan. */
  method ScanLine(s: Scan, lines: seq<string>, k: nat, offset: nat, ghost first: nat)
    returns (next: Scan, ghost first': nat)
    requires k < |lines| && Scanned(s, lines, k, first) && offset == Length(lines, k)
    ensures Scanned(next, lines, k + 1, first') && next.fence == FenceAt(lines, k + 1)
    ensures s.ranges <= next.ranges
  {
    hide CoversUpTo, EndBy, FencedFrom, Spans, Scanned, Shifted;
    var line := lines[k];
    var fence := Step(s.fence, line);
    var ranges, start := s.ranges, s.start;
    FencesAgree(s, lines, k, first);
    first' := first;
    if s.fence.Closed? && fence.Open? {
      ScanOpens(s, lines, k, first);
      start, first' := offset, k;
    } else if s.fence.Open? && fence.Closed? {
      ScanCloses(s, lines, k, first);
      ranges := ranges + [Range(s.start, offset + |line|)];
    } else if s.fence.Open? {
      ScanStays(s, lines, k, first);
    } else {
      ScanPlain(s, lines, k, first);
    }
    if fence.Closed? {
      var spans := InlineSpans(line, offset);
      assert s.ranges + [Range(s.start, offset + |line|)] + spans ==
        s.ranges + ([Range(s.start, offset + |line|)] + spans);
      ranges := ranges + spans;
    }
    next := Scan(ranges, fence, start);
  }

  lemma FencesAgree(s: Scan, lines: seq<string>, k: nat, first: nat)
    requires k < |lines| && Scanned(s, lines, k, first)
    ensures s.fence == FenceAt(lines, k) && Step(s.fence, lines[k]) == FenceAt(lines, k + 1)
  {
  }

  /** The ranges cover exactly the fenced lines and the inline spans outside them; an open fence runs to the end. */
  method FindRanges(text: string) returns (ranges: seq<Range>)
    ensures var lines := SplitLines(text); CoversUpTo(ranges, lines, |lines|) && EndBy(ranges, Length(lines, |lines|))
  {
    var lines := SplitLines(text);
    var s, offset := Scan([], Closed, 0), 0;
    ghost var first := 0;
    for k := 0 to |lines|
      invariant Scanned(s, lines, k, first) && offset == Length(lines, k)
    {
      s, first := ScanLine(s, lines, k, offset, first);
      offset := offset + |lines[k]|;
    }
    ranges := s.ranges;
    if s.fence.Open? {
      BlockCovered(s.ranges, lines, first, |lines|, []);
      assert [Range(s.start, offset)] + [] == [Range(s.start, offset)];
      ranges := ranges + [Range(s.start, offset)];
    }
  }
}
