/** The front matter of a note: where it is, and the note as its parts. */
module FrontMatter {
  import opened Base
  import opened Strings

  const BOM := 0xFEFF as char

  /** The text without a leading byte order mark, and whether there was one. */
  function StripBom(text: string): (string, bool) {
    if text != "" && text[0] == BOM then (text[1..], true) else (text, false)
  }

  /** A second byte order mark would shift every position found behind it. */
  predicate AtMostOneBom(source: string) {
    !StripBom(StripBom(source).0).1
  }

  /** The span after the opening line up to the closing delimiter. */
  function FrontmatterSpan(text: string): (span: Option<(nat, nat)>)
    ensures span.Some? ==> span.value.0 <= span.value.1 <= |text|
  {
    var cleaned := StripBom(text).0;
    if !StartsWith(cleaned, "---") then None
    else
      match Find(cleaned, "\n", 0)
      case None => None
      case Some(firstEnd) =>
        if Strip(cleaned[..firstEnd]) != "---" then None
        else
          match Find(cleaned, "\n---", firstEnd + 1)
          case None => None
          case Some(marker) => Some((firstEnd + 1, marker + 1))
  }

  // ----- a note in parts -----

  /** Opening line, front matter lines, and everything from the closing delimiter on. */
  datatype Doc = Doc(bom: bool, first: string, lines: seq<string>, rest: string)

  function Mark(bom: bool): string {
    if bom then [BOM] else ""
  }

  function TextOf(d: Doc): string {
    Mark(d.bom) + Unmarked(d)
  }

  function Unmarked(d: Doc): string {
    d.first + (Concat(d.lines) + d.rest)
  }

  /** The line that opens front matter. */
  ghost predicate IsOpening(first: string) {
    IsLine(first) && StartsWith(first, "---") && Strip(first[..|first| - 1]) == "---"
  }

  /** No line after the first may look like the closing delimiter. */
  ghost predicate IsDoc(d: Doc) {
    && IsOpening(d.first)
    && d.lines != [] && AllLines(d.lines)
    && (forall i :: 0 < i < |d.lines| ==> !StartsWith(d.lines[i], "---"))
    && StartsWith(d.rest, "---")
  }

  function ParseDoc(source: string): Option<Doc> {
    var (text, bom) := StripBom(source);
    match FrontmatterSpan(text)
    case None => None
    case Some((start, end)) =>
      Some(Doc(bom, text[..start], SplitLines(text[start..end]), text[end..]))
  }

  // ----- delimiters and lines -----

  ghost predicate NoDelimiter(lines: seq<string>) {
    forall i :: 0 < i < |lines| ==> !StartsWith(lines[i], "---")
  }

  /** A line that does not start with the delimiter does not put one behind the line feed before it. */
  lemma NoDelimiterAt(line: string, rest: string)
    requires IsLine(line) && !StartsWith(line, "---")
    ensures !StandsAt(line + rest, "---", 0)
  {
    if |line| >= 3 {
      assert (line + rest)[..3] == line[..3];
    } else {
      assert (line + rest)[|line| - 1] == '\n';
    }
  }

  lemma MarkerShift(head: string, tail: string, i: nat)
    requires i >= |head|
    ensures StandsAt(head + tail, "\n---", i) <==> StandsAt(tail, "\n---", i - |head|)
  {
    if i + 4 <= |head + tail| {
      assert (head + tail)[i..i + 4] == tail[i - |head|..i - |head| + 4];
    }
  }

  /** Inside one line there is no marker, and at its end only if the delimiter follows. */
  lemma MarkerInLine(line: string, tail: string, i: nat)
    requires IsLine(line) && i < |line|
    ensures StandsAt(line + tail, "\n---", i) <==> i == |line| - 1 && StandsAt(tail, "---", 0)
  {
    if i < |line| - 1 {
      assert (line + tail)[i] != '\n';
    } else if i + 4 <= |line + tail| {
      assert (line + tail)[i..i + 4] == ['\n'] + tail[..3];
      assert "\n---"[1..] == "---" && (['\n'] + tail[..3])[1..] == tail[..3];
    }
  }

  /** No marker before the closing one. */
  lemma {:induction false} NoMarkerBefore(lines: seq<string>, rest: string, i: nat)
    requires AllLines(lines) && NoDelimiter(lines) && i + 1 < |Concat(lines)|
    ensures !StandsAt(Concat(lines) + rest, "\n---", i)
  {
    var line, tail := lines[0], Concat(lines[1..]) + rest;
    assert Concat(lines) + rest == line + tail;
    if i < |line| {
      MarkerInLine(line, tail, i);
      if i == |line| - 1 {
        assert lines[1..] != [];
        assert tail == lines[1] + (Concat(lines[1..][1..]) + rest);
        NoDelimiterAt(lines[1], Concat(lines[1..][1..]) + rest);
      }
    } else {
      MarkerShift(line, tail, i);
      assert forall k :: 0 < k < |lines[1..]| ==> lines[1..][k] == lines[k + 1];
      NoMarkerBefore(lines[1..], rest, i - |line|);
    }
  }

  /** The other way round: without a marker inside, no line after the first starts with the delimiter. */
  lemma {:induction false} NoDelimiterInside(lines: seq<string>, rest: string)
    requires AllLines(lines)
    requires forall i: nat :: i + 1 < |Concat(lines)| ==> !StandsAt(Concat(lines) + rest, "\n---", i)
    ensures NoDelimiter(lines)
  {
    if |lines| > 1 {
      var line, tail := lines[0], Concat(lines[1..]) + rest;
      assert Concat(lines) + rest == line + tail;
      assert Concat(lines[1..]) == lines[1] + Concat(lines[1..][1..]);
      forall i: nat | i + 1 < |Concat(lines[1..])|
        ensures !StandsAt(tail, "\n---", i)
      {
        MarkerShift(line, tail, i + |line|);
      }
      NoDelimiterInside(lines[1..], rest);
      MarkerInLine(line, tail, |line| - 1);
      assert forall k :: 0 <= k < |lines[1]| ==> tail[k] == lines[1][k];
      forall k | 0 < k < |lines|
        ensures !StartsWith(lines[k], "---")
      {
        assert k > 1 ==> lines[k] == lines[1..][k - 1];
      }
    }
  }

  lemma {:induction false} ConcatEndsLine(lines: seq<string>)
    requires AllLines(lines) && lines != []
    ensures Concat(lines) != "" && Concat(lines)[|Concat(lines)| - 1] == '\n'
  {
    if |lines| > 1 {
      ConcatEndsLine(lines[1..]);
    }
  }

  // ----- cutting a text at its delimiters -----

  /** Opening line, body and closing delimiter; the first marker behind the opening line ends the body. */
  ghost predicate Cut(first: string, body: string, rest: string) {
    && IsOpening(first) && body != "" && body[|body| - 1] == '\n' && StartsWith(rest, "---")
    && forall i: nat :: i + 1 < |body| ==> !StandsAt(body + rest, "\n---", i)
  }

  lemma FirstFeed(first: string, tail: string)
    requires IsLine(first)
    ensures Find(first + tail, "\n", 0) == Some(|first| - 1)
  {
    assert forall i :: 0 <= i < |first| ==> (first + tail)[i] == first[i];
    assert StandsAt(first + tail, "\n", |first| - 1);
    forall i | 0 <= i < |first| - 1
      ensures !StandsAt(first + tail, "\n", i)
    {
      assert (first + tail)[i..i + 1] == [first[i]];
    }
  }

  lemma ClosingMarker(first: string, body: string, rest: string)
    requires Cut(first, body, rest)
    ensures Find(first + (body + rest), "\n---", |first|) == Some(|first| + |body| - 1)
  {
    var tail := body + rest;
    var marker := |first| + |body| - 1;
    assert tail[|body| - 1..|body| + 3] == ['\n'] + rest[..3];
    assert StandsAt(tail, "\n---", |body| - 1);
    MarkerShift(first, tail, marker);
    forall i: nat | |first| <= i < marker
      ensures !StandsAt(first + tail, "\n---", i)
    {
      MarkerShift(first, tail, i);
    }
  }

  lemma SpanFound(text: string, firstEnd: nat, marker: nat)
    requires !StripBom(text).1 && StartsWith(text, "---") && Find(text, "\n", 0) == Some(firstEnd)
    requires Strip(text[..firstEnd]) == "---" && Find(text, "\n---", firstEnd + 1) == Some(marker)
    ensures FrontmatterSpan(text) == Some((firstEnd + 1, marker + 1))
  {
  }

  lemma OpeningStarts(first: string, tail: string)
    requires IsOpening(first)
    ensures !StripBom(first + tail).1 && StartsWith(first + tail, "---")
    ensures (first + tail)[..|first| - 1] == first[..|first| - 1]
  {
    assert (first + tail)[..3] == first[..3] == "---";
    assert (first + tail)[0] == (first + tail)[..3][0];
  }

  lemma SpanOfCut(first: string, body: string, rest: string)
    requires Cut(first, body, rest)
    ensures var text := first + (body + rest);
      !StripBom(text).1 && FrontmatterSpan(text) == Some((|first|, |first| + |body|))
  {
    OpeningStarts(first, body + rest);
    FirstFeed(first, body + rest);
    ClosingMarker(first, body, rest);
    SpanFound(first + (body + rest), |first| - 1, |first| + |body| - 1);
  }

  lemma FirstIsLine(text: string)
    requires FrontmatterSpan(text).Some? && !StripBom(text).1
    ensures var (start, end) := FrontmatterSpan(text).value;
      0 < start <= end <= |text| && IsOpening(text[..start])
  {
    var (start, end) := FrontmatterSpan(text).value;
    var at := Find(text, "\n", 0).value;
    assert text[at] == text[at..at + 1][0];
    forall i | 0 <= i < at
      ensures text[i] != '\n'
    {
      assert text[i..i + 1] == [text[i]];
      assert !StandsAt(text, "\n", i);
    }
    assert text[..start][..start - 1] == text[..at];
    assert text[0] == text[..3][0] && text[1] == text[..3][1] && text[2] == text[..3][2];
    assert text[..start][..3] == text[..3];
  }

  lemma MarkerEnds(text: string, start: nat, end: nat)
    requires !StripBom(text).1 && FrontmatterSpan(text) == Some((start, end))
    ensures start < end <= |text| && text[end - 1] == '\n' && StartsWith(text[end..], "---")
    ensures forall i: nat :: start <= i < end - 1 ==> !StandsAt(text, "\n---", i)
  {
    var marker := Find(text, "\n---", start).value;
    assert text[marker..marker + 4][0] == '\n';
    assert text[marker + 1..marker + 4] == text[marker..marker + 4][1..] == "---";
    assert text[end..][..3] == text[marker + 1..marker + 4];
  }
  lemma CutOfSpan(text: string, start: nat, end: nat)
    requires !StripBom(text).1 && FrontmatterSpan(text) == Some((start, end))
    ensures start <= end <= |text| && Cut(text[..start], text[start..end], text[end..])
    ensures text[..start] + (text[start..end] + text[end..]) == text
  {
    FirstIsLine(text);
    MarkerEnds(text, start, end);
    var body, rest := text[start..end], text[end..];
    assert text == text[..start] + (body + rest);
    forall i: nat | i + 1 < |body|
      ensures !StandsAt(body + rest, "\n---", i)
    {
      MarkerShift(text[..start], body + rest, i + start);
    }
  }

  // ----- parsing and printing -----

  lemma CutOfLines(d: Doc)
    requires IsDoc(d)
    ensures Cut(d.first, Concat(d.lines), d.rest)
  {
    ConcatEndsLine(d.lines);
    forall i: nat | i + 1 < |Concat(d.lines)|
      ensures !StandsAt(Concat(d.lines) + d.rest, "\n---", i)
    {
      NoMarkerBefore(d.lines, d.rest, i);
    }
  }

  lemma LinesOfCut(bom: bool, first: string, body: string, rest: string)
    requires Cut(first, body, rest)
    ensures IsDoc(Doc(bom, first, SplitLines(body), rest)) && Concat(SplitLines(body)) == body
  {
    ConcatSplit(body);
    SplitIsLines(body);
    NoDelimiterInside(SplitLines(body), rest);
  }

  lemma BomOf(bom: bool, text: string)
    requires !StripBom(text).1
    ensures StripBom(Mark(bom) + text) == (text, bom)
  {
    assert bom ==> (Mark(bom) + text)[0] == BOM && (Mark(bom) + text)[1..] == text;
    assert !bom ==> Mark(bom) + text == text;
  }

  /** The text behind the mark, and where its front matter is. */
  lemma SpanOfDoc(d: Doc)
    requires IsDoc(d)
    ensures StripBom(TextOf(d)) == (Unmarked(d), d.bom) && !StripBom(Unmarked(d)).1
    ensures FrontmatterSpan(Unmarked(d)) == Some((|d.first|, |d.first| + |Concat(d.lines)|))
  {
    hide Cut, FrontmatterSpan, StripBom, Concat, IsDoc, Mark;
    CutOfLines(d);
    SpanOfCut(d.first, Concat(d.lines), d.rest);
    BomOf(d.bom, Unmarked(d));
  }

  lemma PartsOf(d: Doc)
    ensures var text := Unmarked(d); var start := |d.first|; var end := start + |Concat(d.lines)|;
      end <= |text| && text[..start] == d.first && text[start..end] == Concat(d.lines) && text[end..] == d.rest
  {
  }

  lemma ParsedAs(source: string, text: string, bom: bool, start: nat, end: nat)
    requires StripBom(source) == (text, bom) && FrontmatterSpan(text) == Some((start, end)) && start <= end <= |text|
    ensures ParseDoc(source) == Some(Doc(bom, text[..start], SplitLines(text[start..end]), text[end..]))
  {
  }

  lemma ParseGives(source: string, text: string, start: nat, end: nat, d: Doc)
    requires StripBom(source) == (text, d.bom) && FrontmatterSpan(text) == Some((start, end)) && start <= end <= |text|
    requires text[..start] == d.first && text[start..end] == Concat(d.lines) && text[end..] == d.rest
      && AllLines(d.lines)
    ensures ParseDoc(source) == Some(d)
  {
    ParsedAs(source, text, d.bom, start, end);
    SplitConcat(d.lines);
  }

  lemma Locate(d: Doc) returns (start: nat, end: nat)
    requires IsDoc(d)
    ensures StripBom(TextOf(d)) == (Unmarked(d), d.bom) && !StripBom(Unmarked(d)).1
    ensures FrontmatterSpan(Unmarked(d)) == Some((start, end)) && start <= end <= |Unmarked(d)|
    ensures Unmarked(d)[..start] == d.first && Unmarked(d)[start..end] == Concat(d.lines)
      && Unmarked(d)[end..] == d.rest
  {
    hide *;
    start, end := |d.first|, |d.first| + |Concat(d.lines)|;
    SpanOfDoc(d);
    PartsOf(d);
  }

  /** The parts of a note are found again in its text. */
  lemma ParseOfText(d: Doc)
    requires IsDoc(d)
    ensures AtMostOneBom(TextOf(d)) && ParseDoc(TextOf(d)) == Some(d)
  {
    var start, end := Locate(d);
    ParseGives(TextOf(d), Unmarked(d), start, end, d);
  }

  /** And a text with front matter is the text of its parts. */
  lemma TextOfParse(source: string)
    requires AtMostOneBom(source) && FrontmatterSpan(StripBom(source).0).Some?
    ensures ParseDoc(source).Some? && IsDoc(ParseDoc(source).value) && TextOf(ParseDoc(source).value) == source
  {
    var (text, bom) := StripBom(source);
    var (start, end) := FrontmatterSpan(text).value;
    CutOfSpan(text, start, end);
    ParsedAs(source, text, bom, start, end);
    LinesOfCut(bom, text[..start], text[start..end], text[end..]);
    MarkBack(source);
  }

  lemma MarkBack(source: string)
    ensures Mark(StripBom(source).1) + StripBom(source).0 == source
  {
  }
}
