/** Format-preserving edits of the tag list in a note's front matter. */
module TagEdits {
  import opened Base
  import opened Strings
  import opened FrontMatter

  // ----- recognising lines -----

  predicate IsBreak(c: char) {
    c == '\r' || c == '\n'
  }

  /** A line without its line break. */
  function Content(raw: string): string {
    if raw != "" && IsBreak(raw[|raw| - 1]) then Content(raw[..|raw| - 1]) else raw
  }

  predicate NoBreaks(s: string) {
    forall i :: 0 <= i < |s| ==> !IsBreak(s[i])
  }

  function TrimBlanks(s: string): string {
    if s != "" && IsBlankChar(s[|s| - 1]) then TrimBlanks(s[..|s| - 1]) else s
  }

  /** `tags:` and nothing behind it but a comment. */
  predicate IsHeader(raw: string) {
    var line := Content(raw);
    StartsWith(line, "tags:") &&
    var at := 5 + RunLength(line, 5, IsBlankChar);
    at == |line| || (line[at] == '#' && NoBreaks(line[at..]))
  }

  /** Up to four blanks, a dash or a star, blanks, and the tag. */
  function ItemText(raw: string): Option<string> {
    var line := Content(raw);
    var dash := RunLength(line, 0, IsBlankChar);
    if dash <= 4 && dash < |line| && line[dash] in {'-', '*'} then
      var at := dash + 1 + RunLength(line, dash + 1, IsBlankChar);
      if at > dash + 1 && NoBreaks(line[at..]) then Some(TrimBlanks(line[at..])) else None
    else None
  }

  /** Any way to write the key, also those the edits refuse. */
  predicate IsTagsKey(raw: string) {
    IsKey(raw, "tags") || IsKey(raw, "'tags'") || IsKey(raw, "\"tags\"")
  }

  predicate IsKey(raw: string, key: string) {
    StartsWith(raw, key) &&
    var at := |key| + RunLength(raw, |key|, IsBlankChar);
    at < |raw| && raw[at] == ':'
  }

  /** Items and blank lines continue a block. */
  predicate InBlock(raw: string) {
    ItemText(raw).Some? || Strip(Content(raw)) == ""
  }

  // ----- the block among the lines -----

  function HeaderIndex(lines: seq<string>): (h: Option<nat>)
    ensures h.Some? ==>
      && h.value < |lines| && IsHeader(lines[h.value])
      && forall k :: 0 <= k < h.value ==> !IsHeader(lines[k])
    ensures h.None? ==> forall k :: 0 <= k < |lines| ==> !IsHeader(lines[k])
  {
    HeaderFrom(lines, 0)
  }

  function HeaderFrom(lines: seq<string>, from: nat): (h: Option<nat>)
    requires from <= |lines|
    ensures h.Some? ==>
      from <= h.value < |lines| && IsHeader(lines[h.value]) && forall k :: from <= k < h.value ==> !IsHeader(lines[k])
    ensures h.None? ==> forall k :: from <= k < |lines| ==> !IsHeader(lines[k])
    decreases |lines| - from
  {
    if from == |lines| then None else if IsHeader(lines[from]) then Some(from) else HeaderFrom(lines, from + 1)
  }

  /** The first line from `from` on that does not continue the block. */
  function BlockEnd(lines: seq<string>, from: nat): (j: nat)
    requires from <= |lines|
    ensures from <= j <= |lines| && (forall k :: from <= k < j ==> InBlock(lines[k]))
    ensures j < |lines| ==> !InBlock(lines[j])
    decreases |lines| - from
  {
    if from < |lines| && InBlock(lines[from]) then BlockEnd(lines, from + 1) else from
  }

  /** Header and end of the block. */
  function Block(lines: seq<string>): (b: Option<(nat, nat)>)
    ensures b.Some? ==> b.value.0 < b.value.1 <= |lines|
  {
    match HeaderIndex(lines)
    case None => None
    case Some(h) => Some((h, BlockEnd(lines, h + 1)))
  }

  /** The block is where these facts say. */
  lemma BlockIs(lines: seq<string>, h: nat, j: nat)
    requires h < j <= |lines| && IsHeader(lines[h]) && (forall k :: 0 <= k < h ==> !IsHeader(lines[k]))
    requires (forall k :: h < k < j ==> InBlock(lines[k])) && (j < |lines| ==> !InBlock(lines[j]))
    ensures Block(lines) == Some((h, j))
  {
    var found := HeaderIndex(lines);
    assert found.Some? && found.value == h;
    var end := BlockEnd(lines, h + 1);
    assert !(h < end < j) && !(j < end);
  }

  function Offset(lines: seq<string>, k: nat): nat
    requires k <= |lines|
  {
    |Concat(lines[..k])|
  }

  /** Start and end of the block as positions in the text. */
  function SpanOfBlock(lines: seq<string>, base: nat): Option<(nat, nat)> {
    match Block(lines)
    case None => None
    case Some((h, j)) => Some((base + Offset(lines, h), base + Offset(lines, j)))
  }

  function BlockSpan(frontmatter: string, base: nat): Option<(nat, nat)> {
    SpanOfBlock(SplitLines(frontmatter), base)
  }

  lemma OffsetFits(lines: seq<string>, h: nat, j: nat)
    requires h <= j <= |lines|
    ensures Offset(lines, h) <= Offset(lines, j) <= |Concat(lines)|
  {
    assert lines[..j] == lines[..h] + lines[h..j];
    ConcatAppend(lines[..h], lines[h..j]);
    assert lines == lines[..j] + lines[j..];
    ConcatAppend(lines[..j], lines[j..]);
  }

  lemma SpanFits(frontmatter: string, base: nat)
    ensures var span := BlockSpan(frontmatter, base);
      span.Some? ==> base <= span.value.0 <= span.value.1 <= base + |frontmatter|
  {
    ConcatSplit(frontmatter);
    var lines := SplitLines(frontmatter);
    if Block(lines).Some? {
      OffsetFits(lines, Block(lines).value.0, Block(lines).value.1);
    }
  }

  // ----- edits on texts -----

  function TagLines(tags: seq<string>, newline: string): (lines: seq<string>)
    ensures |lines| == |tags| && forall i :: 0 <= i < |tags| ==> lines[i] == "  - " + tags[i] + newline
  {
    seq(|tags|, i requires 0 <= i < |tags| => "  - " + tags[i] + newline)
  }

  function Newline(text: string): string {
    if Find(text, "\r\n", 0).Some? then "\r\n" else "\n"
  }

  predicate AnyTagsKey(lines: seq<string>) {
    exists i :: 0 <= i < |lines| && IsTagsKey(lines[i])
  }

  /** Adds tags to the block in this front matter, or a block to it; refused next to any other tags key. */
  function AddInside(text: string, start: nat, frontmatter: string, addition: string, newline: string): Option<string>
    requires start + |frontmatter| <= |text|
  {
    SpanFits(frontmatter, start);
    var end := start + |frontmatter|;
    match BlockSpan(frontmatter, start)
    case Some((_, blockEnd)) => Some(text[..blockEnd] + addition + text[blockEnd..])
    case None =>
      if AnyTagsKey(SplitLines(frontmatter)) then None
      else Some(text[..end] + ("tags:" + newline + addition) + text[end..])
  }

  /** Adds tags to the block, or a block to the front matter, or front matter to the note. */
  function AddTags(source: string, tags: seq<string>): Option<string> {
    var (text, bom) := StripBom(source);
    var newline := Newline(text);
    var addition := Concat(TagLines(tags, newline));
    match FrontmatterSpan(text)
    case None => Some(Mark(bom) + "---" + newline + "tags:" + newline + addition + "---" + newline + text)
    case Some((start, end)) =>
      match AddInside(text, start, text[start..end], addition, newline)
      case None => None
      case Some(edited) => Some(Mark(bom) + edited)
  }

  function StripInside(text: string, start: nat, frontmatter: string): string
    requires start + |frontmatter| <= |text|
  {
    SpanFits(frontmatter, start);
    match BlockSpan(frontmatter, start)
    case None => text
    case Some((blockStart, blockEnd)) => text[..blockStart] + text[blockEnd..]
  }

  /** The text with its tag block cut out. */
  function StripTagsBlock(text: string): string {
    var (cleaned, bom) := StripBom(text);
    match FrontmatterSpan(cleaned)
    case None => text
    case Some((start, end)) => Mark(bom) + StripInside(cleaned, start, cleaned[start..end])
  }

  predicate TagsOnlyChange(before: string, after: string) {
    StripTagsBlock(before) == StripTagsBlock(after)
  }

  // ----- the same edits on the lines of a note -----

  function WithLines(d: Doc, lines: seq<string>): Doc {
    d.(lines := lines)
  }

  function AddLines(lines: seq<string>, more: seq<string>, header: string): Option<seq<string>> {
    match Block(lines)
    case Some((_, j)) => Some(lines[..j] + more + lines[j..])
    case None => if AnyTagsKey(lines) then None else Some(lines + ([header] + more))
  }

  function StripLines(lines: seq<string>): seq<string> {
    match Block(lines)
    case Some((h, j)) => lines[..h] + lines[j..]
    case None => lines
  }

  lemma CutAt(first: string, lines: seq<string>, rest: string, k: nat)
    requires k <= |lines|
    ensures var text := first + (Concat(lines) + rest); var at := |first| + Offset(lines, k);
      && at <= |text| && text[..at] == first + Concat(lines[..k]) && text[at..] == Concat(lines[k..]) + rest
  {
    assert lines == lines[..k] + lines[k..];
    ConcatAppend(lines[..k], lines[k..]);
  }

  /** The block of front matter lines as positions. */
  lemma BlockSpanOfLines(lines: seq<string>, base: nat)
    requires AllLines(lines)
    ensures BlockSpan(Concat(lines), base) == SpanOfBlock(lines, base)
  {
    SplitConcat(lines);
  }

  lemma Spliced(first: string, a: seq<string>, b: seq<string>, rest: string)
    ensures first + Concat(a) + (Concat(b) + rest) == first + (Concat(a + b) + rest)
  {
    ConcatAppend(a, b);
  }

  lemma SplicedMore(first: string, a: seq<string>, more: seq<string>, b: seq<string>, rest: string)
    ensures first + Concat(a) + Concat(more) + (Concat(b) + rest) == first + (Concat(a + more + b) + rest)
  {
    ConcatAppend(a, more);
    ConcatAppend(a + more, b);
  }

  /** A source whose front matter has been found. */
  ghost predicate Located(source: string, text: string, bom: bool, start: nat, frontmatter: string) {
    && StripBom(source) == (text, bom) && start + |frontmatter| <= |text|
    && FrontmatterSpan(text) == Some((start, start + |frontmatter|))
    && text[start..start + |frontmatter|] == frontmatter
  }

  lemma LocatedDoc(d: Doc)
    requires IsDoc(d)
    ensures Located(TextOf(d), Unmarked(d), d.bom, |d.first|, Concat(d.lines))
  {
    SpanOfDoc(d);
    PartsOf(d);
  }

  lemma StripUnfolds(source: string, text: string, bom: bool, start: nat, frontmatter: string)
    requires Located(source, text, bom, start, frontmatter)
    ensures StripTagsBlock(source) == Mark(bom) + StripInside(text, start, frontmatter)
  {
    var span := FrontmatterSpan(text).value;
    var inside := text[span.0..span.1];
    assert inside == frontmatter;
    assert StripTagsBlock(source) == Mark(bom) + StripInside(text, start, inside);
  }

  lemma AddUnfolds(source: string, text: string, bom: bool, start: nat, frontmatter: string, tags: seq<string>)
    requires Located(source, text, bom, start, frontmatter)
    ensures var newline := Newline(text);
      var inside := AddInside(text, start, frontmatter, Concat(TagLines(tags, newline)), newline);
      AddTags(source, tags) == if inside.None? then None else Some(Mark(bom) + inside.value)
  {
    hide AddInside, Concat, Newline;
  }

  lemma StripOnText(first: string, lines: seq<string>, rest: string)
    requires AllLines(lines)
    ensures StripInside(first + (Concat(lines) + rest), |first|, Concat(lines)) ==
      first + (Concat(StripLines(lines)) + rest)
  {
    BlockSpanOfLines(lines, |first|);
    match Block(lines)
    case None =>
    case Some((h, j)) =>
      CutAt(first, lines, rest, h);
      CutAt(first, lines, rest, j);
      Spliced(first, lines[..h], lines[j..], rest);
  }

  /** Cutting the block out of the text cuts its lines out of the front matter. */
  lemma StripOnLines(d: Doc)
    requires IsDoc(d)
    ensures StripTagsBlock(TextOf(d)) == TextOf(WithLines(d, StripLines(d.lines)))
  {
    LocatedDoc(d);
    StripUnfolds(TextOf(d), Unmarked(d), d.bom, |d.first|, Concat(d.lines));
    StripOnText(d.first, d.lines, d.rest);
  }

  lemma HeadedConcat(header: string, more: seq<string>)
    ensures Concat([header] + more) == header + Concat(more)
  {
    assert ([header] + more)[1..] == more;
  }

  lemma AddOnText(first: string, lines: seq<string>, rest: string, newline: string, more: seq<string>)
    requires AllLines(lines)
    ensures var added := AddLines(lines, more, "tags:" + newline);
      AddInside(first + (Concat(lines) + rest), |first|, Concat(lines), Concat(more), newline) ==
      if added.None? then None else Some(first + (Concat(added.value) + rest))
  {
    BlockSpanOfLines(lines, |first|);
    SplitConcat(lines);
    match Block(lines)
    case Some((_, j)) =>
      CutAt(first, lines, rest, j);
      SplicedMore(first, lines[..j], more, lines[j..], rest);
    case None =>
      var header := "tags:" + newline;
      CutAt(first, lines, rest, |lines|);
      assert lines[..|lines|] == lines && lines[|lines|..] == [];
      HeadedConcat(header, more);
      SplicedMore(first, lines, [header] + more, [], rest);
      assert lines + ([header] + more) + [] == lines + ([header] + more);
  }

  /** Adding to the text adds lines to the front matter. */
  lemma AddOnLines(d: Doc, tags: seq<string>)
    requires IsDoc(d)
    ensures var newline := Newline(Unmarked(d));
      var added := AddLines(d.lines, TagLines(tags, newline), "tags:" + newline);
      AddTags(TextOf(d), tags) == if added.None? then None else Some(TextOf(WithLines(d, added.value)))
  {
    LocatedDoc(d);
    AddUnfolds(TextOf(d), Unmarked(d), d.bom, |d.first|, Concat(d.lines), tags);
    var newline := Newline(Unmarked(d));
    AddOnText(d.first, d.lines, d.rest, newline, TagLines(tags, newline));
  }
}
