/** What the tags of a note are, read from its text, and what the edits do to them. */
module TagReading {
  import opened Base
  import opened Strings
  import opened Names
  import opened FrontMatter
  import opened TagEdits
  import opened TagLaws

  // ----- the shapes of lines -----

  predicate AllBlank(s: string) {
    forall i :: 0 <= i < |s| ==> IsBlankChar(s[i])
  }

  lemma {:induction false} RunIsBlank(s: string, at: nat)
    requires at <= |s|
    ensures var n := RunLength(s, at, IsBlankChar);
      AllBlank(s[at..at + n]) && (at + n < |s| ==> !IsBlankChar(s[at + n]))
    decreases |s| - at
  {
    if at < |s| && IsBlankChar(s[at]) {
      RunIsBlank(s, at + 1);
      var n := RunLength(s, at, IsBlankChar);
      assert s[at..at + n] == [s[at]] + s[at + 1..at + n];
    }
  }

  /** `tags:`, blanks, and nothing else but a comment. */
  ghost predicate HeaderParts(line: string, blanks: string, comment: string) {
    && line == "tags:" + blanks + comment && AllBlank(blanks)
    && (comment == "" || (comment[0] == '#' && NoBreaks(comment)))
  }

  lemma HeaderOfParts(line: string, blanks: string, comment: string)
    requires HeaderParts(line, blanks, comment)
    ensures StartsWith(line, "tags:") && RunLength(line, 5, IsBlankChar) == |blanks|
    ensures line[5 + |blanks|..] == comment && 5 + |blanks| + |comment| == |line|
  {
    assert line == "tags:" + (blanks + comment);
    assert line[..5] == "tags:" && line[5..] == blanks + comment;
    RunIs(line, 5, blanks, comment, IsBlankChar);
  }

  lemma HeaderHasParts(line: string)
    requires StartsWith(line, "tags:")
    ensures var n := RunLength(line, 5, IsBlankChar);
      line == "tags:" + line[5..5 + n] + line[5 + n..] && AllBlank(line[5..5 + n])
  {
    RunIsBlank(line, 5);
  }

  lemma HeaderIsParts(raw: string)
    requires IsHeader(raw)
    ensures exists blanks, comment :: HeaderParts(Content(raw), blanks, comment)
  {
    hide RunLength, Content;
    var line := Content(raw);
    var n := RunLength(line, 5, IsBlankChar);
    HeaderHasParts(line);
    assert HeaderParts(line, line[5..5 + n], line[5 + n..]);
  }

  lemma PartsAreHeader(raw: string, blanks: string, comment: string)
    requires HeaderParts(Content(raw), blanks, comment)
    ensures IsHeader(raw)
  {
    hide RunLength, Content;
    HeaderOfParts(Content(raw), blanks, comment);
    assert comment != "" ==> Content(raw)[5 + |blanks|] == comment[0];
  }

  /** A header line is one of this shape. */
  lemma HeaderShape(raw: string)
    ensures IsHeader(raw) <==> exists blanks, comment :: HeaderParts(Content(raw), blanks, comment)
  {
    hide IsHeader, HeaderParts, Content;
    if IsHeader(raw) {
      HeaderIsParts(raw);
    }
    forall blanks, comment | HeaderParts(Content(raw), blanks, comment)
      ensures IsHeader(raw)
    {
      PartsAreHeader(raw, blanks, comment);
    }
  }

  /** Up to four blanks, a dash or a star, at least one blank, and the tag, which neither starts nor ends with one. */
  ghost predicate ItemParts(line: string, indent: string, mark: char, gap: string, tag: string, tail: string) {
    && line == indent + [mark] + gap + tag + tail
    && AllBlank(indent) && |indent| <= 4 && (mark == '-' || mark == '*') && gap != "" && AllBlank(gap)
    && NoBreaks(tag) && AllBlank(tail)
    && (tag == "" ==> tail == "") && (tag != "" ==> !IsBlankChar(tag[0]) && !IsBlankChar(tag[|tag| - 1]))
  }

  lemma {:induction false} TrimIs(tag: string, tail: string)
    requires AllBlank(tail) && (tag == "" || !IsBlankChar(tag[|tag| - 1]))
    ensures TrimBlanks(tag + tail) == tag
  {
    if tail == "" {
      assert tag + tail == tag;
    } else {
      assert (tag + tail)[..|tag + tail| - 1] == tag + tail[..|tail| - 1];
      TrimIs(tag, tail[..|tail| - 1]);
    }
  }

  lemma {:induction false} TrimParts(s: string)
    ensures var tag := TrimBlanks(s);
      && |tag| <= |s| && s == tag + s[|tag|..] && AllBlank(s[|tag|..])
      && (tag == "" || !IsBlankChar(tag[|tag| - 1]))
  {
    if s != "" && IsBlankChar(s[|s| - 1]) {
      TrimParts(s[..|s| - 1]);
      var tag := TrimBlanks(s);
      assert s[|tag|..] == s[..|s| - 1][|tag|..] + [s[|s| - 1]];
    }
  }

  lemma ItemOfParts(raw: string, indent: string, mark: char, gap: string, tag: string, tail: string)
    requires ItemParts(Content(raw), indent, mark, gap, tag, tail)
    ensures ItemText(raw) == Some(tag)
  {
    hide RunLength, Content, TrimBlanks;
    var line := Content(raw);
    var dash := |indent|;
    assert line == indent + ([mark] + gap + tag + tail);
    RunIs(line, 0, indent, [mark] + gap + tag + tail, IsBlankChar);
    assert line[dash + 1..] == gap + (tag + tail);
    RunIs(line, dash + 1, gap, tag + tail, IsBlankChar);
    assert line[dash + 1 + |gap|..] == tag + tail;
    forall i | 0 <= i < |tag + tail|
      ensures !IsBreak((tag + tail)[i])
    {
      assert i >= |tag| ==> IsBlankChar(tail[i - |tag|]);
    }
    TrimIs(tag, tail);
  }

  lemma CutLine(line: string, dash: nat, at: nat, m: nat)
    requires dash < at <= m <= |line|
    ensures line == line[..dash] + [line[dash]] + line[dash + 1..at] + line[at..m] + line[m..]
  {
    assert line == line[..dash] + [line[dash]] + line[dash + 1..];
    assert line[dash + 1..] == line[dash + 1..at] + line[at..m] + line[m..];
  }

  lemma TrimStart(line: string, at: nat)
    requires at <= |line| && (at == |line| || !IsBlankChar(line[at]))
    ensures var tag := TrimBlanks(line[at..]); var m := at + |tag|;
      && m <= |line| && line[at..m] == tag && AllBlank(line[m..])
      && (tag == "" ==> line[m..] == "")
      && (tag != "" ==> !IsBlankChar(tag[0]) && !IsBlankChar(tag[|tag| - 1]))
  {
    TrimParts(line[at..]);
    var tag := TrimBlanks(line[at..]);
    var m := at + |tag|;
    assert line[at..][|tag|..] == line[m..] && line[at..][..|tag|] == line[at..m];
    assert tag != "" ==> tag[0] == line[at];
  }

  lemma ItemHasParts(raw: string)
    requires ItemText(raw).Some?
    ensures exists indent, mark, gap, tail :: ItemParts(Content(raw), indent, mark, gap, ItemText(raw).value, tail)
  {
    hide RunLength, Content, TrimBlanks;
    var line := Content(raw);
    var dash := RunLength(line, 0, IsBlankChar);
    var n := RunLength(line, dash + 1, IsBlankChar);
    var at := dash + 1 + n;
    RunIsBlank(line, 0);
    RunIsBlank(line, dash + 1);
    TrimStart(line, at);
    var m := at + |TrimBlanks(line[at..])|;
    CutLine(line, dash, at, m);
    assert line[0..dash] == line[..dash];
    assert NoBreaks(line[at..m]) by {
      assert forall i :: 0 <= i < m - at ==> line[at..m][i] == line[at..][i];
    }
    assert ItemParts(line, line[..dash], line[dash], line[dash + 1..at], line[at..m], line[m..]);
  }

  /** An item line is one of this shape, and its tag is what stands there. */
  lemma ItemShape(raw: string, tag: string)
    ensures ItemText(raw) == Some(tag) <==>
      exists indent, mark, gap, tail :: ItemParts(Content(raw), indent, mark, gap, tag, tail)
  {
    if ItemText(raw) == Some(tag) {
      ItemHasParts(raw);
    }
    if indent, mark, gap, tail :| ItemParts(Content(raw), indent, mark, gap, tag, tail) {
      ItemOfParts(raw, indent, mark, gap, tag, tail);
    }
  }

  /** A block goes on with items and with lines of nothing but whitespace. */
  lemma ContinuesShape(raw: string)
    ensures InBlock(raw) <==>
      || (exists indent, mark, gap, tag, tail :: ItemParts(Content(raw), indent, mark, gap, tag, tail))
      || AllSpace(Content(raw))
  {
    hide ItemText, Content, Strip;
    StripShape(Content(raw), "");
    if ItemText(raw).Some? {
      ItemShape(raw, ItemText(raw).value);
    }
    if indent, mark, gap, tag, tail :| ItemParts(Content(raw), indent, mark, gap, tag, tail) {
      ItemShape(raw, tag);
    }
    if AllSpace(Content(raw)) {
      assert StripParts(Content(raw), Content(raw), "", "");
    }
    if lead, tail :| StripParts(Content(raw), lead, "", tail) {
      assert Content(raw) == lead;
    }
  }

  /** One of the three ways to write the key, blanks, and a colon. */
  ghost predicate KeyParts(raw: string, key: string, blanks: string, rest: string) {
    (key == "tags" || key == "'tags'" || key == "\"tags\"") && AllBlank(blanks) && raw == key + blanks + ":" + rest
  }

  lemma KeyOfParts(raw: string, key: string, blanks: string, rest: string)
    requires AllBlank(blanks) && raw == key + blanks + ":" + rest
    ensures IsKey(raw, key)
  {
    assert raw == key + (blanks + (":" + rest));
    assert raw[..|key|] == key && raw[|key|..] == blanks + (":" + rest);
    RunIs(raw, |key|, blanks, ":" + rest, IsBlankChar);
    assert raw[|key| + |blanks|] == raw[|key|..][|blanks|];
  }

  lemma KeyHasParts(raw: string, key: string)
    requires IsKey(raw, key)
    ensures exists blanks, rest :: AllBlank(blanks) && raw == key + blanks + ":" + rest
  {
    var n := RunLength(raw, |key|, IsBlankChar);
    var at := |key| + n;
    RunIsBlank(raw, |key|);
    assert raw == raw[..|key|] + raw[|key|..at] + [raw[at]] + raw[at + 1..];
    assert AllBlank(raw[|key|..at]) && raw == key + raw[|key|..at] + ":" + raw[at + 1..];
  }

  lemma KeyShape(raw: string)
    ensures IsTagsKey(raw) <==> exists key, blanks, rest :: KeyParts(raw, key, blanks, rest)
  {
    hide IsKey;
    if IsTagsKey(raw) {
      var key := if IsKey(raw, "tags") then "tags" else if IsKey(raw, "'tags'") then "'tags'" else "\"tags\"";
      KeyHasParts(raw, key);
      var blanks, rest :| AllBlank(blanks) && raw == key + blanks + ":" + rest;
      assert KeyParts(raw, key, blanks, rest);
    }
    if key, blanks, rest :| KeyParts(raw, key, blanks, rest) {
      KeyOfParts(raw, key, blanks, rest);
    }
  }

  lemma {:induction false} ContentShape(line: string, breaks: string)
    requires (line == "" || !IsBreak(line[|line| - 1])) && forall i :: 0 <= i < |breaks| ==> breaks[i] in {'\r', '\n'}
    ensures Content(line + breaks) == line
  {
    if breaks == "" {
      assert line + breaks == line;
    } else {
      assert (line + breaks)[..|line + breaks| - 1] == line + breaks[..|breaks| - 1];
      ContentShape(line, breaks[..|breaks| - 1]);
    }
  }

  // ----- reading tags -----

  /** The tags of the items from line a to line b, in order. */
  function Items(lines: seq<string>, a: nat, b: nat): seq<string>
    requires a <= b <= |lines|
    decreases b
  {
    if a == b then []
    else Items(lines, a, b - 1) + if ItemText(lines[b - 1]).Some? then [ItemText(lines[b - 1]).value] else []
  }

  lemma ItemsStep(lines: seq<string>, a: nat, b: nat)
    requires a < b <= |lines|
    ensures Items(lines, a, b) ==
      Items(lines, a, b - 1) + if ItemText(lines[b - 1]).Some? then [ItemText(lines[b - 1]).value] else []
  {
  }

  function TagsOf(lines: seq<string>): seq<string> {
    match Block(lines)
    case None => []
    case Some((h, j)) => Items(lines, h + 1, j)
  }

  /** The tags of a note. */
  function ReadTags(source: string): seq<string> {
    match ParseDoc(source)
    case None => []
    case Some(d) => TagsOf(d.lines)
  }

  lemma {:induction false} ItemsAgree(lines: seq<string>, others: seq<string>, a: nat, b: nat, a': nat)
    requires a <= b <= |lines| && a' + (b - a) <= |others|
    requires forall k :: a <= k < b ==> lines[k] == others[a' + (k - a)]
    ensures Items(lines, a, b) == Items(others, a', a' + (b - a))
    decreases b
  {
    if a < b {
      ItemsAgree(lines, others, a, b - 1, a');
      assert lines[b - 1] == others[a' + (b - a) - 1];
    }
  }

  lemma {:induction false} ItemsJoin(lines: seq<string>, a: nat, m: nat, b: nat)
    requires a <= m <= b <= |lines|
    ensures Items(lines, a, b) == Items(lines, a, m) + Items(lines, m, b)
    decreases b
  {
    if m < b {
      ItemsJoin(lines, a, m, b - 1);
    }
  }

  lemma {:induction false} TagLinesRead(tags: seq<string>, newline: string, n: nat)
    requires IsNewline(newline) && n <= |tags| && forall i :: 0 <= i < |tags| ==> IsTidy(tags[i])
    ensures Items(TagLines(tags, newline), 0, n) == tags[..n]
  {
    if n > 0 {
      TagLinesRead(tags, newline, n - 1);
      TagLineIsItem(tags[n - 1], newline);
      assert tags[..n] == tags[..n - 1] + [tags[n - 1]];
    }
  }

  // ----- adding -----

  lemma AddedRead(lines: seq<string>, tags: seq<string>, newline: string)
    requires IsNewline(newline) && forall i :: 0 <= i < |tags| ==> IsTidy(tags[i])
    requires AddLines(lines, TagLines(tags, newline), "tags:" + newline).Some?
    ensures TagsOf(AddLines(lines, TagLines(tags, newline), "tags:" + newline).value) == TagsOf(lines) + tags
  {
    hide ItemText, AnyTagsKey, IsHeader, Items, Block, NoBreaks, TagLines;
    var more, header := TagLines(tags, newline), "tags:" + newline;
    TagLinesFit(tags, newline);
    HeaderLine(newline);
    AddedBlock(lines, more, header);
    TagLinesRead(tags, newline, |tags|);
    assert tags[..|tags|] == tags;
    var added := AddLines(lines, more, header).value;
    match Block(lines)
    case Some((h, j)) => InsertedRead(lines, more, h + 1, j);
    case None =>
      assert added == lines + [header] + more;
      ItemsAgree(more, added, 0, |more|, |lines| + 1);
  }

  lemma InsertedRead(lines: seq<string>, more: seq<string>, a: nat, b: nat)
    requires a <= b <= |lines|
    ensures Items(lines[..b] + more + lines[b..], a, b + |more|) == Items(lines, a, b) + Items(more, 0, |more|)
  {
    hide Items;
    var added := lines[..b] + more + lines[b..];
    ItemsJoin(added, a, b, b + |more|);
    ItemsAgree(lines, added, a, b, a);
    ItemsAgree(more, added, 0, |more|, b);
  }

  /** The opening line that adding tags writes. */
  lemma OpeningLine(newline: string)
    requires IsNewline(newline)
    ensures IsOpening("---" + newline)
  {
    var first := "---" + newline;
    IsLineOf("---", newline);
    assert first[..3] == "---";
    if newline == "\n" {
      assert first[..|first| - 1] == "---";
      assert TrimLeft("---") == "---" && TrimRight("---") == "---";
    } else {
      assert first[..|first| - 1] == "---\r";
      assert TrimLeft("---\r") == "---\r" && "---\r"[..3] == "---";
      assert TrimRight("---") == "---";
    }
  }

  /** The note with front matter that adding tags to a note without any gives. */
  function NewDoc(source: string, tags: seq<string>, newline: string): Doc {
    var (text, bom) := StripBom(source);
    Doc(bom, "---" + newline, ["tags:" + newline] + TagLines(tags, newline), "---" + newline + text)
  }

  lemma NewIsDoc(source: string, tags: seq<string>, newline: string)
    requires IsNewline(newline) && forall i :: 0 <= i < |tags| ==> NoBreaks(tags[i])
    ensures IsDoc(NewDoc(source, tags, newline))
  {
    hide Strip, ItemText, IsHeader, IsOpening;
    var d := NewDoc(source, tags, newline);
    OpeningLine(newline);
    HeaderLine(newline);
    TagLinesFit(tags, newline);
    assert d.rest[..3] == "---";
    assert forall i :: 0 < i < |d.lines| ==> d.lines[i] == TagLines(tags, newline)[i - 1];
  }

  lemma NewText(source: string, tags: seq<string>)
    requires FrontmatterSpan(StripBom(source).0).None?
    ensures AddTags(source, tags) == Some(TextOf(NewDoc(source, tags, Newline(StripBom(source).0))))
  {
    hide FrontmatterSpan, TagLines, Newline, Concat, Mark, StripBom;
    var (text, bom) := StripBom(source);
    var newline := Newline(text);
    HeadedConcat("tags:" + newline, TagLines(tags, newline));
    Regrouped(Mark(bom), newline, Concat(TagLines(tags, newline)), text);
  }

  lemma Regrouped(mark: string, newline: string, addition: string, text: string)
    ensures mark + "---" + newline + "tags:" + newline + addition + "---" + newline + text
      == mark + (("---" + newline) + ((("tags:" + newline) + addition) + ("---" + newline + text)))
  {
    var head, tail := "tags:" + newline, "---" + newline + text;
    assert mark + "---" + newline + "tags:" + newline == mark + (("---" + newline) + head);
    assert mark + (("---" + newline) + head) + addition + "---" + newline + text
      == mark + (("---" + newline) + (head + addition)) + tail;
  }

  /**
    Adding tags to a note without front matter: the note has it now, a header with one item for each tag in order
    and nothing else, and behind the closing delimiter stands the whole note as it was.
  */
  lemma AddStartsFrontMatter(source: string, tags: seq<string>)
    requires AtMostOneBom(source) && FrontmatterSpan(StripBom(source).0).None?
    requires forall i :: 0 <= i < |tags| ==> NoBreaks(tags[i])
    ensures AddTags(source, tags).Some? && ParseDoc(AddTags(source, tags).value).Some?
    ensures var d := ParseDoc(AddTags(source, tags).value).value; var newline := Newline(StripBom(source).0);
      && d.bom == StripBom(source).1 && IsNewline(newline)
      && |d.lines| == 1 + |tags| && Block(d.lines) == Some((0, |d.lines|))
      && (forall k :: 0 < k < |d.lines| ==>
            && ItemText(d.lines[k]).Some?
            && (IsTidy(tags[k - 1]) ==> ItemText(d.lines[k]) == Some(tags[k - 1])))
      && d.rest == "---" + newline + StripBom(source).0
  {
    hide FrontmatterSpan, ItemText, IsHeader, IsOpening, Strip, Concat, TextOf, StripBom, NoBreaks, IsDoc, ParseDoc,
      Newline, AddTags, Block;
    var newline := Newline(StripBom(source).0);
    NewlineIsOne(StripBom(source).0);
    NewText(source, tags);
    NewIsDoc(source, tags, newline);
    ParseOfText(NewDoc(source, tags, newline));
    NewLines(tags, newline);
  }

  lemma NewLines(tags: seq<string>, newline: string)
    requires IsNewline(newline) && forall i :: 0 <= i < |tags| ==> NoBreaks(tags[i])
    ensures var lines := ["tags:" + newline] + TagLines(tags, newline);
      && Block(lines) == Some((0, |lines|))
      && forall k :: 0 < k < |lines| ==>
           && ItemText(lines[k]).Some? && (IsTidy(tags[k - 1]) ==> ItemText(lines[k]) == Some(tags[k - 1]))
  {
    hide ItemText, IsHeader, IsTidy, NoBreaks, Block;
    var lines := ["tags:" + newline] + TagLines(tags, newline);
    HeaderLine(newline);
    forall k | 0 < k < |lines|
      ensures ItemText(lines[k]).Some? && (IsTidy(tags[k - 1]) ==> ItemText(lines[k]) == Some(tags[k - 1]))
    {
      TagLineIsItem(tags[k - 1], newline);
    }
    BlockIs(lines, 0, |lines|);
  }

  /** Line breaks are `\r\n` exactly if the note has one. */
  lemma NewlineSays(text: string)
    ensures Newline(text) == "\r\n" <==> exists i: nat :: StandsAt(text, "\r\n", i)
    ensures Newline(text) != "\r\n" ==> Newline(text) == "\n"
  {
  }

  /** Tags that were added are read back behind those that were there. */
  lemma AddReadsBack(source: string, tags: seq<string>)
    requires AtMostOneBom(source) && AddTags(source, tags).Some? && forall i :: 0 <= i < |tags| ==> IsTidy(tags[i])
    ensures ReadTags(AddTags(source, tags).value) == ReadTags(source) + tags
  {
    hide FrontmatterSpan, Concat, IsOpening, ItemText, Block, Strip, AddLines, TextOf;
    if FrontmatterSpan(StripBom(source).0).Some? {
      TextOfParse(source);
      var d := ParseDoc(source).value;
      var newline := Newline(Unmarked(d));
      NewlineIsOne(Unmarked(d));
      var added := AddGives(d, tags);
      ParseOfText(added);
      AddedRead(d.lines, tags, newline);
    } else {
      NoTagsYet(source);
      AddStartsFrontMatter(source, tags);
      NewItemsRead(ParseDoc(AddTags(source, tags).value).value.lines, tags, |tags|);
      assert tags[..|tags|] == tags;
    }
  }

  lemma NoTagsYet(source: string)
    requires FrontmatterSpan(StripBom(source).0).None?
    ensures ReadTags(source) == []
  {
  }

  lemma {:induction false} NewItemsRead(lines: seq<string>, tags: seq<string>, n: nat)
    requires |lines| == 1 + |tags| && n <= |tags|
    requires forall k :: 0 < k < |lines| ==> ItemText(lines[k]) == Some(tags[k - 1])
    ensures Items(lines, 1, n + 1) == tags[..n]
  {
    hide ItemText;
    if n > 0 {
      NewItemsRead(lines, tags, n - 1);
      assert ItemText(lines[n]) == Some(tags[n - 1]);
      assert tags[..n] == tags[..n - 1] + [tags[n - 1]];
    }
  }

  /** Adding is refused exactly where the key stands in front matter without a header the edit can extend. */
  lemma AddRefuses(source: string, tags: seq<string>)
    requires AtMostOneBom(source)
    ensures AddTags(source, tags).None? <==>
      && ParseDoc(source).Some? && Block(ParseDoc(source).value.lines).None?
      && exists i :: 0 <= i < |ParseDoc(source).value.lines| && IsTagsKey(ParseDoc(source).value.lines[i])
  {
    hide FrontmatterSpan, Concat, IsOpening, IsTagsKey, Block, TextOf;
    if FrontmatterSpan(StripBom(source).0).Some? {
      TextOfParse(source);
      AddOnLines(ParseDoc(source).value, tags);
    } else {
      NewText(source, tags);
      NoDocYet(source);
    }
  }

  lemma NoDocYet(source: string)
    requires FrontmatterSpan(StripBom(source).0).None?
    ensures ParseDoc(source).None?
  {
  }

  // ----- removing -----

  predicate IsWanted(fold: Folding, tags: seq<string>, tag: string) {
    exists i :: 0 <= i < |tags| && Casefold(fold, Strip(tag)) == Casefold(fold, tags[i])
  }

  /** The tags that are not wanted, in order. */
  function Unwanted(fold: Folding, tags: seq<string>, all: seq<string>): seq<string> {
    if all == [] then []
    else
      Unwanted(fold, tags, all[..|all| - 1])
      + if IsWanted(fold, tags, all[|all| - 1]) then [] else [all[|all| - 1]]
  }

  lemma UnwantedMore(fold: Folding, tags: seq<string>, all: seq<string>, tag: string)
    ensures Unwanted(fold, tags, all + [tag]) ==
      Unwanted(fold, tags, all) + if IsWanted(fold, tags, tag) then [] else [tag]
  {
    assert (all + [tag])[..|all|] == all;
  }

  lemma ItemsMore(kept: seq<string>, line: string)
    requires ItemText(line).Some?
    ensures Items(kept + [line], 0, |kept| + 1) == Items(kept, 0, |kept|) + [ItemText(line).value]
  {
    hide Items, ItemText;
    var more := kept + [line];
    assert more[|kept|] == line;
    ItemsStep(more, 0, |kept| + 1);
    FrontItems(kept, more);
  }

  lemma FrontItems(kept: seq<string>, more: seq<string>)
    requires kept <= more
    ensures Items(more, 0, |kept|) == Items(kept, 0, |kept|)
  {
    hide Items;
    ItemsAgree(kept, more, 0, |kept|, 0);
  }

  lemma WantedDrops(fold: Folding, tags: seq<string>, line: string)
    requires ItemText(line).Some?
    ensures IsWanted(fold, tags, ItemText(line).value) <==> Drops(fold, Wanted(fold, tags), line)
  {
    hide ItemText, Casefold, Strip;
  }

  lemma KeptMore(fold: Folding, wanted: set<string>, lines: seq<string>, a: nat, b: nat)
    requires a < b <= |lines|
    ensures KeptItems(fold, wanted, lines, a, b) ==
      KeptItems(fold, wanted, lines, a, b - 1) + if Keeps(fold, wanted, lines[b - 1]) then [lines[b - 1]] else []
  {
  }

  /** The kept items read as the tags that are not wanted. */
  lemma {:induction false} KeptRead(fold: Folding, tags: seq<string>, lines: seq<string>, a: nat, b: nat)
    requires a <= b <= |lines|
    ensures var kept := KeptItems(fold, Wanted(fold, tags), lines, a, b);
      Items(kept, 0, |kept|) == Unwanted(fold, tags, Items(lines, a, b))
    decreases b
  {
    hide ItemText, IsWanted, Drops, Wanted;
    if a < b {
      KeptRead(fold, tags, lines, a, b - 1);
      KeptReadOne(
        fold, tags, KeptItems(fold, Wanted(fold, tags), lines, a, b - 1), Items(lines, a, b - 1), lines[b - 1]);
      KeptMore(fold, Wanted(fold, tags), lines, a, b);
    }
  }

  lemma KeptReadOne(fold: Folding, tags: seq<string>, kept: seq<string>, items: seq<string>, line: string)
    requires Items(kept, 0, |kept|) == Unwanted(fold, tags, items)
    ensures var more := kept + if Keeps(fold, Wanted(fold, tags), line) then [line] else [];
      Items(more, 0, |more|) ==
        Unwanted(fold, tags, items + if ItemText(line).Some? then [ItemText(line).value] else [])
  {
    hide ItemText, IsWanted, Drops, Wanted, Items, Unwanted;
    assert kept + [] == kept && items + [] == items;
    if ItemText(line).Some? {
      WantedDrops(fold, tags, line);
      UnwantedMore(fold, tags, items, ItemText(line).value);
      ItemsMore(kept, line);
      assert Unwanted(fold, tags, items) + [] == Unwanted(fold, tags, items);
    }
  }

  lemma {:induction false} NoItems(lines: seq<string>, a: nat, b: nat)
    requires a <= b <= |lines| && forall k :: a <= k < b ==> !IsItem(lines[k])
    ensures Items(lines, a, b) == []
    decreases b
  {
    if a < b {
      NoItems(lines, a, b - 1);
    }
  }

  lemma {:induction false} NoneBehindLast(lines: seq<string>, h: nat, j: nat)
    requires h < j <= |lines|
    ensures forall k :: LastItem(lines, h, j) <= k < j ==> !IsItem(lines[k])
    ensures LastItem(lines, h, j) == h + 1 || IsItem(lines[LastItem(lines, h, j) - 1])
    decreases j
  {
    if j > h + 1 && !IsItem(lines[j - 1]) {
      NoneBehindLast(lines, h, j - 1);
    }
  }

  lemma RemovedRead(fold: Folding, tags: seq<string>, lines: seq<string>)
    requires RemoveLines(fold, Wanted(fold, tags), lines).Some? && LeavesItem(fold, Wanted(fold, tags), lines)
    ensures TagsOf(RemoveLines(fold, Wanted(fold, tags), lines).value) == Unwanted(fold, tags, TagsOf(lines))
  {
    hide ItemText, IsHeader, Casefold, Strip, Items, Unwanted, KeptItems, LastItem, Wanted, Drops;
    var (h, j) := Block(lines).value;
    var kept, l := KeptItems(fold, Wanted(fold, tags), lines, h + 1, j), LastItem(lines, h, j);
    var out := lines[..h] + ([lines[h]] + kept) + lines[l..];
    var from := h + 1 + |kept|;
    KeptAreItems(fold, Wanted(fold, tags), lines, h + 1, j);
    RemovedBlock(lines, h, j, kept, l);
    KeptRead(fold, tags, lines, h + 1, j);
    NoneBehindLast(lines, h, j);
    ItemsJoin(out, h + 1, from, from + (j - l));
    ItemsAgree(kept, out, 0, |kept|, h + 1);
    TailHasNone(lines, out, from, l, j);
  }

  lemma TailHasNone(lines: seq<string>, out: seq<string>, from: nat, l: nat, j: nat)
    requires l <= j <= |lines| && from <= |out| && out[from..] == lines[l..]
    requires forall k :: l <= k < j ==> !IsItem(lines[k])
    ensures from + (j - l) <= |out| && Items(out, from, from + (j - l)) == []
  {
    hide IsItem, Items;
    assert |out| - from == |lines| - l;
    forall k | from <= k < from + (j - l)
      ensures !IsItem(out[k])
    {
      assert out[k] == out[from..][k - from] == lines[l..][k - from] == lines[l + (k - from)];
    }
    NoItems(out, from, from + (j - l));
  }

  lemma KeptAreItems(fold: Folding, wanted: set<string>, lines: seq<string>, a: nat, b: nat)
    requires a <= b <= |lines|
    ensures AllItems(KeptItems(fold, wanted, lines, a, b))
  {
    var kept := KeptItems(fold, wanted, lines, a, b);
    forall i | 0 <= i < |kept|
      ensures ItemText(kept[i]).Some?
    {
      var k := PassingMembers(Keeping(fold, wanted), lines, a, b, i);
    }
  }

  /** Of the tags that were there exactly those not wanted are read afterwards, if any stays. */
  lemma RemoveReadsRest(fold: Folding, source: string, tags: seq<string>)
    requires AtMostOneBom(source) && RemoveResult(fold, source, tags).Some?
    requires Unwanted(fold, tags, ReadTags(source)) != []
    ensures ReadTags(RemoveResult(fold, source, tags).value) == Unwanted(fold, tags, ReadTags(source))
  {
    hide FrontmatterSpan, Concat, IsOpening, ItemText, Strip, TextOf, Casefold;
    TextOfParse(source);
    var d := ParseDoc(source).value;
    var wanted := Wanted(fold, tags);
    var (h, j) := Block(d.lines).value;
    KeptRead(fold, tags, d.lines, h + 1, j);
    NoItems(KeptItems(fold, wanted, d.lines, h + 1, j), 0, 0);
    assert LeavesItem(fold, wanted, d.lines);
    RemovedKeeps(fold, wanted, d);
    ParseOfText(WithLines(d, RemoveLines(fold, wanted, d.lines).value));
    RemovedRead(fold, tags, d.lines);
  }

  /** Removing is refused exactly where no tag that is read is wanted. */
  lemma RemoveRefuses(fold: Folding, source: string, tags: seq<string>)
    ensures RemoveResult(fold, source, tags).None? <==>
      forall i :: 0 <= i < |ReadTags(source)| ==> !IsWanted(fold, tags, ReadTags(source)[i])
  {
    hide ItemText, Items, IsWanted, Drops, Wanted, Block, KeptItems, LastItem, TextOf, ParseDoc;
    if ParseDoc(source).Some? && Block(ParseDoc(source).value.lines).Some? {
      var (h, j) := Block(ParseDoc(source).value.lines).value;
      WantedRead(fold, tags, ParseDoc(source).value.lines, h + 1, j);
      assert ReadTags(source) == Items(ParseDoc(source).value.lines, h + 1, j);
      assert RemoveResult(fold, source, tags).None? <==>
             !exists k :: h < k < j && Drops(fold, Wanted(fold, tags), ParseDoc(source).value.lines[k]);
    } else {
      assert ReadTags(source) == [] && RemoveResult(fold, source, tags).None?;
    }
  }

  ghost predicate AnyWanted(fold: Folding, tags: seq<string>, items: seq<string>) {
    exists i :: 0 <= i < |items| && IsWanted(fold, tags, items[i])
  }

  lemma AnyWantedMore(fold: Folding, tags: seq<string>, items: seq<string>, tag: string)
    ensures AnyWanted(fold, tags, items + [tag]) <==> AnyWanted(fold, tags, items) || IsWanted(fold, tags, tag)
  {
    hide IsWanted;
    var more := items + [tag];
    assert more[|items|] == tag && forall i :: 0 <= i < |items| ==> more[i] == items[i];
  }

  lemma {:induction false} WantedRead(fold: Folding, tags: seq<string>, lines: seq<string>, a: nat, b: nat)
    requires a <= b <= |lines|
    ensures (exists k :: a <= k < b && Drops(fold, Wanted(fold, tags), lines[k])) <==>
      AnyWanted(fold, tags, Items(lines, a, b))
    decreases b
  {
    hide Items, IsWanted, Wanted, Casefold, Strip, AnyWanted, ItemText;
    if a < b {
      WantedRead(fold, tags, lines, a, b - 1);
      ItemsStep(lines, a, b);
      if ItemText(lines[b - 1]).Some? {
        AnyWantedMore(fold, tags, Items(lines, a, b - 1), ItemText(lines[b - 1]).value);
        WantedDrops(fold, tags, lines[b - 1]);
      }
      assert Items(lines, a, b - 1) + [] == Items(lines, a, b - 1);
    } else {
      assert !AnyWanted(fold, tags, Items(lines, a, b)) by {
        NothingWanted(fold, tags, lines, a);
      }
    }
  }

  lemma NothingWanted(fold: Folding, tags: seq<string>, lines: seq<string>, a: nat)
    requires a <= |lines|
    ensures !AnyWanted(fold, tags, Items(lines, a, a))
  {
  }

  lemma {:induction false} AllRead(kept: seq<string>, n: nat)
    requires AllItems(kept) && n <= |kept|
    ensures |Items(kept, 0, n)| == n
  {
    if n > 0 {
      AllRead(kept, n - 1);
    }
  }

  lemma BehindItem(fold: Folding, wanted: set<string>, lines: seq<string>, h: nat, j: nat, k: nat)
    requires h < k < j <= |lines| && Drops(fold, wanted, lines[k])
    ensures IsItem(lines[LastItem(lines, h, j) - 1])
  {
    NoneBehindLast(lines, h, j);
    assert IsItem(lines[k]);
  }

  /** When every item is wanted, the lines from the header to the last item go, and no other. */
  lemma RemoveCutsBlock(fold: Folding, source: string, tags: seq<string>)
    requires AtMostOneBom(source) && RemoveResult(fold, source, tags).Some?
    requires Unwanted(fold, tags, ReadTags(source)) == []
    ensures ParseDoc(source).Some? && Block(ParseDoc(source).value.lines).Some?
    ensures var d := ParseDoc(source).value; var (h, j) := Block(d.lines).value; var l := LastItem(d.lines, h, j);
      && IsItem(d.lines[l - 1]) && (forall k :: l <= k < j ==> !IsItem(d.lines[k]))
      && RemoveResult(fold, source, tags) == Some(TextOf(d.(lines := d.lines[..h] + d.lines[l..])))
  {
    hide ParseDoc, ItemText, Wanted, Drops, Items, Unwanted, KeptItems, LastItem, TextOf, Block;
    var d := ParseDoc(source).value;
    var wanted := Wanted(fold, tags);
    var (h, j) := Block(d.lines).value;
    KeptRead(fold, tags, d.lines, h + 1, j);
    KeptAreItems(fold, wanted, d.lines, h + 1, j);
    var kept := KeptItems(fold, wanted, d.lines, h + 1, j);
    AllRead(kept, |kept|);
    NoneBehindLast(d.lines, h, j);
    var k :| h < k < j && Drops(fold, wanted, d.lines[k]);
    BehindItem(fold, wanted, d.lines, h, j, k);
    assert d.lines[..h] + [] == d.lines[..h];
  }
}
