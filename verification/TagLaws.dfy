/** What tag edits keep: they stay inside the tag block, and removing undoes adding. */
module TagLaws {
  import opened Base
  import opened Strings
  import opened Names
  import opened FrontMatter
  import opened TagEdits

  // ----- the lines the edits write -----

  predicate IsNewline(newline: string) {
    newline == "\n" || newline == "\r\n"
  }

  /** A normalised tag: nothing to strip, no line break. */
  predicate IsTidy(tag: string) {
    NoBreaks(tag) && Strip(tag) == tag
  }

  lemma {:induction false} TrimLeftShortens(s: string)
    ensures |TrimLeft(s)| <= |s|
    ensures TrimLeft(s) == s ==> s == "" || !IsSpace(s[0])
  {
    if s != "" && IsSpace(s[0]) {
      TrimLeftShortens(s[1..]);
    }
  }

  lemma {:induction false} TrimRightShortens(s: string)
    ensures |TrimRight(s)| <= |s|
    ensures TrimRight(s) == s ==> s == "" || !IsSpace(s[|s| - 1])
  {
    if s != "" && IsSpace(s[|s| - 1]) {
      TrimRightShortens(s[..|s| - 1]);
    }
  }

  lemma StrippedEnds(s: string)
    requires Strip(s) == s
    ensures s == "" || (!IsSpace(s[0]) && !IsSpace(s[|s| - 1]))
  {
    TrimLeftShortens(s);
    TrimRightShortens(TrimLeft(s));
    assert |TrimLeft(s)| == |s|;
    if s != "" && IsSpace(s[0]) {
      TrimLeftShortens(s[1..]);
    }
  }

  lemma ContentOf(line: string, newline: string)
    requires IsNewline(newline) && line != "" && !IsBreak(line[|line| - 1])
    ensures Content(line + newline) == line
  {
    if newline == "\n" {
      assert (line + "\n")[..|line|] == line;
    } else {
      assert (line + "\r\n")[..|line| + 1] == line + "\r";
      assert (line + "\r")[..|line|] == line;
      assert Content(line) == line && Content(line + "\r") == line;
    }
  }

  lemma IsLineOf(line: string, newline: string)
    requires IsNewline(newline) && NoBreaks(line)
    ensures IsLine(line + newline)
  {
  }

  lemma {:induction false} RunWithin(s: string, at: nat, n: nat)
    requires at + n <= |s| && forall i :: at <= i < at + n ==> IsBlankChar(s[i])
    requires at + n < |s| ==> !IsBlankChar(s[at + n])
    ensures RunLength(s, at, IsBlankChar) == n
    decreases n
  {
    if n > 0 {
      RunWithin(s, at + 1, n - 1);
    }
  }

  /** A written tag line is an item; a tidy tag is read back from it. */
  lemma TagLineIsItem(tag: string, newline: string)
    requires IsNewline(newline) && NoBreaks(tag)
    ensures var raw := "  - " + tag + newline;
      && IsLine(raw) && !StartsWith(raw, "---") && ItemText(raw).Some?
      && (IsTidy(tag) ==> ItemText(raw) == Some(tag))
  {
    var line := "  - " + tag;
    assert forall i :: 4 <= i < |line| ==> line[i] == tag[i - 4];
    IsLineOf(line, newline);
    ContentOf(line, newline);
    assert (line + newline)[..3][0] == ' ';
    RunWithin(line, 0, 2);
    var at := 3 + RunLength(line, 3, IsBlankChar);
    assert NoBreaks(line[at..]);
    if IsTidy(tag) {
      StrippedEnds(tag);
      RunWithin(line, 3, 1);
      assert line[4..] == tag;
    }
  }

  lemma HeaderLine(newline: string)
    requires IsNewline(newline)
    ensures var raw := "tags:" + newline; IsLine(raw) && IsHeader(raw) && ItemText(raw).None?
  {
    IsLineOf("tags:", newline);
    ContentOf("tags:", newline);
    RunWithin("tags:", 0, 0);
  }

  /** A header is one way to write the key, and never an item. */
  lemma HeaderIsKey(raw: string)
    requires IsHeader(raw)
    ensures IsTagsKey(raw) && ItemText(raw).None?
  {
    var line := Content(raw);
    ContentPrefix(raw);
    assert raw[..5] == line[..5] == "tags:";
    assert raw[..4] == raw[..5][..4] == "tags" && raw[4] == raw[..5][4];
    RunWithin(raw, 4, 0);
    assert line[0] == line[..5][0] == 't';
    RunWithin(line, 0, 0);
  }

  lemma {:induction false} ContentPrefix(raw: string)
    ensures |Content(raw)| <= |raw| && Content(raw) == raw[..|Content(raw)|]
  {
    if raw != "" && IsBreak(raw[|raw| - 1]) {
      ContentPrefix(raw[..|raw| - 1]);
    }
  }

  lemma NewlineIsOne(text: string)
    ensures IsNewline(Newline(text))
  {
  }

  // ----- adding -----

  ghost predicate AllItems(lines: seq<string>) {
    forall k :: 0 <= k < |lines| ==> ItemText(lines[k]).Some?
  }

  ghost predicate Fit(lines: seq<string>) {
    AllLines(lines) && forall i :: 0 <= i < |lines| ==> !StartsWith(lines[i], "---")
  }

  lemma TagLinesFit(tags: seq<string>, newline: string)
    requires IsNewline(newline) && forall i :: 0 <= i < |tags| ==> NoBreaks(tags[i])
    ensures AllItems(TagLines(tags, newline)) && Fit(TagLines(tags, newline))
  {
    forall i | 0 <= i < |tags|
      ensures var raw := TagLines(tags, newline)[i]; ItemText(raw).Some? && IsLine(raw) && !StartsWith(raw, "---")
    {
      TagLineIsItem(tags[i], newline);
    }
  }

  /** Added lines join the block, or are one. */
  lemma AddedBlock(lines: seq<string>, more: seq<string>, header: string)
    requires AllItems(more) && IsHeader(header) && AddLines(lines, more, header).Some?
    ensures var added := AddLines(lines, more, header).value; var b := Block(lines);
      Block(added) == Some(if b.Some? then (b.value.0, b.value.1 + |more|) else (|lines|, |lines| + 1 + |more|))
  {
    hide ItemText, AnyTagsKey;
    var added := AddLines(lines, more, header).value;
    match Block(lines)
    case Some((h, j)) =>
      assert forall k :: j <= k < j + |more| ==> added[k] == more[k - j];
      BlockIs(added, h, j + |more|);
    case None =>
      BlockIs(added, |lines|, |added|);
  }

  lemma AddedStrips(lines: seq<string>, more: seq<string>, header: string)
    requires AllItems(more) && IsHeader(header) && AddLines(lines, more, header).Some?
    ensures StripLines(AddLines(lines, more, header).value) == StripLines(lines)
  {
    hide Block, ItemText, IsHeader, AnyTagsKey;
    AddedBlock(lines, more, header);
  }

  lemma AddedIsDoc(d: Doc, more: seq<string>, header: string)
    requires IsDoc(d) && Fit(more) && IsLine(header) && !StartsWith(header, "---")
      && AddLines(d.lines, more, header).Some?
    ensures IsDoc(WithLines(d, AddLines(d.lines, more, header).value))
  {
  }

  /** The note that adding tags to a note with front matter gives. */
  lemma AddGives(d: Doc, tags: seq<string>) returns (added: Doc)
    requires IsDoc(d) && AddTags(TextOf(d), tags).Some? && forall i :: 0 <= i < |tags| ==> NoBreaks(tags[i])
    ensures IsDoc(added) && AddTags(TextOf(d), tags) == Some(TextOf(added)) && added == WithLines(d, added.lines)
    ensures var newline := Newline(Unmarked(d));
      && IsNewline(newline) && IsHeader("tags:" + newline) && AllItems(TagLines(tags, newline))
      && AddLines(d.lines, TagLines(tags, newline), "tags:" + newline) == Some(added.lines)
  {
    var newline := Newline(Unmarked(d));
    NewlineIsOne(Unmarked(d));
    AddOnLines(d, tags);
    TagLinesFit(tags, newline);
    HeaderLine(newline);
    added := WithLines(d, AddLines(d.lines, TagLines(tags, newline), "tags:" + newline).value);
    assert ("tags:" + newline)[..3][0] == 't';
    AddedIsDoc(d, TagLines(tags, newline), "tags:" + newline);
  }

  /** Tags added to a note that has front matter change nothing outside the tag block. */
  lemma AddStaysInBlock(source: string, tags: seq<string>)
    requires AtMostOneBom(source) && FrontmatterSpan(StripBom(source).0).Some?
    requires AddTags(source, tags).Some? && forall i :: 0 <= i < |tags| ==> NoBreaks(tags[i])
    ensures TagsOnlyChange(source, AddTags(source, tags).value)
  {
    TextOfParse(source);
    var d := ParseDoc(source).value;
    var added := AddGives(d, tags);
    var newline := Newline(Unmarked(d));
    AddedStrips(d.lines, TagLines(tags, newline), "tags:" + newline);
    StripOnLines(d);
    StripOnLines(added);
  }

  // ----- removing -----

  function Wanted(fold: Folding, tags: seq<string>): set<string> {
    set i | 0 <= i < |tags| :: Casefold(fold, tags[i])
  }

  predicate IsItem(raw: string) {
    ItemText(raw).Some?
  }

  predicate Drops(fold: Folding, wanted: set<string>, raw: string) {
    ItemText(raw).Some? && Casefold(fold, Strip(ItemText(raw).value)) in wanted
  }

  /** An item that stays. */
  predicate Keeps(fold: Folding, wanted: set<string>, raw: string) {
    IsItem(raw) && !Drops(fold, wanted, raw)
  }

  type Test = string -> bool

  function ItemTest(): Test {
    raw => IsItem(raw)
  }

  function Dropping(fold: Folding, wanted: set<string>): Test {
    raw => Drops(fold, wanted, raw)
  }

  function Keeping(fold: Folding, wanted: set<string>): Test {
    raw => Keeps(fold, wanted, raw)
  }

  /** The lines from a to b that pass. */
  function Passing(test: Test, lines: seq<string>, a: nat, b: nat): seq<string>
    requires a <= b <= |lines|
    decreases b
  {
    if a == b then []
    else Passing(test, lines, a, b - 1) + if test(lines[b - 1]) then [lines[b - 1]] else []
  }

  /** The items from line a to line b that stay. */
  function KeptItems(fold: Folding, wanted: set<string>, lines: seq<string>, a: nat, b: nat): seq<string>
    requires a <= b <= |lines|
  {
    Passing(Keeping(fold, wanted), lines, a, b)
  }

  /** Behind the last line between h and j that passes, or behind h. */
  function LastPassing(test: Test, lines: seq<string>, h: nat, j: nat): (l: nat)
    requires h < j <= |lines|
    ensures h < l <= j
  {
    if j == h + 1 || test(lines[j - 1]) then j else LastPassing(test, lines, h, j - 1)
  }

  /** Behind the last item of the block. */
  function LastItem(lines: seq<string>, h: nat, j: nat): (l: nat)
    requires h < j <= |lines|
    ensures h < l <= j
  {
    LastPassing(ItemTest(), lines, h, j)
  }

  /** The front matter lines without the wanted items; blank lines between items go, an empty block goes. */
  function RemoveLines(fold: Folding, wanted: set<string>, lines: seq<string>): Option<seq<string>> {
    match Block(lines)
    case None => None
    case Some((h, j)) =>
      if !exists k :: h < k < j && Drops(fold, wanted, lines[k]) then None
      else
        var kept, l := KeptItems(fold, wanted, lines, h + 1, j), LastItem(lines, h, j);
        Some(lines[..h] + (if kept == [] then [] else [lines[h]] + kept) + lines[l..])
  }

  /** What removing tags from a note gives. */
  function RemoveResult(fold: Folding, source: string, tags: seq<string>): Option<string> {
    match ParseDoc(source)
    case None => None
    case Some(d) =>
      match RemoveLines(fold, Wanted(fold, tags), d.lines)
      case None => None
      case Some(lines) => Some(TextOf(WithLines(d, lines)))
  }

  /** Some item of the block is not wanted. */
  ghost predicate LeavesItem(fold: Folding, wanted: set<string>, lines: seq<string>) {
    Block(lines).Some? && KeptItems(fold, wanted, lines, Block(lines).value.0 + 1, Block(lines).value.1) != []
  }

  lemma {:induction false} PassingMembers(test: Test, lines: seq<string>, a: nat, b: nat, i: nat) returns (k: nat)
    requires a <= b <= |lines| && i < |Passing(test, lines, a, b)|
    ensures a <= k < b && Passing(test, lines, a, b)[i] == lines[k] && test(lines[k])
    decreases b
  {
    if i < |Passing(test, lines, a, b - 1)| {
      k := PassingMembers(test, lines, a, b - 1, i);
    } else {
      k := b - 1;
    }
  }

  lemma KeptFit(fold: Folding, wanted: set<string>, lines: seq<string>, a: nat, b: nat)
    requires 0 < a <= b <= |lines| && AllLines(lines) && NoDelimiter(lines)
    ensures AllItems(KeptItems(fold, wanted, lines, a, b)) && Fit(KeptItems(fold, wanted, lines, a, b))
  {
    var kept := KeptItems(fold, wanted, lines, a, b);
    forall i | 0 <= i < |kept|
      ensures IsItem(kept[i]) && IsLine(kept[i]) && !StartsWith(kept[i], "---")
    {
      var k := PassingMembers(Keeping(fold, wanted), lines, a, b, i);
    }
  }

  lemma RemovedBlock(lines: seq<string>, h: nat, j: nat, kept: seq<string>, l: nat)
    requires Block(lines) == Some((h, j)) && AllItems(kept) && h < l <= j
    ensures Block(lines[..h] + ([lines[h]] + kept) + lines[l..]) == Some((h, h + 1 + |kept| + (j - l)))
  {
    var out := lines[..h] + ([lines[h]] + kept) + lines[l..];
    var from := h + 1 + |kept|;
    assert forall k :: h < k < from ==> out[k] == kept[k - h - 1];
    assert forall k :: from <= k < |out| ==> out[k] == lines[k - from + l];
    BlockIs(out, h, from + (j - l));
  }

  lemma RemoveGives(
    fold: Folding, wanted: set<string>, lines: seq<string>, h: nat, j: nat, k: nat, kept: seq<string>, l: nat)
    requires Block(lines) == Some((h, j)) && h < k < j && Drops(fold, wanted, lines[k])
    requires KeptItems(fold, wanted, lines, h + 1, j) == kept && LastItem(lines, h, j) == l
    ensures RemoveLines(fold, wanted, lines) ==
      Some(lines[..h] + (if kept == [] then [] else [lines[h]] + kept) + lines[l..])
  {
  }

  lemma StripIs(lines: seq<string>, h: nat, j: nat)
    requires Block(lines) == Some((h, j))
    ensures StripLines(lines) == lines[..h] + lines[j..]
  {
  }

  lemma Around(lines: seq<string>, h: nat, j: nat, kept: seq<string>, l: nat)
    requires h < l <= j <= |lines|
    ensures var out := lines[..h] + ([lines[h]] + kept) + lines[l..];
      out[..h] == lines[..h] && out[h + 1 + |kept| + (j - l)..] == lines[j..]
  {
  }

  lemma RemovedStrips(lines: seq<string>, h: nat, j: nat, kept: seq<string>, l: nat)
    requires Block(lines) == Some((h, j)) && AllItems(kept) && h < l <= j
    ensures StripLines(lines[..h] + ([lines[h]] + kept) + lines[l..]) == StripLines(lines)
  {
    RemovedBlock(lines, h, j, kept, l);
    Around(lines, h, j, kept, l);
    StripIs(lines, h, j);
    StripIs(lines[..h] + ([lines[h]] + kept) + lines[l..], h, h + 1 + |kept| + (j - l));
  }

  lemma RemovedKeeps(fold: Folding, wanted: set<string>, d: Doc)
    requires IsDoc(d) && RemoveLines(fold, wanted, d.lines).Some? && LeavesItem(fold, wanted, d.lines)
    ensures var out := RemoveLines(fold, wanted, d.lines).value;
      IsDoc(WithLines(d, out)) && StripLines(out) == StripLines(d.lines)
  {
    var lines := d.lines;
    var (h, j) := Block(lines).value;
    var kept, l := KeptItems(fold, wanted, lines, h + 1, j), LastItem(lines, h, j);
    KeptFit(fold, wanted, lines, h + 1, j);
    RemovedStrips(lines, h, j, kept, l);
    RemovedFits(lines, h, kept, l);
    assert RemoveLines(fold, wanted, lines).value == lines[..h] + ([lines[h]] + kept) + lines[l..];
  }

  lemma RemovedFits(lines: seq<string>, h: nat, kept: seq<string>, l: nat)
    requires AllLines(lines) && NoDelimiter(lines) && Fit(kept) && h < l <= |lines|
    ensures var out := lines[..h] + ([lines[h]] + kept) + lines[l..]; AllLines(out) && NoDelimiter(out)
  {
  }

  /** Tags removed while an item stays change nothing outside the tag block. */
  lemma RemoveStaysInBlock(fold: Folding, source: string, tags: seq<string>)
    requires AtMostOneBom(source) && RemoveResult(fold, source, tags).Some?
    requires LeavesItem(fold, Wanted(fold, tags), ParseDoc(source).value.lines)
    ensures TagsOnlyChange(source, RemoveResult(fold, source, tags).value)
  {
    TextOfParse(source);
    var d := ParseDoc(source).value;
    RemovedKeeps(fold, Wanted(fold, tags), d);
    var out := RemoveLines(fold, Wanted(fold, tags), d.lines).value;
    StripOnLines(d);
    StripOnLines(WithLines(d, out));
  }

  // ----- removing what was added -----

  /** The block has items only, at least one, and none of the tags. */
  ghost predicate Solid(fold: Folding, wanted: set<string>, lines: seq<string>) {
    Block(lines).Some? &&
    var (h, j) := Block(lines).value;
    h + 1 < j && forall k :: h < k < j ==> IsItem(lines[k]) && !Drops(fold, wanted, lines[k])
  }

  lemma {:induction false} AllPassing(test: Test, lines: seq<string>, a: nat, b: nat)
    requires a <= b <= |lines| && forall k :: a <= k < b ==> test(lines[k])
    ensures Passing(test, lines, a, b) == lines[a..b]
    decreases b
  {
    if a < b {
      AllPassing(test, lines, a, b - 1);
      assert lines[a..b] == lines[a..b - 1] + [lines[b - 1]];
    }
  }

  lemma {:induction false} NonePassing(test: Test, lines: seq<string>, a: nat, m: nat, b: nat)
    requires a <= m <= b <= |lines| && forall k :: m <= k < b ==> !test(lines[k])
    ensures Passing(test, lines, a, b) == Passing(test, lines, a, m)
    decreases b
  {
    if m < b {
      NonePassing(test, lines, a, m, b - 1);
      assert Passing(test, lines, a, m) + [] == Passing(test, lines, a, m);
    }
  }

  ghost predicate AllDropped(fold: Folding, wanted: set<string>, lines: seq<string>) {
    forall k :: 0 <= k < |lines| ==> Drops(fold, wanted, lines[k])
  }

  lemma AddedAreDropped(fold: Folding, tags: seq<string>, newline: string)
    requires IsNewline(newline) && forall i :: 0 <= i < |tags| ==> IsTidy(tags[i])
    ensures AllDropped(fold, Wanted(fold, tags), TagLines(tags, newline))
  {
    forall i | 0 <= i < |tags|
      ensures Drops(fold, Wanted(fold, tags), TagLines(tags, newline)[i])
    {
      TagLineIsItem(tags[i], newline);
    }
  }

  /** A block that was added goes altogether. */
  lemma NewBlockGoes(fold: Folding, wanted: set<string>, lines: seq<string>, header: string, more: seq<string>)
    requires more != [] && AllDropped(fold, wanted, more) && AllItems(more) && IsHeader(header)
    requires Block(lines).None? && !AnyTagsKey(lines)
    ensures RemoveLines(fold, wanted, AddLines(lines, more, header).value) == Some(lines)
  {
    hide Block, ItemText, IsHeader, RemoveLines, Casefold, Strip;
    var added := lines + ([header] + more);
    var n := |lines|;
    AddedBlock(lines, more, header);
    assert forall k :: n < k < |added| ==> added[k] == more[k - n - 1];
    NonePassing(Keeping(fold, wanted), added, n + 1, n + 1, |added|);
    RemoveGives(fold, wanted, added, n, |added|, n + 1, [], |added|);
    assert added[..n] + [] + added[|added|..] == lines;
  }

  lemma AddedBehind(lines: seq<string>, more: seq<string>, h: nat, j: nat)
    requires h < j <= |lines|
    ensures var added := lines[..j] + more + lines[j..];
      && (forall k :: j <= k < j + |more| ==> added[k] == more[k - j])
      && (forall k :: h < k < j ==> added[k] == lines[k])
      && added[..h] + ([added[h]] + added[h + 1..j]) + added[j + |more|..] == lines
  {
  }

  lemma KeptBehind(fold: Folding, wanted: set<string>, lines: seq<string>, more: seq<string>, h: nat, j: nat)
    requires h < j <= |lines| && AllDropped(fold, wanted, more)
    requires forall k :: h < k < j ==> IsItem(lines[k]) && !Drops(fold, wanted, lines[k])
    ensures var added := lines[..j] + more + lines[j..];
      KeptItems(fold, wanted, added, h + 1, j + |more|) == added[h + 1..j]
  {
    var added := lines[..j] + more + lines[j..];
    AddedBehind(lines, more, h, j);
    NonePassing(Keeping(fold, wanted), added, h + 1, j, j + |more|);
    AllPassing(Keeping(fold, wanted), added, h + 1, j);
  }

  /** Items that were added behind others go, and the others stay. */
  lemma NewItemsGo(fold: Folding, wanted: set<string>, lines: seq<string>, header: string, more: seq<string>)
    requires more != [] && AllDropped(fold, wanted, more) && AllItems(more) && IsHeader(header)
    requires Solid(fold, wanted, lines)
    ensures RemoveLines(fold, wanted, AddLines(lines, more, header).value) == Some(lines)
  {
    var (h, j) := Block(lines).value;
    var added := lines[..j] + more + lines[j..];
    var end := j + |more|;
    AddedBlock(lines, more, header);
    AddedBehind(lines, more, h, j);
    KeptBehind(fold, wanted, lines, more, h, j);
    RemoveGives(fold, wanted, added, h, end, j, added[h + 1..j], end);
  }

  lemma AddedGoes(fold: Folding, wanted: set<string>, lines: seq<string>, header: string, more: seq<string>)
    requires more != [] && AllDropped(fold, wanted, more) && AllItems(more) && IsHeader(header)
    requires !AnyTagsKey(lines) || Solid(fold, wanted, lines)
    ensures AddLines(lines, more, header).Some?
    ensures RemoveLines(fold, wanted, AddLines(lines, more, header).value) == Some(lines)
  {
    if Block(lines).None? {
      NewBlockGoes(fold, wanted, lines, header, more);
    } else {
      if !AnyTagsKey(lines) {
        HeaderIsKey(lines[Block(lines).value.0]);
      }
      NewItemsGo(fold, wanted, lines, header, more);
    }
  }

  /** Without a tags key, or next to other items without blank lines, removing takes back exactly what was added. */
  lemma RemoveUndoesAdd(fold: Folding, source: string, tags: seq<string>)
    requires AtMostOneBom(source) && ParseDoc(source).Some?
    requires tags != [] && forall i :: 0 <= i < |tags| ==> IsTidy(tags[i])
    requires var lines := ParseDoc(source).value.lines; !AnyTagsKey(lines) || Solid(fold, Wanted(fold, tags), lines)
    ensures AddTags(source, tags).Some? && RemoveResult(fold, AddTags(source, tags).value, tags) == Some(source)
  {
    hide AddLines, RemoveLines, Concat, IsOpening;
    TextOfParse(source);
    var d := ParseDoc(source).value;
    var newline := Newline(Unmarked(d));
    NewlineIsOne(Unmarked(d));
    HeaderLine(newline);
    AddedAreDropped(fold, tags, newline);
    TagLinesFit(tags, newline);
    AddedGoes(fold, Wanted(fold, tags), d.lines, "tags:" + newline, TagLines(tags, newline));
    AddOnLines(d, tags);
    var added := AddGives(d, tags);
    ParseOfText(added);
  }
}
