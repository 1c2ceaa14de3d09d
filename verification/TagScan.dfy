/** The loops behind the tag edits: scanning the block by positions, and rebuilding it without some items. */
module TagScan {
  import opened Base
  import opened Strings
  import opened Names
  import opened FrontMatter
  import opened TagEdits
  import opened TagLaws

  /** A header or item line with its positions in the text. */
  datatype TagLine = TagLine(raw: string, start: nat, end: nat)

  function LineAt(lines: seq<string>, k: nat, base: nat): TagLine
    requires k < |lines|
  {
    TagLine(lines[k], base + Offset(lines, k), base + Offset(lines, k + 1))
  }

  /** Line h, and the passing lines before line k. */
  function ListPassing(test: Test, lines: seq<string>, h: nat, k: nat, base: nat): (listed: seq<TagLine>)
    requires h < k <= |lines|
    ensures listed != []
  {
    if k == h + 1 then [LineAt(lines, h, base)]
    else ListPassing(test, lines, h, k - 1, base) + if test(lines[k - 1]) then [LineAt(lines, k - 1, base)] else []
  }

  /** The header and the items before line k. */
  function Listed(lines: seq<string>, h: nat, k: nat, base: nat): (listed: seq<TagLine>)
    requires h < k <= |lines|
    ensures listed != []
  {
    ListPassing(ItemTest(), lines, h, k, base)
  }

  lemma LineIs(lines: seq<string>, k: nat, base: nat)
    requires k < |lines|
    ensures Offset(lines, k + 1) == Offset(lines, k) + |lines[k]|
    ensures LineAt(lines, k, base) == TagLine(lines[k], base + Offset(lines, k), base + Offset(lines, k) + |lines[k]|)
  {
    assert lines[..k + 1] == lines[..k] + [lines[k]];
    ConcatAppend(lines[..k], [lines[k]]);
    assert [lines[k]][1..] == [];
  }

  /** Line i is reached inside the block of header h, with these lines listed. */
  ghost predicate Scanning(lines: seq<string>, h: nat, i: nat, listed: seq<TagLine>, base: nat) {
    && h < i <= |lines| && IsHeader(lines[h]) && (forall k :: 0 <= k < h ==> !IsHeader(lines[k]))
    && (forall k :: h < k < i ==> InBlock(lines[k])) && listed == Listed(lines, h, i, base)
  }

  lemma ScanStart(lines: seq<string>, i: nat, base: nat)
    requires i < |lines| && IsHeader(lines[i]) && forall k :: 0 <= k < i ==> !IsHeader(lines[k])
    ensures Scanning(lines, i, i + 1, [LineAt(lines, i, base)], base)
  {
  }

  lemma ScanNext(lines: seq<string>, h: nat, i: nat, listed: seq<TagLine>, base: nat)
    requires i < |lines| && Scanning(lines, h, i, listed, base) && InBlock(lines[i])
    ensures Scanning(lines, h, i + 1, listed + if IsItem(lines[i]) then [LineAt(lines, i, base)] else [], base)
  {
  }

  /** Header and item lines with their positions, and where the block ends. */
  method TagBlockLines(frontmatter: string, base: nat) returns (found: Option<(seq<TagLine>, nat)>)
    ensures var lines := SplitLines(frontmatter);
      && (found.None? <==> Block(lines).None?)
      && (found.Some? ==>
            var h, j := Block(lines).value.0, Block(lines).value.1;
            found.value.0 == Listed(lines, h, j, base) && found.value.1 == base + Offset(lines, j))
  {
    hide IsHeader, ItemText, Listed, SplitLines;
    var lines := SplitLines(frontmatter);
    var cursor, result, inItems, stopped := 0, [], false, false;
    ghost var h := 0;
    var i := 0;
    while i < |lines| && !stopped
      invariant i <= |lines| && cursor == Offset(lines, i)
      invariant !inItems ==> result == [] && forall k :: 0 <= k < i ==> !IsHeader(lines[k])
      invariant inItems ==> Scanning(lines, h, i, result, base)
      invariant stopped ==> inItems && i < |lines| && !InBlock(lines[i])
      decreases |lines| - i, !stopped
    {
      var raw := lines[i];
      var line := TagLine(raw, base + cursor, base + cursor + |raw|);
      LineIs(lines, i, base);
      assert line == LineAt(lines, i, base);
      if !inItems {
        if IsHeader(raw) {
          ScanStart(lines, i, base);
          inItems, h, result := true, i, [line];
        }
      } else if InBlock(raw) {
        ScanNext(lines, h, i, result, base);
        result := result + if ItemText(raw).Some? then [line] else [];
      } else {
        stopped := true;
      }
      if !stopped {
        cursor, i := cursor + |raw|, i + 1;
      }
    }
    found := None;
    if inItems {
      BlockIs(lines, h, i);
      found := Some((result, base + cursor));
    }
  }

  /** The raw lines that do not go. */
  function Staying(goes: Test, listed: seq<TagLine>): seq<string> {
    if listed == [] then []
    else
      Staying(goes, listed[..|listed| - 1])
      + if goes(listed[|listed| - 1].raw) then [] else [listed[|listed| - 1].raw]
  }

  lemma StayingMore(goes: Test, front: seq<TagLine>, last: TagLine)
    ensures Staying(goes, front + [last]) == Staying(goes, front) + if goes(last.raw) then [] else [last.raw]
  {
    assert (front + [last])[..|front|] == front;
  }

  /** Tests that split the listed lines: those that go are listed, the others stay. */
  ghost predicate Splits(lists: Test, goes: Test, stays: Test, lines: seq<string>, h: nat, k: nat)
    requires h < k <= |lines|
  {
    !goes(lines[h]) && forall i :: h < i < k ==>
      (goes(lines[i]) ==> lists(lines[i])) && (stays(lines[i]) <==> lists(lines[i]) && !goes(lines[i]))
  }

  ghost predicate AnyGoes(goes: Test, lines: seq<string>, a: nat, b: nat)
    requires b <= |lines|
  {
    exists k :: a <= k < b && goes(lines[k])
  }

  lemma AnyGoesMore(goes: Test, lines: seq<string>, a: nat, b: nat)
    requires a < b <= |lines|
    ensures AnyGoes(goes, lines, a, b) <==> AnyGoes(goes, lines, a, b - 1) || goes(lines[b - 1])
  {
    if AnyGoes(goes, lines, a, b) {
      var k :| a <= k < b && goes(lines[k]);
      assert k < b - 1 ==> AnyGoes(goes, lines, a, b - 1);
    }
  }

  lemma ListMore(lists: Test, lines: seq<string>, h: nat, k: nat, base: nat)
    requires h + 1 < k <= |lines|
    ensures var front := ListPassing(lists, lines, h, k - 1, base);
      ListPassing(lists, lines, h, k, base)
      == if lists(lines[k - 1]) then front + [LineAt(lines, k - 1, base)] else front
  {
  }

  lemma PassMore(stays: Test, lines: seq<string>, a: nat, b: nat)
    requires a < b <= |lines|
    ensures var front := Passing(stays, lines, a, b - 1);
      Passing(stays, lines, a, b) == if stays(lines[b - 1]) then front + [lines[b - 1]] else front
  {
  }

  /** Of the listed lines, line h and the passing ones stay. */
  lemma {:induction false} ListedSplit(
    lists: Test, goes: Test, stays: Test, lines: seq<string>, h: nat, k: nat, base: nat)
    requires h < k <= |lines| && Splits(lists, goes, stays, lines, h, k)
    ensures Staying(goes, ListPassing(lists, lines, h, k, base)) == [lines[h]] + Passing(stays, lines, h + 1, k)
    decreases k
  {
    hide Offset, Staying, ListPassing, Passing;
    if k == h + 1 {
      StayingOne(goes, LineAt(lines, h, base));
      ListOne(lists, stays, lines, h, base);
    } else {
      ListedSplit(lists, goes, stays, lines, h, k - 1, base);
      ListMore(lists, lines, h, k, base);
      PassMore(stays, lines, h + 1, k);
      StayingMore(goes, ListPassing(lists, lines, h, k - 1, base), LineAt(lines, k - 1, base));
    }
  }

  lemma StayingOne(goes: Test, line: TagLine)
    ensures Staying(goes, [line]) == if goes(line.raw) then [] else [line.raw]
  {
    assert [line][..0] == [];
  }

  lemma ListOne(lists: Test, stays: Test, lines: seq<string>, h: nat, base: nat)
    requires h < |lines|
    ensures ListPassing(lists, lines, h, h + 1, base) == [LineAt(lines, h, base)]
      && Passing(stays, lines, h + 1, h + 1) == []
  {
  }

  /** A listed line is missing among those that stay exactly when a line goes. */
  lemma {:induction false} ListedCount(
    lists: Test, goes: Test, stays: Test, lines: seq<string>, h: nat, k: nat, base: nat)
    requires h < k <= |lines| && Splits(lists, goes, stays, lines, h, k)
    ensures var listed := ListPassing(lists, lines, h, k, base); var kept := Staying(goes, listed);
      |kept| <= |listed| && (AnyGoes(goes, lines, h + 1, k) <==> |kept| < |listed|)
    decreases k
  {
    hide Offset, Staying, ListPassing, Passing;
    if k == h + 1 {
      StayingOne(goes, LineAt(lines, h, base));
      ListOne(lists, stays, lines, h, base);
    } else {
      ListedCount(lists, goes, stays, lines, h, k - 1, base);
      ListMore(lists, lines, h, k, base);
      StayingMore(goes, ListPassing(lists, lines, h, k - 1, base), LineAt(lines, k - 1, base));
      AnyGoesMore(goes, lines, h + 1, k);
    }
  }

  /** The first listed line is line h, and the last one ends where the last passing line does. */
  lemma {:induction false} ListedEnds(lists: Test, lines: seq<string>, h: nat, k: nat, base: nat)
    requires h < k <= |lines|
    ensures var listed := ListPassing(lists, lines, h, k, base);
      listed[0] == LineAt(lines, h, base)
        && listed[|listed| - 1].end == base + Offset(lines, LastPassing(lists, lines, h, k))
    decreases k
  {
    if k > h + 1 {
      ListedEnds(lists, lines, h, k - 1, base);
      ListMore(lists, lines, h, k, base);
    }
  }

  /** Separates the listed lines that stay from those that go. */
  method SplitItems(fold: Folding, wanted: set<string>, listed: seq<TagLine>) returns (kept: seq<string>, removed: nat)
    ensures kept == Staying(Dropping(fold, wanted), listed) && removed == |listed| - |kept|
  {
    kept, removed := [], 0;
    ghost var goes := Dropping(fold, wanted);
    for i := 0 to |listed|
      invariant kept == Staying(goes, listed[..i]) && removed == i - |kept|
    {
      assert listed[..i + 1][..i] == listed[..i];
      if Drops(fold, wanted, listed[i].raw) {
        removed := removed + 1;
      } else {
        kept := kept + [listed[i].raw];
      }
    }
    assert listed[..|listed|] == listed;
  }

  /** The edited text: before the block, what stays of it, behind its last item. */
  lemma RebuiltText(d: Doc, h: nat, l: nat, kept: seq<string>)
    requires h <= |d.lines| && l <= |d.lines|
    ensures var text := Unmarked(d); var from, to := |d.first| + Offset(d.lines, h), |d.first| + Offset(d.lines, l);
      && from <= |text| && to <= |text|
      && text[..from] + Concat(kept) + text[to..] == Unmarked(WithLines(d, d.lines[..h] + kept + d.lines[l..]))
  {
    CutAt(d.first, d.lines, d.rest, h);
    CutAt(d.first, d.lines, d.rest, l);
    SplicedMore(d.first, d.lines[..h], kept, d.lines[l..], d.rest);
  }

  /** The text with what stays of the block between two positions; a header alone goes too. */
  function Between(text: string, from: nat, to: nat, kept: seq<string>): string
    requires from <= |text| && to <= |text|
  {
    text[..from] + Concat(if |kept| > 1 then kept else []) + text[to..]
  }

  /** The text around the listed lines with those that stay between; None when all stay. */
  function Rebuilt(goes: Test, text: string, listed: seq<TagLine>): Option<string>
    requires listed != [] && listed[0].start <= |text| && listed[|listed| - 1].end <= |text|
  {
    var kept := Staying(goes, listed);
    if |kept| == |listed| then None else Some(Between(text, listed[0].start, listed[|listed| - 1].end, kept))
  }

  /** The block without the wanted items; None when nothing was removed. */
  method RemoveInside(fold: Folding, wanted: set<string>, text: string, listed: seq<TagLine>)
    returns (edited: Option<string>)
    requires listed != [] && ItemText(listed[0].raw).None? && listed[0].start <= |text|
      && listed[|listed| - 1].end <= |text|
    ensures edited == Rebuilt(Dropping(fold, wanted), text, listed)
  {
    var kept, removed := SplitItems(fold, wanted, listed);
    if removed == 0 {
      return None;
    }
    var blockStart, blockEnd := listed[0].start, listed[|listed| - 1].end;
    FirstStays(Dropping(fold, wanted), listed);
    var surviving := |kept| - 1;
    if surviving == 0 {
      edited := Some(text[..blockStart] + text[blockEnd..]);
      assert text[..blockStart] + "" + text[blockEnd..] == text[..blockStart] + text[blockEnd..];
    } else {
      edited := Some(text[..blockStart] + Concat(kept) + text[blockEnd..]);
    }
  }

  lemma {:induction false} FirstStays(goes: Test, listed: seq<TagLine>)
    requires listed != [] && !goes(listed[0].raw)
    ensures Staying(goes, listed) != []
  {
    if |listed| > 1 {
      FirstStays(goes, listed[..|listed| - 1]);
    } else {
      assert listed[..0] == [];
    }
  }

  /** The text behind the mark once the wanted items are removed; None when there is nothing to remove. */
  function Removed(fold: Folding, wanted: set<string>, d: Doc): Option<string> {
    var lines := RemoveLines(fold, wanted, d.lines);
    if lines.None? then None else Some(Unmarked(WithLines(d, lines.value)))
  }

  lemma SomethingGoes(fold: Folding, wanted: set<string>, lines: seq<string>, h: nat, j: nat)
    requires Block(lines) == Some((h, j)) && AnyGoes(Dropping(fold, wanted), lines, h + 1, j)
    ensures var items, l := KeptItems(fold, wanted, lines, h + 1, j), LastItem(lines, h, j);
      RemoveLines(fold, wanted, lines) ==
        Some(lines[..h] + (if items == [] then [] else [lines[h]] + items) + lines[l..])
  {
    var k :| h + 1 <= k < j && Dropping(fold, wanted)(lines[k]);
    RemoveGives(fold, wanted, lines, h, j, k, KeptItems(fold, wanted, lines, h + 1, j), LastItem(lines, h, j));
  }

  /** The edit of the front matter lines, when something goes. */
  lemma EditOfLines(fold: Folding, wanted: set<string>, d: Doc, h: nat, j: nat)
    requires Block(d.lines) == Some((h, j)) && AnyGoes(Dropping(fold, wanted), d.lines, h + 1, j)
    ensures var text, items := Unmarked(d), KeptItems(fold, wanted, d.lines, h + 1, j);
      var out := RemoveLines(fold, wanted, d.lines);
      var from, to := |d.first| + Offset(d.lines, h), |d.first| + Offset(d.lines, LastItem(d.lines, h, j));
      && from <= |text| && to <= |text| && out.Some?
      && Unmarked(WithLines(d, out.value)) == Between(text, from, to, [d.lines[h]] + items)
  {
    hide Offset, Concat, RemoveLines, KeptItems, AnyGoes;
    var items, l := KeptItems(fold, wanted, d.lines, h + 1, j), LastItem(d.lines, h, j);
    SomethingGoes(fold, wanted, d.lines, h, j);
    RebuiltText(d, h, l, if items == [] then [] else [d.lines[h]] + items);
    assert |[d.lines[h]] + items| > 1 <==> items != [];
  }

  lemma BlockSplits(fold: Folding, wanted: set<string>, lines: seq<string>, h: nat, j: nat)
    requires Block(lines) == Some((h, j))
    ensures ItemText(lines[h]).None?
    ensures Splits(ItemTest(), Dropping(fold, wanted), Keeping(fold, wanted), lines, h, j)
  {
    HeaderIsKey(lines[h]);
  }

  lemma NothingGoes(fold: Folding, wanted: set<string>, d: Doc, h: nat, j: nat)
    requires Block(d.lines) == Some((h, j)) && !AnyGoes(Dropping(fold, wanted), d.lines, h + 1, j)
    ensures Removed(fold, wanted, d) == None
  {
    var lines := d.lines;
    var goes := Dropping(fold, wanted);
    assert forall k :: h + 1 <= k < j ==> !goes(lines[k]);
    assert forall k :: h + 1 <= k < j ==> !Drops(fold, wanted, lines[k]);
  }

  lemma RemovedIs(fold: Folding, wanted: set<string>, d: Doc, text: string)
    requires RemoveLines(fold, wanted, d.lines).Some?
    requires Unmarked(WithLines(d, RemoveLines(fold, wanted, d.lines).value)) == text
    ensures Removed(fold, wanted, d) == Some(text)
  {
  }

  /** What is rebuilt from listed lines, for any tests. */
  lemma RebuiltFrom(lists: Test, goes: Test, stays: Test, text: string, lines: seq<string>, h: nat, j: nat, base: nat)
    requires h < j <= |lines| && Splits(lists, goes, stays, lines, h, j)
    requires base + Offset(lines, h) <= |text| && base + Offset(lines, LastPassing(lists, lines, h, j)) <= |text|
    ensures var listed, items := ListPassing(lists, lines, h, j, base), Passing(stays, lines, h + 1, j);
      var from, to := base + Offset(lines, h), base + Offset(lines, LastPassing(lists, lines, h, j));
      && listed[0].start == from && listed[|listed| - 1].end == to
      && Rebuilt(goes, text, listed) ==
         if AnyGoes(goes, lines, h + 1, j) then Some(Between(text, from, to, [lines[h]] + items)) else None
  {
    hide Concat, Staying, Passing, Between, Splits, AnyGoes;
    ListedSplit(lists, goes, stays, lines, h, j, base);
    ListedCount(lists, goes, stays, lines, h, j, base);
    ListedEnds(lists, lines, h, j, base);
  }

  lemma PositionsFit(d: Doc, h: nat, l: nat)
    requires h <= |d.lines| && l <= |d.lines|
    ensures |d.first| + Offset(d.lines, h) <= |Unmarked(d)| && |d.first| + Offset(d.lines, l) <= |Unmarked(d)|
  {
    CutAt(d.first, d.lines, d.rest, h);
    CutAt(d.first, d.lines, d.rest, l);
  }

  /** Rebuilding the text from the listed lines gives the text of the edited lines. */
  lemma EditOfListed(fold: Folding, wanted: set<string>, d: Doc, h: nat, j: nat)
    requires Block(d.lines) == Some((h, j))
    ensures var listed := Listed(d.lines, h, j, |d.first|);
      && listed[0].start <= |Unmarked(d)| && listed[|listed| - 1].end <= |Unmarked(d)|
      && Rebuilt(Dropping(fold, wanted), Unmarked(d), listed) == Removed(fold, wanted, d)
  {
    hide Offset, Concat, RemoveLines, Block, AnyGoes, Splits, Rebuilt, Unmarked, Between, ListPassing, Passing,
      LastPassing;
    PositionsFit(d, h, LastItem(d.lines, h, j));
    BlockSplits(fold, wanted, d.lines, h, j);
    RebuiltFrom(
      ItemTest(), Dropping(fold, wanted), Keeping(fold, wanted), Unmarked(d), d.lines, h, j, |d.first|);
    if AnyGoes(Dropping(fold, wanted), d.lines, h + 1, j) {
      EditOfLines(fold, wanted, d, h, j);
      RemovedIs(
        fold, wanted, d,
        Rebuilt(Dropping(fold, wanted), Unmarked(d), Listed(d.lines, h, j, |d.first|)).value);
    } else {
      NothingGoes(fold, wanted, d, h, j);
    }
  }

  /** Removes tags from the block of a note that has front matter. */
  method RemoveFrom(fold: Folding, wanted: set<string>, d: Doc) returns (edited: Option<string>)
    requires IsDoc(d)
    ensures edited == Removed(fold, wanted, d)
  {
    SplitConcat(d.lines);
    var found := TagBlockLines(Concat(d.lines), |d.first|);
    edited := None;
    if found.Some? {
      ghost var h, j := Block(d.lines).value.0, Block(d.lines).value.1;
      BlockSplits(fold, wanted, d.lines, h, j);
      ListedEnds(ItemTest(), d.lines, h, j, |d.first|);
      EditOfListed(fold, wanted, d, h, j);
      edited := RemoveInside(fold, wanted, Unmarked(d), found.value.0);
    }
  }

  /** Removes explicit tags from the front matter, or refuses. */
  method RemoveTags(fold: Folding, source: string, tags: seq<string>) returns (edited: Option<string>)
    requires AtMostOneBom(source)
    ensures edited == RemoveResult(fold, source, tags)
  {
    var (text, bom) := StripBom(source);
    edited := None;
    if FrontmatterSpan(text).Some? {
      TextOfParse(source);
      var d := ParseDoc(source).value;
      var inside := RemoveFrom(fold, Wanted(fold, tags), d);
      edited := if inside.None? then None else Some(Mark(bom) + inside.value);
    }
  }
}
