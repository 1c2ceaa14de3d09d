/** Bounded text edits: the running-offset loop of note patches and the cursor splice of export. */
module Hunks {
  import opened Base
  import opened Sorting

  /** Replace `oldText` at character `start` by `newText`. */
  datatype Hunk = Hunk(start: nat, oldText: string, newText: string) {
    function End(): nat { start + |oldText| }
  }

  const MAX_OUTPUT_BYTES := 5_000_000

  /** Length of a character in UTF-8. */
  function Utf8Length(c: char): nat {
    if c as int < 0x80 then 1 else if c as int < 0x800 then 2 else if c as int < 0x1_0000 then 3 else 4
  }

  /** How many bits of a code point fit into this many bytes: 7, 11, 16 and 21. */
  function CodeBits(bytes: nat): nat {
    if bytes == 1 then 7 else if bytes == 2 then 11 else if bytes == 3 then 16 else 21
  }

  function Power(bits: nat): nat {
    if bits == 0 then 1 else 2 * Power(bits - 1)
  }

  /** A character takes as few bytes as its code point fits into. */
  lemma Utf8LengthIsLeast(c: char, bytes: nat)
    requires 1 <= bytes <= 4
    ensures c as int < Power(CodeBits(bytes)) <==> Utf8Length(c) <= bytes
    ensures 1 <= Utf8Length(c) <= 4
  {
    assert Power(7) == 0x80;
    assert Power(11) == 16 * Power(7);
    assert Power(16) == 32 * Power(11);
    assert Power(21) == 32 * Power(16);
  }

  function Utf8Size(text: string): nat {
    if text == "" then 0 else Utf8Size(text[..|text| - 1]) + Utf8Length(text[|text| - 1])
  }

  function SortHunks(hunks: seq<Hunk>): seq<Hunk> {
    Sort((a: Hunk, b: Hunk) => a.start <= b.start, hunks)
  }

  // ----- replacing all hunks at once, in original coordinates -----

  /** Each hunk starts where those before it end, or later. */
  ghost predicate InOrder(hs: seq<Hunk>) {
    forall i, j :: 0 <= i < j < |hs| ==> hs[i].End() <= hs[j].start
  }

  predicate Matches(text: string, h: Hunk) {
    h.End() <= |text| && text[h.start..h.End()] == h.oldText
  }

  /** Where the first n hunks end. */
  function EndAt(hs: seq<Hunk>, n: nat): nat
    requires n <= |hs|
  {
    if n == 0 then 0 else hs[n - 1].End()
  }

  /** The first n hunks are where the text has them. */
  ghost predicate MatchUpTo(text: string, hs: seq<Hunk>, n: nat)
    requires n <= |hs|
  {
    EndAt(hs, n) <= |text| && forall i :: 0 <= i < n ==> Matches(text, hs[i])
  }

  ghost predicate AllMatch(text: string, hs: seq<Hunk>) {
    MatchUpTo(text, hs, |hs|)
  }

  /** The text up to the end of the first n hunks: kept gaps and new texts in turn. */
  function Edited(text: string, hs: seq<Hunk>, n: nat): string
    requires InOrder(hs) && n <= |hs| && EndAt(hs, n) <= |text|
  {
    if n == 0 then ""
    else Edited(text, hs, n - 1) + text[EndAt(hs, n - 1)..hs[n - 1].start] + hs[n - 1].newText
  }

  function Splice(text: string, hs: seq<Hunk>): string
    requires InOrder(hs) && EndAt(hs, |hs|) <= |text|
  {
    Edited(text, hs, |hs|) + text[EndAt(hs, |hs|)..]
  }

  /** How long `Edited` is. */
  function NewEnd(hs: seq<Hunk>, n: nat): nat
    requires InOrder(hs) && n <= |hs|
  {
    if n == 0 then 0 else NewEnd(hs, n - 1) + (hs[n - 1].start - EndAt(hs, n - 1)) + |hs[n - 1].newText|
  }

  lemma {:induction false} EditedLength(text: string, hs: seq<Hunk>, n: nat)
    requires InOrder(hs) && n <= |hs| && EndAt(hs, n) <= |text|
    ensures |Edited(text, hs, n)| == NewEnd(hs, n)
  {
    if n > 0 {
      EditedLength(text, hs, n - 1);
    }
  }

  // ----- one step of the loop -----

  lemma SliceOfTail(head: string, text: string, cut: nat, from: nat, to: nat)
    requires cut <= from <= to <= |text|
    ensures (head + text[cut..])[|head| + from - cut..|head| + to - cut] == text[from..to]
    ensures (head + text[cut..])[..|head| + from - cut] == head + text[cut..from]
    ensures (head + text[cut..])[|head| + to - cut..] == text[to..]
  {
  }

  /** The first n hunks match and have been applied. */
  ghost predicate AppliedUpTo(text: string, hs: seq<Hunk>, n: nat, current: string, offset: int)
    requires InOrder(hs) && n <= |hs|
  {
    && MatchUpTo(text, hs, n)
    && current == Edited(text, hs, n) + text[EndAt(hs, n)..]
    && offset == NewEnd(hs, n) - EndAt(hs, n)
  }

  /** In the text edited so far the next hunk passes its checks exactly when the original has its text. */
  lemma ChecksOriginal(text: string, hs: seq<Hunk>, n: nat, current: string, offset: int)
    requires InOrder(hs) && n < |hs| && AppliedUpTo(text, hs, n, current, offset)
    ensures var start := hs[n].start + offset; var fits := 0 <= start && start + |hs[n].oldText| <= |current|;
      fits && current[start..start + |hs[n].oldText|] == hs[n].oldText <==> Matches(text, hs[n])
  {
    EditedLength(text, hs, n);
    if hs[n].End() <= |text| {
      SliceOfTail(Edited(text, hs, n), text, EndAt(hs, n), hs[n].start, hs[n].End());
    }
  }

  /** Applied there, it is applied in original coordinates. */
  lemma AppliedNext(text: string, hs: seq<Hunk>, n: nat, current: string, offset: int)
    requires InOrder(hs) && n < |hs| && AppliedUpTo(text, hs, n, current, offset) && Matches(text, hs[n])
    ensures var start := hs[n].start + offset;
      && 0 <= start && start + |hs[n].oldText| <= |current|
      && AppliedUpTo(
           text, hs, n + 1, current[..start] + hs[n].newText + current[start + |hs[n].oldText|..],
           offset + |hs[n].newText| - |hs[n].oldText|)
  {
    EditedLength(text, hs, n);
    SliceOfTail(Edited(text, hs, n), text, EndAt(hs, n), hs[n].start, hs[n].End());
  }

  /** One hunk at the running offset, checked against the text edited so far. */
  function ApplyOne(current: string, offset: int, h: Hunk): Option<(string, int)> {
    var start := h.start + offset;
    if start < 0 || start + |h.oldText| > |current| || current[start..start + |h.oldText|] != h.oldText then None
    else Some((current[..start] + h.newText + current[start + |h.oldText|..], offset + |h.newText| - |h.oldText|))
  }

  /** The text and the running offset after n hunks, one after the other; None once a hunk does not fit. */
  function OneByOne(text: string, hs: seq<Hunk>, n: nat): Option<(string, int)>
    requires n <= |hs|
  {
    if n == 0 then Some((text, 0))
    else
      match OneByOne(text, hs, n - 1)
      case None => None
      case Some((current, offset)) => ApplyOne(current, offset, hs[n - 1])
  }

  lemma AppliedStep(text: string, hs: seq<Hunk>, n: nat, current: string, offset: int)
    requires InOrder(hs) && n < |hs| && AppliedUpTo(text, hs, n, current, offset)
    ensures match ApplyOne(current, offset, hs[n])
      case None => !MatchUpTo(text, hs, n + 1)
      case Some((current', offset')) => AppliedUpTo(text, hs, n + 1, current', offset')
  {
    ChecksOriginal(text, hs, n, current, offset);
    if Matches(text, hs[n]) {
      AppliedNext(text, hs, n, current, offset);
    }
  }

  /** On a chain the loop goes on as long as the hunks are where the original has them, in original coordinates. */
  lemma {:induction false} ChainApplies(text: string, hs: seq<Hunk>, n: nat)
    requires InOrder(hs) && n <= |hs|
    ensures match OneByOne(text, hs, n)
      case None => !MatchUpTo(text, hs, n)
      case Some((current, offset)) => AppliedUpTo(text, hs, n, current, offset)
  {
    hide AppliedUpTo, ApplyOne;
    if n == 0 {
      NothingApplied(text, hs);
    } else {
      ChainApplies(text, hs, n - 1);
      match OneByOne(text, hs, n - 1)
      case None =>
        FewerMatch(text, hs, n);
      case Some((current, offset)) =>
        AppliedStep(text, hs, n - 1, current, offset);
    }
  }

  lemma FewerMatch(text: string, hs: seq<Hunk>, n: nat)
    requires InOrder(hs) && 0 < n <= |hs|
    ensures !MatchUpTo(text, hs, n - 1) ==> !MatchUpTo(text, hs, n)
  {
    assert n > 1 ==> hs[n - 2].End() <= hs[n - 1].start;
  }

  lemma NothingApplied(text: string, hs: seq<Hunk>)
    requires InOrder(hs)
    ensures AppliedUpTo(text, hs, 0, text, 0)
  {
  }

  lemma {:induction false} StaysNone(text: string, hs: seq<Hunk>, i: nat, n: nat)
    requires i <= n <= |hs| && OneByOne(text, hs, i).None?
    ensures OneByOne(text, hs, n).None?
    decreases n - i
  {
    if i < n {
      StaysNone(text, hs, i, n - 1);
    }
  }

  /**
    Applies hunks in ascending order of their starts, each checked against the text edited so far. When
    the sorted hunks do not overlap, that is replacing all of them at once; it fails exactly when some
    hunk's text is not where the original has it, or when the result is too large.
  */
  method ApplyHunks(text: string, hunks: seq<Hunk>) returns (result: Option<string>)
    ensures
      var hs := SortHunks(hunks);
      var last := OneByOne(text, hs, |hs|);
      result == if last.Some? && Utf8Size(last.value.0) <= MAX_OUTPUT_BYTES then Some(last.value.0) else None
    ensures InOrder(SortHunks(hunks)) ==>
      (result.Some? <==>
        AllMatch(text, SortHunks(hunks)) && Utf8Size(Splice(text, SortHunks(hunks))) <= MAX_OUTPUT_BYTES)
    ensures InOrder(SortHunks(hunks)) && result.Some? ==> result.value == Splice(text, SortHunks(hunks))
  {
    hide Utf8Size, SortHunks, Matches;
    var hs := SortHunks(hunks);
    if InOrder(hs) {
      ChainApplies(text, hs, |hs|);
    }
    var current, offset := text, 0;
    for i := 0 to |hs|
      invariant OneByOne(text, hs, i) == Some((current, offset))
    {
      var h := hs[i];
      var start: int := h.start + offset;
      if start < 0 || start + |h.oldText| > |current| || current[start..start + |h.oldText|] != h.oldText {
        StaysNone(text, hs, i + 1, |hs|);
        return None;
      }
      current := current[..start] + h.newText + current[start + |h.oldText|..];
      offset := offset + |h.newText| - |h.oldText|;
    }
    result := if Utf8Size(current) > MAX_OUTPUT_BYTES then None else Some(current);
  }

  // ----- hunks in any order -----

  /**
    Of two hunks the one given first ends where the other starts or earlier, or it starts behind the other's
    start and end. An insertion at the start of a replacement has to be given before it.
  */
  ghost predicate Apart(hunks: seq<Hunk>) {
    forall i, j :: 0 <= i < j < |hunks| ==> BeforeOrBehind(hunks[i], hunks[j])
  }

  predicate BeforeOrBehind(a: Hunk, b: Hunk) {
    a.End() <= b.start || (b.End() <= a.start && b.start < a.start)
  }

  ghost predicate AllApartFrom(hs: seq<Hunk>, h: Hunk) {
    forall x :: x in hs ==> BeforeOrBehind(x, h)
  }

  function Placed(hs: seq<Hunk>, h: Hunk): seq<Hunk> {
    Place((a: Hunk, b: Hunk) => a.start <= b.start, hs, h)
  }

  lemma PlacedMembers(hs: seq<Hunk>, h: Hunk)
    ensures forall x :: x in Placed(hs, h) <==> x == h || x in hs
  {
    var atMost := (a: Hunk, b: Hunk) => a.start <= b.start;
    PlaceKeepsAll(atMost, hs, h);
    forall x
      ensures x in Placed(hs, h) <==> x == h || x in hs
    {
      assert x in Placed(hs, h) <==> x in multiset(Placed(hs, h));
      assert x in hs <==> x in multiset(hs);
    }
  }

  lemma InOrderLast(hs: seq<Hunk>, last: Hunk)
    ensures InOrder(hs + [last]) <==> InOrder(hs) && forall x :: x in hs ==> x.End() <= last.start
  {
    var more := hs + [last];
    if InOrder(more) {
      assert forall i :: 0 <= i < |hs| ==> more[i] == hs[i];
      assert more[|hs|] == last;
      assert InOrder(hs);
    }
  }

  lemma PlacedLast(hs: seq<Hunk>, last: Hunk, h: Hunk)
    ensures Placed(hs + [last], h) == if last.start <= h.start then hs + [last] + [h] else Placed(hs, h) + [last]
  {
    assert (hs + [last])[..|hs|] == hs;
  }

  ghost predicate Rising(hs: seq<Hunk>) {
    forall i, j :: 0 <= i < j < |hs| ==> hs[i].start <= hs[j].start
  }

  lemma AllApartLast(front: seq<Hunk>, last: Hunk, h: Hunk)
    ensures AllApartFrom(front + [last], h) <==> AllApartFrom(front, h) && BeforeOrBehind(last, h)
  {
    assert forall x :: x in front + [last] <==> x in front || x == last;
  }

  /** Behind a list by rising starts. */
  lemma ApartBehind(hs: seq<Hunk>, h: Hunk)
    requires Rising(hs) && hs != [] && hs[|hs| - 1].start <= h.start
    ensures InOrder(hs + [h]) <==> InOrder(hs) && AllApartFrom(hs, h)
  {
    InOrderLast(hs, h);
    forall x | x in hs
      ensures BeforeOrBehind(x, h) <==> x.End() <= h.start
    {
      var i :| 0 <= i < |hs| && hs[i] == x;
      assert x.start <= hs[|hs| - 1].start;
    }
  }

  /** Before the last one. */
  lemma ApartBefore(front: seq<Hunk>, last: Hunk, h: Hunk)
    requires last.start > h.start
    requires InOrder(Placed(front, h)) <==> InOrder(front) && AllApartFrom(front, h)
    ensures InOrder(Placed(front, h) + [last]) <==> InOrder(front + [last]) && AllApartFrom(front + [last], h)
  {
    hide InOrder, Placed, AllApartFrom;
    InOrderLast(Placed(front, h), last);
    InOrderLast(front, last);
    AllApartLast(front, last, h);
    PlacedMembers(front, h);
  }

  /** Into a list by rising starts, a hunk is placed in a chain exactly when the list is one, apart from it. */
  lemma {:induction false} PlacedInOrder(hs: seq<Hunk>, h: Hunk)
    requires Rising(hs)
    ensures InOrder(Placed(hs, h)) <==> InOrder(hs) && AllApartFrom(hs, h)
  {
    if hs == [] {
      assert Placed(hs, h) == [h];
    } else {
      hide Placed, InOrder, AllApartFrom;
      var front, last := hs[..|hs| - 1], hs[|hs| - 1];
      assert hs == front + [last];
      PlacedLast(front, last, h);
      if last.start <= h.start {
        ApartBehind(hs, h);
      } else {
        PlacedInOrder(front, h);
        ApartBefore(front, last, h);
      }
    }
  }

  lemma RisingStarts(hunks: seq<Hunk>)
    ensures Rising(SortHunks(hunks)) && forall x :: x in SortHunks(hunks) <==> x in hunks
  {
    SortOrders((a: Hunk, b: Hunk) => a.start <= b.start, hunks);
    SortKeepsAll((a: Hunk, b: Hunk) => a.start <= b.start, hunks);
  }

  lemma ApartLast(front: seq<Hunk>, last: Hunk)
    ensures Apart(front + [last]) <==> Apart(front) && AllApartFrom(front, last)
  {
    var hunks := front + [last];
    if Apart(hunks) {
      assert forall i :: 0 <= i < |front| ==> hunks[i] == front[i];
      assert hunks[|front|] == last;
      assert Apart(front);
    }
  }

  /** The hunks sort into a chain exactly when they are apart, as they were given. */
  lemma {:induction false} ApartSorts(hunks: seq<Hunk>)
    ensures InOrder(SortHunks(hunks)) <==> Apart(hunks)
  {
    if hunks != [] {
      var front, last := hunks[..|hunks| - 1], hunks[|hunks| - 1];
      assert hunks == front + [last];
      ApartLast(front, last);
      ApartSorts(front);
      RisingStarts(front);
      PlacedInOrder(SortHunks(front), last);
      assert SortHunks(hunks) == Placed(SortHunks(front), last);
    }
  }

  lemma SameStart(text: string, a: Hunk, b: Hunk)
    requires a.start == b.start
    ensures SortHunks([a, b]) == [a, b]
    ensures OneByOne(text, [a, b], 0) == Some((text, 0))
  {
    var atMost := (x: Hunk, y: Hunk) => x.start <= y.start;
    assert [a, b][..1] == [a] && [a][..0] == [];
    assert Sort(atMost, [a]) == Place(atMost, [], a) == [a];
    assert Place(atMost, [a], b) == [a, b];
  }

  /** One hunk that fits where the text is cut in three. */
  lemma FitsAt(text: string, hs: seq<Hunk>, n: nat, current: string, head: string, tail: string, offset: int)
    requires n < |hs| && hs[n].start + offset == |head|
    requires OneByOne(text, hs, n) == Some((current, offset)) && current == head + hs[n].oldText + tail
    ensures OneByOne(text, hs, n + 1) ==
      Some((head + hs[n].newText + tail, offset + |hs[n].newText| - |hs[n].oldText|))
  {
    assert current[..|head|] == head;
    assert current[|head|..|head| + |hs[n].oldText|] == hs[n].oldText;
    assert current[|head| + |hs[n].oldText|..] == tail;
  }

  const REPLACEMENT := Hunk(5, "ab", "xyz")
  const INSERTION := Hunk(5, "", "Q")

  lemma InsertionBehind()
    ensures OneByOne("01234ab", [REPLACEMENT, INSERTION], 2) == Some(("01234xQyz", 2))
  {
    var hs := [REPLACEMENT, INSERTION];
    assert "01234ab" == "01234" + "ab" + "" && "01234" + "xyz" + "" == "01234xyz" == "01234x" + "" + "yz";
    FitsAt("01234ab", hs, 0, "01234ab", "01234", "", 0);
    FitsAt("01234ab", hs, 1, "01234xyz", "01234x", "yz", 1);
    assert "01234x" + "Q" + "yz" == "01234xQyz";
  }

  lemma InsertionBefore()
    ensures OneByOne("01234ab", [INSERTION, REPLACEMENT], 2) == Some(("01234Qxyz", 2))
  {
    var hs := [INSERTION, REPLACEMENT];
    assert "01234ab" == "01234" + "" + "ab" && "01234" + "Q" + "ab" == "01234Qab" == "01234Q" + "ab" + "";
    FitsAt("01234ab", hs, 0, "01234ab", "01234", "ab", 0);
    FitsAt("01234ab", hs, 1, "01234Qab", "01234Q", "", 1);
    assert "01234Q" + "xyz" + "" == "01234Qxyz";
  }

  /**
    An insertion given behind a replacement that starts at the same place lands inside the new text; given
    before it, it lands in front. The spans do not overlap, yet only the second list is apart.
  */
  method InsertionInside() returns (behind: Option<string>, before: Option<string>)
    ensures behind == Some("01234xQyz") && before == Some("01234Qxyz")
    ensures !Apart([REPLACEMENT, INSERTION]) && Apart([INSERTION, REPLACEMENT])
  {
    hide OneByOne, SortHunks;
    assert !BeforeOrBehind([REPLACEMENT, INSERTION][0], [REPLACEMENT, INSERTION][1]);
    SameStart("01234ab", REPLACEMENT, INSERTION);
    SameStart("01234ab", INSERTION, REPLACEMENT);
    InsertionBehind();
    InsertionBefore();
    SmallSize("01234xQyz");
    SmallSize("01234Qxyz");
    behind := ApplyHunks("01234ab", [REPLACEMENT, INSERTION]);
    before := ApplyHunks("01234ab", [INSERTION, REPLACEMENT]);
  }

  lemma {:induction false} SmallSize(text: string)
    ensures Utf8Size(text) <= 4 * |text|
  {
    if text != "" {
      SmallSize(text[..|text| - 1]);
    }
  }

  /** With distinct starts, the order in which the hunks are given does not matter. */
  lemma OrderDoesNotMatter(a: seq<Hunk>, b: seq<Hunk>)
    requires multiset(a) == multiset(b)
    requires forall x, y :: x in a && y in a && x.start == y.start ==> x == y
    ensures SortHunks(a) == SortHunks(b)
  {
    var atMost := (x: Hunk, y: Hunk) => x.start <= y.start;
    SortOrders(atMost, a);
    SortOrders(atMost, b);
    SortKeepsAll(atMost, a);
    SortKeepsAll(atMost, b);
    forall i, j | 0 <= i < |SortHunks(a)| && 0 <= j < |SortHunks(a)|
      ensures SortHunks(a)[i] in a && SortHunks(a)[j] in a
    {
    }
    OrderedIsUnique(atMost, SortHunks(a), SortHunks(b));
  }

  // ----- taking edits back -----

  /** Old and new texts exchanged, starts moved to where the new texts are. */
  function Swapped(hs: seq<Hunk>): (back: seq<Hunk>)
    requires InOrder(hs)
    ensures |back| == |hs|
  {
    seq(|hs|, i requires 0 <= i < |hs| =>
      Hunk(NewEnd(hs, i) + (hs[i].start - EndAt(hs, i)), hs[i].newText, hs[i].oldText))
  }

  lemma {:induction false} NewEndGrows(hs: seq<Hunk>, i: nat, j: nat)
    requires InOrder(hs) && i <= j <= |hs|
    ensures NewEnd(hs, i) <= NewEnd(hs, j)
    decreases j - i
  {
    if i < j {
      NewEndGrows(hs, i, j - 1);
    }
  }

  predicate IsSwapAt(hs: seq<Hunk>, n: nat, back: Hunk)
    requires InOrder(hs) && n < |hs|
  {
    && back.start == NewEnd(hs, n) + (hs[n].start - EndAt(hs, n)) && back.End() == NewEnd(hs, n + 1)
    && back.oldText == hs[n].newText && back.newText == hs[n].oldText
  }

  ghost predicate IsSwap(hs: seq<Hunk>, back: seq<Hunk>)
    requires InOrder(hs)
  {
    |back| == |hs| && forall i :: 0 <= i < |hs| ==> IsSwapAt(hs, i, back[i])
  }

  lemma SwappedInOrder(hs: seq<Hunk>)
    requires InOrder(hs)
    ensures InOrder(Swapped(hs)) && IsSwap(hs, Swapped(hs))
  {
    forall i, j | 0 <= i < j < |hs|
      ensures Swapped(hs)[i].End() <= Swapped(hs)[j].start
    {
      NewEndGrows(hs, i + 1, j);
    }
  }

  lemma SwappedGap(head: string, gap: string, more: string, out: string)
    requires head + gap + more <= out
    ensures head <= out && out[|head|..|head| + |gap|] == gap && out[|head| + |gap|..|head| + |gap| + |more|] == more
  {
    assert out[..|head| + |gap| + |more|] == head + gap + more;
    assert head <= head + gap + more;
  }

  lemma Pieces(text: string, a: nat, b: nat, c: nat)
    requires a <= b <= c <= |text|
    ensures text[..a] + text[a..b] + text[b..c] == text[..c]
  {
  }

  /** The n-th swapped hunk, on a text that begins with the edited one. */
  lemma SwappedStep(text: string, hs: seq<Hunk>, n: nat, back: Hunk, out: string)
    requires InOrder(hs) && n < |hs| && MatchUpTo(text, hs, n + 1) && Edited(text, hs, n + 1) <= out
    requires IsSwapAt(hs, n, back)
    ensures Edited(text, hs, n) <= out && Matches(out, back) && NewEnd(hs, n) <= back.start
    ensures text[..EndAt(hs, n)] + out[NewEnd(hs, n)..back.start] + back.newText == text[..EndAt(hs, n + 1)]
  {
    EditedLength(text, hs, n);
    SwappedGap(Edited(text, hs, n), text[EndAt(hs, n)..hs[n].start], hs[n].newText, out);
    Pieces(text, EndAt(hs, n), hs[n].start, hs[n].End());
  }

  /** On any text that begins with the edited one, the swapped hunks match and give the original back. */
  lemma {:induction false} SwappedEdits(text: string, hs: seq<Hunk>, n: nat, back: seq<Hunk>, out: string)
    requires InOrder(hs) && InOrder(back) && IsSwap(hs, back)
    requires n <= |hs| && MatchUpTo(text, hs, n) && Edited(text, hs, n) <= out
    ensures MatchUpTo(out, back, n) && EndAt(back, n) == NewEnd(hs, n)
    ensures Edited(out, back, n) == text[..EndAt(hs, n)]
  {
    if n > 0 {
      assert IsSwapAt(hs, n - 1, back[n - 1]);
      SwappedStep(text, hs, n - 1, back[n - 1], out);
      assert EndAt(hs, n - 1) <= hs[n - 1].start;
      SwappedEdits(text, hs, n - 1, back, out);
    }
  }

  /** Applying hunks and then the swapped, shifted hunks restores the text. */
  lemma SwapRestores(text: string, hs: seq<Hunk>)
    requires InOrder(hs) && AllMatch(text, hs)
    ensures var out := Splice(text, hs);
      InOrder(Swapped(hs)) && AllMatch(out, Swapped(hs)) && Splice(out, Swapped(hs)) == text
  {
    var out := Splice(text, hs);
    SwappedInOrder(hs);
    SwappedEdits(text, hs, |hs|, Swapped(hs), out);
    EditedLength(text, hs, |hs|);
    assert out[NewEnd(hs, |hs|)..] == text[EndAt(hs, |hs|)..];
    assert text[..EndAt(hs, |hs|)] + text[EndAt(hs, |hs|)..] == text;
  }

  lemma InOrderIsSorted(hs: seq<Hunk>)
    requires InOrder(hs)
    ensures SortHunks(hs) == hs
  {
    SortOfOrdered((a: Hunk, b: Hunk) => a.start <= b.start, hs);
  }

  /** A patch that went through can be taken back by a patch. */
  method PatchAndBack(text: string, hunks: seq<Hunk>) returns (patched: Option<string>, restored: Option<string>)
    requires Apart(hunks) && Utf8Size(text) <= MAX_OUTPUT_BYTES
    ensures patched.Some? ==> restored == Some(text)
  {
    ApartSorts(hunks);
    restored := None;
    patched := ApplyHunks(text, hunks);
    if patched.Some? {
      var hs := SortHunks(hunks);
      SwapRestores(text, hs);
      InOrderIsSorted(Swapped(hs));
      restored := ApplyHunks(patched.value, Swapped(hs));
    }
  }

  // ----- export's splice -----

  /** A span with its replacement in each of the two outputs. */
  datatype Edit = Edit(start: nat, end: nat, urlForm: string, inlineForm: string) {
    function Form(inlined: bool): string { if inlined then inlineForm else urlForm }
  }

  /** Spans lie in the text, one behind the other. */
  ghost predicate InSequence(edits: seq<Edit>, length: nat) {
    && (forall i :: 0 <= i < |edits| ==> edits[i].start <= edits[i].end <= length)
    && forall i, j :: 0 <= i < j < |edits| ==> edits[i].end <= edits[j].start
  }

  /** The edits as hunks on this text. */
  function AsHunks(text: string, edits: seq<Edit>, inlined: bool): (hs: seq<Hunk>)
    requires InSequence(edits, |text|)
    ensures |hs| == |edits|
    ensures forall i :: 0 <= i < |hs| ==>
      && hs[i].start == edits[i].start && hs[i].End() == edits[i].end
      && hs[i].newText == if inlined then edits[i].inlineForm else edits[i].urlForm
  {
    seq(|edits|, i requires 0 <= i < |edits| =>
      Hunk(edits[i].start, text[edits[i].start..edits[i].end], edits[i].Form(inlined)))
  }

  lemma AsHunksFit(text: string, edits: seq<Edit>, inlined: bool)
    requires InSequence(edits, |text|)
    ensures InOrder(AsHunks(text, edits, inlined)) && AllMatch(text, AsHunks(text, edits, inlined))
  {
  }

  /** Copies the gaps and one form of each edit: the same text as applying the edits as hunks. */
  method ApplyEdits(text: string, edits: seq<Edit>, inlined: bool) returns (result: string)
    requires InSequence(edits, |text|)
    ensures InOrder(AsHunks(text, edits, inlined)) && AllMatch(text, AsHunks(text, edits, inlined))
    ensures result == Splice(text, AsHunks(text, edits, inlined))
  {
    ghost var hs := AsHunks(text, edits, inlined);
    AsHunksFit(text, edits, inlined);
    var pieces, cursor := "", 0;
    for i := 0 to |edits|
      invariant cursor == EndAt(hs, i) <= |text| && pieces == Edited(text, hs, i)
    {
      pieces := pieces + text[cursor..edits[i].start] + edits[i].Form(inlined);
      cursor := edits[i].end;
    }
    result := pieces + text[cursor..];
  }
}
