/** Case-folded file names: leaves, suffixes, and the order paths are sorted in. */
module Names {
  import opened Base
  import opened Sorting

  /** A per-character case folding that only a slash turns into a slash. */
  ghost predicate KeepsSlashes(fold: char -> string) {
    fold('/') == "/" && forall c :: c != '/' ==> '/' !in fold(c)
  }

  type Folding = fold: char -> string | KeepsSlashes(fold) witness c => [c]

  function Casefold(fold: Folding, s: string): string {
    if s == "" then "" else Casefold(fold, s[..|s| - 1]) + fold(s[|s| - 1])
  }

  /** The part after the last slash. */
  function Leaf(path: string): (leaf: string)
    ensures '/' !in leaf
  {
    if path == "" || path[|path| - 1] == '/' then ""
    else Leaf(path[..|path| - 1]) + [path[|path| - 1]]
  }

  /** How many characters stand before the last dot; None without one. */
  function LastDot(name: string): (at: Option<nat>)
    ensures at.Some? ==> at.value < |name| && name[at.value] == '.' && '.' !in name[at.value + 1..]
    ensures at.None? ==> '.' !in name
  {
    if name == "" then None
    else if name[|name| - 1] == '.' then Some(|name| - 1)
    else LastDot(name[..|name| - 1])
  }

  /** The name without its extension, unless the stem or the extension would be empty. */
  function StripExtension(name: string): string {
    match LastDot(name)
    case None => name
    case Some(at) => if at > 0 && at + 1 < |name| then name[..at] else name
  }

  /** A stem and an extension, neither of them empty, joined by the last dot. */
  ghost predicate Joins(name: string, stem: string, extension: string) {
    stem != "" && extension != "" && '.' !in extension && name == stem + "." + extension
  }

  /** The extension is what stands behind the last dot. */
  lemma StripsExtension(stem: string, extension: string)
    requires Joins(stem + "." + extension, stem, extension)
    ensures StripExtension(stem + "." + extension) == stem
  {
    var name := stem + "." + extension;
    assert name[|stem|] == '.' && name[|stem| + 1..] == extension;
    assert LastDot(name) == Some(|stem|);
  }

  /** A name with no such two parts stays as it is. */
  lemma StripsNothingElse(name: string)
    ensures StripExtension(name) == name <==> forall stem, extension :: !Joins(name, stem, extension)
  {
    match LastDot(name)
    case None =>
      assert forall stem, extension :: Joins(name, stem, extension) ==> '.' in name;
    case Some(at) =>
      assert name == name[..at] + "." + name[at + 1..];
      if at > 0 && at + 1 < |name| {
        assert Joins(name, name[..at], name[at + 1..]);
      }
      forall stem, extension | Joins(name, stem, extension)
        ensures StripExtension(name) == stem
      {
        StripsExtension(stem, extension);
      }
  }

  /** What a name is looked up by: its stem, or the whole name if it has no such two parts. */
  ghost predicate IsStem(name: string, stem: string) {
    (exists extension :: Joins(name, stem, extension))
    || (stem == name && forall s, extension :: !Joins(name, s, extension))
  }

  lemma StemIs(name: string, stem: string)
    ensures IsStem(name, stem) <==> stem == StripExtension(name)
  {
    StripsNothingElse(name);
    forall s, extension | Joins(name, s, extension)
      ensures StripExtension(name) == s
    {
      StripsExtension(s, extension);
    }
  }

  predicate EndsWith(s: string, suffix: string) {
    |suffix| <= |s| && s[|s| - |suffix|..] == suffix
  }

  const MARKDOWN_SUFFIXES := [".md", ".markdown"]

  predicate IsMarkdown(fold: Folding, path: Path) {
    exists i :: 0 <= i < |MARKDOWN_SUFFIXES| && EndsWith(Casefold(fold, path), MARKDOWN_SUFFIXES[i])
  }

  // ----- folding and leaves -----

  lemma {:induction false} LeafOfName(name: string)
    requires '/' !in name
    ensures Leaf(name) == name
  {
    if name != "" {
      LeafOfName(name[..|name| - 1]);
    }
  }

  /** The last slash of a path parts its folder from its leaf. */
  lemma LeafOfPath(folder: string, name: string)
    requires '/' !in name
    ensures Leaf(folder + "/" + name) == name
  {
    LeafOfAppend(folder + "/", name);
  }

  /** Folding goes character by character. */
  lemma {:induction false} CasefoldAppend(fold: Folding, a: string, b: string)
    ensures Casefold(fold, a + b) == Casefold(fold, a) + Casefold(fold, b)
  {
    if b == "" {
      assert a + b == a;
    } else {
      var n := |b| - 1;
      assert (a + b)[..|a + b| - 1] == a + b[..n];
      CasefoldAppend(fold, a, b[..n]);
    }
  }

  lemma CasefoldOne(fold: Folding, c: char)
    ensures Casefold(fold, [c]) == fold(c)
  {
    assert [c][..0] == "";
  }

  /** Notes are the files whose folded path ends in one of the two suffixes. */
  lemma MarkdownNames(fold: Folding, path: Path)
    ensures IsMarkdown(fold, path) <==>
      exists stem :: Casefold(fold, path) == stem + ".md" || Casefold(fold, path) == stem + ".markdown"
  {
    var name := Casefold(fold, path);
    assert MARKDOWN_SUFFIXES[0] == ".md" && MARKDOWN_SUFFIXES[1] == ".markdown";
    if EndsWith(name, ".md") {
      assert name == name[..|name| - 3] + ".md";
    }
    if EndsWith(name, ".markdown") {
      assert name == name[..|name| - 9] + ".markdown";
    }
    if stem :| name == stem + ".md" || name == stem + ".markdown" {
      assert EndsWith(name, ".md") || EndsWith(name, ".markdown");
    }
  }

  lemma {:induction false} LeafOfAppend(s: string, suffix: string)
    requires '/' !in suffix
    ensures Leaf(s + suffix) == Leaf(s) + suffix
  {
    if suffix == "" {
      assert s + suffix == s;
    } else {
      var n := |suffix| - 1;
      assert (s + suffix)[..|s + suffix| - 1] == s + suffix[..n];
      LeafOfAppend(s, suffix[..n]);
      assert suffix[..n] + [suffix[n]] == suffix;
    }
  }

  /** Folding a path and taking its leaf can be done in either order. */
  lemma {:induction false} LeafOfFold(fold: Folding, s: string)
    ensures Leaf(Casefold(fold, s)) == Casefold(fold, Leaf(s))
  {
    if s != "" {
      var c := s[|s| - 1];
      var front := Casefold(fold, s[..|s| - 1]);
      if c == '/' {
        assert (front + "/")[..|front|] == front;
      } else {
        LeafOfAppend(front, fold(c));
        LeafOfFold(fold, s[..|s| - 1]);
      }
    }
  }

  // ----- the order of folded names -----

  predicate AtMost(a: string, b: string) {
    a == "" || (b != "" && if a[0] == b[0] then AtMost(a[1..], b[1..]) else a[0] < b[0])
  }

  /** A text comes before its continuations, and otherwise the first different character decides. */
  ghost predicate Precedes(a: string, b: string) {
    a <= b || exists k :: 0 <= k < |a| && k < |b| && a[..k] == b[..k] && a[k] < b[k]
  }

  lemma {:induction false} AtMostIsPrecedes(a: string, b: string)
    ensures AtMost(a, b) <==> Precedes(a, b)
  {
    if a != "" && b != "" && a[0] == b[0] {
      AtMostIsPrecedes(a[1..], b[1..]);
      if a[1..] <= b[1..] {
        assert a == [a[0]] + a[1..] && b == [a[0]] + b[1..];
      }
      if k :| 0 <= k < |a[1..]| && k < |b[1..]| && a[1..][..k] == b[1..][..k] && a[1..][k] < b[1..][k] {
        assert a[..k + 1] == [a[0]] + a[1..][..k] && b[..k + 1] == [a[0]] + b[1..][..k];
        assert a[k + 1] < b[k + 1];
      }
      if k :| 0 <= k < |a| && k < |b| && a[..k] == b[..k] && a[k] < b[k] {
        assert a[1..][..k - 1] == a[..k][1..] && b[1..][..k - 1] == b[..k][1..];
        assert a[1..][k - 1] < b[1..][k - 1];
      }
    } else if a != "" && b != "" && a[0] < b[0] {
      assert a[..0] == b[..0];
    }
  }

  predicate FoldAtMost(fold: Folding, p: Path, q: Path) {
    AtMost(Casefold(fold, p), Casefold(fold, q))
  }

  lemma {:induction false} AtMostTotal(a: string, b: string)
    ensures AtMost(a, b) || AtMost(b, a)
  {
    if a != "" && b != "" && a[0] == b[0] {
      AtMostTotal(a[1..], b[1..]);
    }
  }

  lemma {:induction false} AtMostTransitive(a: string, b: string, c: string)
    requires AtMost(a, b) && AtMost(b, c)
    ensures AtMost(a, c)
  {
    if a != "" && a[0] == b[0] == c[0] {
      AtMostTransitive(a[1..], b[1..], c[1..]);
    }
  }

  // ----- sorting paths -----

  lemma FoldOrder(fold: Folding)
    ensures IsOrder((p: Path, q: Path) => FoldAtMost(fold, p, q))
  {
    forall p: Path, q: Path
      ensures FoldAtMost(fold, p, q) || FoldAtMost(fold, q, p)
    {
      AtMostTotal(Casefold(fold, p), Casefold(fold, q));
    }
    forall p: Path, q: Path, r: Path | FoldAtMost(fold, p, q) && FoldAtMost(fold, q, r)
      ensures FoldAtMost(fold, p, r)
    {
      AtMostTransitive(Casefold(fold, p), Casefold(fold, q), Casefold(fold, r));
    }
  }

  ghost predicate InOrder(fold: Folding, paths: seq<Path>) {
    forall i, j :: 0 <= i < j < |paths| ==> FoldAtMost(fold, paths[i], paths[j])
  }

  /** Paths sorted by their folded form. */
  function SortPaths(fold: Folding, paths: seq<Path>): seq<Path> {
    Sort((p, q) => FoldAtMost(fold, p, q), paths)
  }

  /** Sorting keeps the members, once each if they were, and orders them. */
  lemma SortSpec(fold: Folding, paths: seq<Path>)
    ensures InOrder(fold, SortPaths(fold, paths)) && |SortPaths(fold, paths)| == |paths|
    ensures forall p :: p in SortPaths(fold, paths) <==> p in paths
    ensures NoRepeats(paths) ==> NoRepeats(SortPaths(fold, paths))
  {
    var atMost := (p, q) => FoldAtMost(fold, p, q);
    FoldOrder(fold);
    SortOrders(atMost, paths);
    SortKeepsAll(atMost, paths);
    if NoRepeats(paths) {
      SortKeepsDistinct(atMost, paths);
    }
  }
}
