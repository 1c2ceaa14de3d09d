/** Resolving a wikilink through the basename maps, against a scan of all tracked files. */
module LinkResolution {
  import opened Base
  import opened Names
  import opened Sorting
  import opened Strings
  import opened Basenames

  datatype LinkKind = Wikilink | Embed | Web

  /** A parsed reference; `section` and `block` are its anchors. */
  datatype Ref = Ref(
    kind: LinkKind, target: string, section: Option<string>, block: Option<string>, context: Option<string>)

  datatype Resolution = Resolution(resolved: Option<Path>, broken: bool, ambiguous: bool, candidates: seq<Path>)

  /** A name as it stands, or with a Markdown suffix. */
  function Variants(name: string): seq<string> {
    [name, name + ".md", name + ".markdown"]
  }

  /** What a scan of all files would accept for a target. */
  ghost predicate Matches(fold: Folding, target: string, path: Path) {
    if '/' in target then
      || Casefold(fold, path) == Casefold(fold, target)
      || Casefold(fold, path) == Casefold(fold, target) + ".md"
      || Casefold(fold, path) == Casefold(fold, target) + ".markdown"
    else
      || Casefold(fold, Leaf(path)) == Casefold(fold, target)
      || (IsMarkdown(fold, path) && SameStem(fold, Leaf(path), target))
  }

  /** Up to their last dots the names fold to the same. */
  ghost predicate SameStem(fold: Folding, name: string, target: string) {
    exists s, t :: IsStem(name, s) && IsStem(target, t) && Casefold(fold, s) == Casefold(fold, t)
  }

  lemma SameStemIs(fold: Folding, name: string, target: string)
    ensures SameStem(fold, name, target) <==>
      Casefold(fold, StripExtension(name)) == Casefold(fold, StripExtension(target))
  {
    StemIs(name, StripExtension(name));
    StemIs(target, StripExtension(target));
    forall s, t | IsStem(name, s) && IsStem(target, t)
      ensures s == StripExtension(name) && t == StripExtension(target)
    {
      StemIs(name, s);
      StemIs(target, t);
    }
  }

  /** Besides itself, a whole name finds only notes whose name up to the last dot folds to the same. */
  lemma OtherStems(fold: Folding, target: string, path: Path, stem: string, extension: string, s: string, e: string)
    requires '/' !in target && Joins(target, stem, extension) && Joins(Leaf(path), s, e)
    requires Matches(fold, target, path) && Casefold(fold, Leaf(path)) != Casefold(fold, target)
    ensures IsMarkdown(fold, path) && Casefold(fold, s) == Casefold(fold, stem)
  {
    SameStemIs(fold, Leaf(path), target);
    StripsExtension(stem, extension);
    StripsExtension(s, e);
  }

  /** The first of the candidates in folded order, and whether there were none or several. */
  ghost predicate Picks(fold: Folding, candidates: set<Path>, r: Resolution) {
    && (r.broken <==> candidates == {})
    && (r.ambiguous <==> |candidates| > 1)
    && (r.resolved.Some? <==> candidates != {})
    && (r.resolved.Some? ==>
          && r.resolved.value in candidates
          && forall p :: p in candidates ==> FoldAtMost(fold, r.resolved.value, p))
    && (if r.ambiguous
        then InOrder(fold, r.candidates) && NoRepeats(r.candidates) && Elements(r.candidates) == candidates
        else r.candidates == [])
  }

  ghost function Scan(fold: Folding, target: string, files: set<Path>): set<Path> {
    set p | p in files && Matches(fold, target, p)
  }

  /** A reference resolved against a set of files. */
  ghost predicate Resolves(fold: Folding, source: Path, ref: Ref, files: set<Path>, r: Resolution) {
    if ref.kind.Web? then r == Resolution(None, false, false, [])
    else if Strip(ref.target) == "" then
      if ref.section.Some? || ref.block.Some? then r == Resolution(Some(source), false, false, [])
      else r == Resolution(None, true, false, [])
    else Picks(fold, Scan(fold, Strip(ref.target), files), r)
  }

  // ----- the lookups find what the scan finds -----

  lemma VariantLeaf(fold: Folding, target: string, path: Path, k: nat)
    requires k < 3 && Casefold(fold, path) == Variants(Casefold(fold, target))[k]
    ensures Casefold(fold, Leaf(path)) == Variants(Casefold(fold, Leaf(target)))[k]
  {
    LeafOfFold(fold, path);
    LeafOfFold(fold, target);
    LeafOfAppend(Casefold(fold, target), ".md");
    LeafOfAppend(Casefold(fold, target), ".markdown");
  }

  /** A file with a matching whole path has a matching leaf, so its bucket is looked at. */
  lemma MatchIsInBucket(fold: Folding, target: string, full: Buckets, files: set<Path>, path: Path) returns (k: nat)
    requires Indexes(fold, Full, full, files) && path in files
    requires Casefold(fold, path) in Variants(Casefold(fold, target))
    ensures k < 3 && path in Bucket(full, Variants(Casefold(fold, Leaf(target)))[k])
  {
    k :| 0 <= k < 3 && Casefold(fold, path) == Variants(Casefold(fold, target))[k];
    VariantLeaf(fold, target, path, k);
    assert path in Bucket(full, Key(fold, Full, path));
  }

  lemma BucketIsTracked(fold: Folding, which: Which, m: Buckets, files: set<Path>, key: string, path: Path)
    requires Indexes(fold, which, m, files)
    ensures path in Bucket(m, key) <==> path in files && Listed(fold, which, path) && Key(fold, which, path) == key
  {
  }

  /** The candidates of a target with a slash: same leaf, then same whole path. */
  method SlashCandidates(fold: Folding, target: string, full: Buckets, ghost files: set<Path>)
    returns (candidates: set<Path>)
    requires Indexes(fold, Full, full, files) && '/' in target
    ensures candidates == Scan(fold, target, files)
  {
    candidates := {};
    var variants := Variants(Casefold(fold, target));
    var leaves := Variants(Casefold(fold, Leaf(target)));
    for i := 0 to |leaves|
      invariant forall p :: p in candidates ==> p in Scan(fold, target, files)
      invariant forall p, k :: 0 <= k < i && p in Bucket(full, leaves[k]) && Casefold(fold, p) in variants ==>
        p in candidates
    {
      var bucket := Bucket(full, leaves[i]);
      forall p | p in bucket
        ensures p in files
      {
        BucketIsTracked(fold, Full, full, files, leaves[i], p);
      }
      candidates := candidates + set p | p in bucket && Casefold(fold, p) in variants;
    }
    forall p | p in Scan(fold, target, files)
      ensures p in candidates
    {
      var k := MatchIsInBucket(fold, target, full, files, p);
    }
  }

  /** The candidates of a plain target: whole name, or name without extension among Markdown files. */
  method PlainCandidates(fold: Folding, target: string, full: Buckets, stem: Buckets, ghost files: set<Path>)
    returns (candidates: set<Path>)
    requires Indexes(fold, Full, full, files) && Indexes(fold, Stem, stem, files) && '/' !in target
    ensures candidates == Scan(fold, target, files)
  {
    var key, stemKey := Casefold(fold, target), Casefold(fold, StripExtension(target));
    candidates := Elements(Bucket(full, key)) + Elements(Bucket(stem, stemKey));
    forall p
      ensures p in candidates <==> p in Scan(fold, target, files)
    {
      BucketIsTracked(fold, Full, full, files, key, p);
      BucketIsTracked(fold, Stem, stem, files, stemKey, p);
      SameStemIs(fold, Leaf(p), target);
    }
  }

  /** The members of a set in some order. */
  method Listing(files: set<Path>) returns (list: seq<Path>)
    ensures NoRepeats(list) && Elements(list) == files && |list| == |files|
  {
    list := [];
    var rest := files;
    while rest != {}
      invariant rest <= files && NoRepeats(list) && Elements(list) == files - rest && |list| + |rest| == |files|
      decreases |rest|
    {
      var p :| p in rest;
      rest := rest - {p};
      assert p !in Elements(list);
      assert Elements(list + [p]) == Elements(list) + {p};
      list := list + [p];
    }
  }

  /** Resolution through the maps answers what a scan of the tracked files would. */
  method ResolveRef(fold: Folding, source: Path, ref: Ref, full: Buckets, stem: Buckets, ghost files: set<Path>)
    returns (r: Resolution)
    requires Indexes(fold, Full, full, files) && Indexes(fold, Stem, stem, files)
    ensures Resolves(fold, source, ref, files, r)
  {
    if ref.kind.Web? {
      return Resolution(None, false, false, []);
    }
    var target := Strip(ref.target);
    if target == "" {
      return if ref.section.Some? || ref.block.Some? then Resolution(Some(source), false, false, [])
             else Resolution(None, true, false, []);
    }
    var candidates;
    if '/' in target {
      candidates := SlashCandidates(fold, target, full, files);
    } else {
      candidates := PlainCandidates(fold, target, full, stem, files);
    }
    if candidates == {} {
      return Resolution(None, true, false, []);
    }
    var list := Listing(candidates);
    var sorted := SortPaths(fold, list);
    FirstIsLeast(fold, list);
    r := Resolution(Some(sorted[0]), false, |sorted| > 1, if |sorted| > 1 then sorted else []);
  }

  lemma FirstIsLeast(fold: Folding, list: seq<Path>)
    requires list != [] && NoRepeats(list)
    ensures var sorted := SortPaths(fold, list);
      && |sorted| == |list| && Elements(sorted) == Elements(list) && NoRepeats(sorted) && InOrder(fold, sorted)
      && sorted[0] in Elements(list) && forall p :: p in Elements(list) ==> FoldAtMost(fold, sorted[0], p)
  {
    var sorted := SortPaths(fold, list);
    SortSpec(fold, list);
    assert sorted[0] in sorted;
    forall p | p in Elements(list)
      ensures FoldAtMost(fold, sorted[0], p)
    {
      var i :| 0 <= i < |sorted| && sorted[i] == p;
      if i == 0 {
        AtMostTotal(Casefold(fold, p), Casefold(fold, p));
      }
    }
  }
}
