/** The two basename maps of the index: which tracked files carry a folded file name, with and without extension. */
module Basenames {
  import opened Base
  import opened Names
  import opened Sorting

  type Buckets = map<string, seq<Path>>

  /** `Full` lists every file under its whole name, `Stem` Markdown files under their name without extension. */
  datatype Which = Full | Stem

  predicate Listed(fold: Folding, which: Which, path: Path) {
    which.Full? || IsMarkdown(fold, path)
  }

  function Key(fold: Folding, which: Which, path: Path): string {
    match which
    case Full => Casefold(fold, Leaf(path))
    case Stem => Casefold(fold, StripExtension(Leaf(path)))
  }

  function Bucket(m: Buckets, key: string): seq<Path> {
    if key in m then m[key] else []
  }

  ghost predicate BucketHolds(fold: Folding, which: Which, bucket: seq<Path>, key: string, files: set<Path>) {
    && bucket != [] && NoRepeats(bucket) && InOrder(fold, bucket)
    && forall p :: p in bucket ==> p in files && Listed(fold, which, p) && Key(fold, which, p) == key
  }

  /** The map holds exactly the listed files, each in the bucket of its key; no bucket is empty. */
  ghost predicate Indexes(fold: Folding, which: Which, m: Buckets, files: set<Path>) {
    && (forall p :: p in files && Listed(fold, which, p) ==> p in Bucket(m, Key(fold, which, p)))
    && forall key :: key in m ==> BucketHolds(fold, which, m[key], key, files)
  }

  function Without(s: seq<Path>, path: Path): seq<Path> {
    if s == [] then []
    else Without(s[..|s| - 1], path) + if s[|s| - 1] == path then [] else [s[|s| - 1]]
  }

  lemma {:induction false} WithoutMembers(s: seq<Path>, path: Path)
    ensures forall p :: p in Without(s, path) <==> p in s && p != path
  {
    if s != [] {
      WithoutMembers(s[..|s| - 1], path);
      assert s == s[..|s| - 1] + [s[|s| - 1]];
    }
  }

  lemma {:induction false} WithoutKeeps(fold: Folding, s: seq<Path>, path: Path)
    ensures NoRepeats(s) ==> NoRepeats(Without(s, path))
    ensures InOrder(fold, s) ==> InOrder(fold, Without(s, path))
  {
    if s != [] {
      var n := |s| - 1;
      var front := Without(s[..n], path);
      WithoutKeeps(fold, s[..n], path);
      WithoutMembers(s[..n], path);
      forall i | 0 <= i < |front|
        ensures exists k :: 0 <= k < n && s[k] == front[i]
      {
        assert front[i] in s[..n];
      }
    }
  }

  /** The maps a file set gives are determined up to the order of names that fold alike. */
  lemma SameBuckets(fold: Folding, which: Which, a: Buckets, b: Buckets, files: set<Path>)
    requires Indexes(fold, which, a, files) && Indexes(fold, which, b, files)
    ensures a.Keys == b.Keys
    ensures forall key :: key in a ==> forall p :: p in a[key] <==> p in b[key]
  {
    forall key, p
      ensures p in Bucket(a, key) <==> p in Bucket(b, key)
    {
    }
    forall key
      ensures key in a <==> key in b
    {
      if key in a {
        assert a[key][0] in Bucket(a, key);
      }
      if key in b {
        assert b[key][0] in Bucket(b, key);
      }
    }
    forall key, p | key in a
      ensures p in a[key] <==> p in b[key]
    {
      assert a[key] == Bucket(a, key) && b[key] == Bucket(b, key);
    }
  }

  // ----- one file more or less -----

  function WithFile(fold: Folding, which: Which, m: Buckets, path: Path): Buckets {
    var key := Key(fold, which, path);
    m[key := SortPaths(fold, Without(Bucket(m, key), path) + [path])]
  }

  function WithoutFile(fold: Folding, which: Which, m: Buckets, path: Path): Buckets {
    var key := Key(fold, which, path);
    if key !in m then m
    else if Without(m[key], path) == [] then m - {key}
    else m[key := Without(m[key], path)]
  }

  lemma NoRepeatsMore(s: seq<Path>, path: Path)
    requires NoRepeats(s) && path !in s
    ensures NoRepeats(s + [path])
  {
  }

  lemma Resorted(fold: Folding, bucket: seq<Path>, path: Path)
    requires NoRepeats(bucket)
    ensures var sorted := SortPaths(fold, Without(bucket, path) + [path]);
      && NoRepeats(sorted) && InOrder(fold, sorted) && sorted != []
      && forall p :: p in sorted <==> p == path || p in bucket
  {
    var rest := Without(bucket, path);
    WithoutMembers(bucket, path);
    WithoutKeeps(fold, bucket, path);
    NoRepeatsMore(rest, path);
    SortSpec(fold, rest + [path]);
    assert (rest + [path])[|rest|] == path;
    assert path in SortPaths(fold, rest + [path]);
  }

  lemma WithFileBucket(fold: Folding, which: Which, m: Buckets, files: set<Path>, path: Path)
    requires Indexes(fold, which, m, files) && Listed(fold, which, path)
    ensures var key := Key(fold, which, path); var bucket := WithFile(fold, which, m, path)[key];
      && BucketHolds(fold, which, bucket, key, files + {path})
      && forall p :: p in bucket <==> p == path || p in Bucket(m, key)
  {
    var key := Key(fold, which, path);
    assert key in m ==> BucketHolds(fold, which, m[key], key, files);
    Resorted(fold, Bucket(m, key), path);
  }

  /** Adding a file changes one bucket only. */
  lemma PutBucket(fold: Folding, which: Which, m: Buckets, files: set<Path>, path: Path, bucket: seq<Path>)
    requires Indexes(fold, which, m, files) && BucketHolds(fold, which, bucket, Key(fold, which, path), files + {path})
    requires forall p :: p in bucket <==> p == path || p in Bucket(m, Key(fold, which, path))
    ensures Indexes(fold, which, m[Key(fold, which, path) := bucket], files + {path})
  {
    var more := m[Key(fold, which, path) := bucket];
    forall k | k in more && k != Key(fold, which, path)
      ensures BucketHolds(fold, which, more[k], k, files + {path})
    {
      assert BucketHolds(fold, which, m[k], k, files);
    }
  }

  lemma WithFileIndexes(fold: Folding, which: Which, m: Buckets, files: set<Path>, path: Path)
    requires Indexes(fold, which, m, files) && Listed(fold, which, path)
    ensures Indexes(fold, which, WithFile(fold, which, m, path), files + {path})
  {
    WithFileBucket(fold, which, m, files, path);
    PutBucket(fold, which, m, files, path, WithFile(fold, which, m, path)[Key(fold, which, path)]);
  }

  lemma WithoutFileIndexes(fold: Folding, which: Which, m: Buckets, files: set<Path>, path: Path)
    requires Indexes(fold, which, m, files)
    ensures Indexes(
      fold, which, if Listed(fold, which, path) then WithoutFile(fold, which, m, path) else m, files - {path})
  {
    hide Key, Listed, Without, InOrder;
    var key := Key(fold, which, path);
    WithoutMembers(Bucket(m, key), path);
    WithoutKeeps(fold, Bucket(m, key), path);
    var less := if Listed(fold, which, path) then WithoutFile(fold, which, m, path) else m;
    forall k | k in less
      ensures BucketHolds(fold, which, less[k], k, files - {path})
    {
      assert BucketHolds(fold, which, m[k], k, files);
    }
    forall p | p in files - {path} && Listed(fold, which, p)
      ensures p in Bucket(less, Key(fold, which, p))
    {
      assert p in Bucket(m, Key(fold, which, p));
    }
  }

  lemma UnlistedIndexes(fold: Folding, which: Which, m: Buckets, files: set<Path>, path: Path)
    requires Indexes(fold, which, m, files) && !Listed(fold, which, path)
    ensures Indexes(fold, which, m, files + {path})
  {
    forall k | k in m
      ensures BucketHolds(fold, which, m[k], k, files + {path})
    {
    }
  }

  // ----- building from a listing -----

  function Appended(fold: Folding, which: Which, m: Buckets, path: Path): Buckets {
    var key := Key(fold, which, path);
    m[key := Bucket(m, key) + [path]]
  }

  /** Every path in the map sorts at or before `path`. */
  ghost predicate AllAtMost(fold: Folding, m: Buckets, path: Path) {
    forall key, p :: key in m && p in m[key] ==> FoldAtMost(fold, p, path)
  }

  lemma OrderedMore(fold: Folding, bucket: seq<Path>, path: Path)
    requires NoRepeats(bucket) && InOrder(fold, bucket)
    requires forall p :: p in bucket ==> p != path && FoldAtMost(fold, p, path)
    ensures NoRepeats(bucket + [path]) && InOrder(fold, bucket + [path])
  {
    assert forall i :: 0 <= i < |bucket| ==> bucket[i] in bucket;
  }

  lemma AppendIndexes(fold: Folding, which: Which, m: Buckets, files: set<Path>, path: Path)
    requires Indexes(fold, which, m, files) && Listed(fold, which, path) && path !in files && AllAtMost(fold, m, path)
    ensures Indexes(fold, which, Appended(fold, which, m, path), files + {path})
  {
    var key := Key(fold, which, path);
    assert key in m ==> BucketHolds(fold, which, m[key], key, files);
    OrderedMore(fold, Bucket(m, key), path);
    assert (Bucket(m, key) + [path])[|Bucket(m, key)|] == path;
    PutBucket(fold, which, m, files, path, Bucket(m, key) + [path]);
  }

  function Elements(s: seq<Path>): set<Path> {
    set p | p in s
  }

  /** Files one by one in sorted order, each appended to its buckets. */
  method BuildMaps(fold: Folding, files: seq<Path>) returns (full: Buckets, stem: Buckets)
    requires InOrder(fold, files) && NoRepeats(files)
    ensures Indexes(fold, Full, full, Elements(files)) && Indexes(fold, Stem, stem, Elements(files))
  {
    full, stem := map[], map[];
    for i := 0 to |files|
      invariant Indexes(fold, Full, full, Elements(files[..i])) && Indexes(fold, Stem, stem, Elements(files[..i]))
    {
      AppendNext(fold, Full, full, files, i);
      AppendNext(fold, Stem, stem, files, i);
      full := Appended(fold, Full, full, files[i]);
      if IsMarkdown(fold, files[i]) {
        stem := Appended(fold, Stem, stem, files[i]);
      }
    }
    assert files[..|files|] == files;
  }

  lemma AppendNext(fold: Folding, which: Which, m: Buckets, files: seq<Path>, i: nat)
    requires InOrder(fold, files) && NoRepeats(files) && i < |files|
    requires Indexes(fold, which, m, Elements(files[..i]))
    ensures Indexes(
      fold, which, if Listed(fold, which, files[i]) then Appended(fold, which, m, files[i]) else m,
      Elements(files[..i + 1]))
  {
    var path, seen := files[i], Elements(files[..i]);
    assert Elements(files[..i + 1]) == seen + {path} by {
      assert files[..i + 1] == files[..i] + [path];
    }
    if Listed(fold, which, path) {
      forall key, p | key in m && p in m[key]
        ensures FoldAtMost(fold, p, path)
      {
        assert p in seen;
      }
      AppendIndexes(fold, which, m, seen, path);
    } else {
      UnlistedIndexes(fold, which, m, seen, path);
    }
  }
}
