/** Note rows with their resolved links, and the materialised table of who links to whom. */
module Backlinks {
  import opened Base
  import opened LinkResolution

  datatype LinkRow = LinkRow(ref: Ref, resolution: Resolution)

  datatype Note = Note(sha256: Digest, links: seq<LinkRow>)

  type Notes = map<Path, Note>

  /** Keyed by target and source; the value is the context of the link that was inserted first. */
  type Table = map<(Path, Path), Option<string>>

  predicate PointsAt(row: LinkRow, target: Path) {
    row.resolution.resolved == Some(target)
  }

  /** Some link among the rows resolves to `target`, with this context. */
  ghost predicate LinksWith(links: seq<LinkRow>, target: Path, context: Option<string>) {
    exists i :: 0 <= i < |links| && PointsAt(links[i], target) && links[i].ref.context == context
  }

  ghost predicate LinksTo(links: seq<LinkRow>, target: Path) {
    exists i :: 0 <= i < |links| && PointsAt(links[i], target)
  }

  /** The backlink rows of one source are its resolved links to other notes. */
  ghost predicate SourceHolds(table: Table, source: Path, links: seq<LinkRow>) {
    && (forall target :: (target, source) in table <==> target != source && LinksTo(links, target))
    && forall target :: (target, source) in table ==> LinksWith(links, target, table[(target, source)])
  }

  function LinksOf(notes: Notes, source: Path): seq<LinkRow> {
    if source in notes then notes[source].links else []
  }

  /** The table holds exactly the pairs of link rows resolved to another path. */
  ghost predicate TableHolds(table: Table, notes: Notes) {
    forall source :: SourceHolds(table, source, LinksOf(notes, source))
  }

  /** The rows of one source leave with their note. */
  function Cascade(table: Table, source: Path): Table {
    map key | key in table && key.1 != source :: table[key]
  }

  /** Inserts the pairs of one source's links, keeping rows that are there already. */
  method InsertOutgoing(table: Table, source: Path, links: seq<LinkRow>) returns (more: Table)
    requires forall target :: (target, source) !in table
    ensures SourceHolds(more, source, links)
    ensures Cascade(more, source) == table
  {
    more := table;
    for i := 0 to |links|
      invariant SourceHolds(more, source, links[..i])
      invariant forall key: (Path, Path) :: key.1 != source ==>
        (key in more <==> key in table) && (key in table ==> more[key] == table[key])
    {
      var resolved := links[i].resolution.resolved;
      ghost var before := more;
      if resolved.Some? && resolved.value != source && (resolved.value, source) !in more {
        more := more[(resolved.value, source) := links[i].ref.context];
      }
      OneMoreLink(before, more, source, links, i);
    }
    assert links[..|links|] == links;
  }

  lemma OneMoreLink(before: Table, after: Table, source: Path, links: seq<LinkRow>, i: nat)
    requires i < |links| && SourceHolds(before, source, links[..i])
    requires var resolved := links[i].resolution.resolved;
      after ==
      if resolved.Some? && resolved.value != source && (resolved.value, source) !in before
      then before[(resolved.value, source) := links[i].ref.context] else before
    ensures SourceHolds(after, source, links[..i + 1])
  {
    forall target
      ensures LinksTo(links[..i + 1], target) <==> LinksTo(links[..i], target) || PointsAt(links[i], target)
    {
      LinksToMore(links, i, target);
    }
    forall target | (target, source) in after
      ensures LinksWith(links[..i + 1], target, after[(target, source)])
    {
      if (target, source) in before {
        LinksWithMore(links, i, target, before[(target, source)]);
      } else {
        assert links[..i + 1][i] == links[i];
      }
    }
  }

  lemma LinksToMore(links: seq<LinkRow>, i: nat, target: Path)
    requires i < |links|
    ensures LinksTo(links[..i + 1], target) <==> LinksTo(links[..i], target) || PointsAt(links[i], target)
  {
    assert links[..i + 1][i] == links[i];
    if LinksTo(links[..i], target) {
      var k :| 0 <= k < i && PointsAt(links[..i][k], target);
      assert links[..i + 1][k] == links[..i][k];
    }
    var more := links[..i + 1];
    if k :| 0 <= k < |more| && PointsAt(more[k], target) {
      assert k < i ==> links[..i][k] == more[k];
    }
  }

  lemma LinksWithMore(links: seq<LinkRow>, i: nat, target: Path, context: Option<string>)
    requires i < |links| && LinksWith(links[..i], target, context)
    ensures LinksWith(links[..i + 1], target, context)
  {
    var k :| 0 <= k < i && PointsAt(links[..i][k], target) && links[..i][k].ref.context == context;
    assert links[..i + 1][k] == links[..i][k];
  }

  // ----- one note more or less -----

  lemma CascadeHolds(table: Table, notes: Notes, source: Path)
    requires TableHolds(table, notes)
    ensures TableHolds(Cascade(table, source), notes - {source})
    ensures forall target :: (target, source) !in Cascade(table, source)
  {
    forall s
      ensures SourceHolds(Cascade(table, source), s, LinksOf(notes - {source}, s))
    {
      assert SourceHolds(table, s, LinksOf(notes, s));
    }
  }

  lemma InsertHolds(table: Table, notes: Notes, source: Path, note: Note, more: Table)
    requires TableHolds(table, notes) && source !in notes
    requires SourceHolds(more, source, note.links) && Cascade(more, source) == table
    ensures TableHolds(more, notes[source := note])
  {
    var after := notes[source := note];
    forall s
      ensures SourceHolds(more, s, LinksOf(after, s))
    {
      if s != source {
        assert SourceHolds(table, s, LinksOf(notes, s));
        assert forall target :: (target, s) in more <==> (target, s) in table;
      }
    }
  }

  /** All notes at once, as a rebuild does it. */
  method Materialize(notes: Notes) returns (table: Table)
    ensures TableHolds(table, notes)
  {
    table := map[];
    var rest := notes.Keys;
    ghost var done: Notes := map[];
    while rest != {}
      invariant rest <= notes.Keys && done.Keys == notes.Keys - rest
      invariant forall s :: s in done ==> done[s] == notes[s]
      invariant TableHolds(table, done)
      decreases |rest|
    {
      var source :| source in rest;
      rest := rest - {source};
      assert SourceHolds(table, source, LinksOf(done, source));
      var more := InsertOutgoing(table, source, notes[source].links);
      InsertHolds(table, done, source, notes[source], more);
      table, done := more, done[source := notes[source]];
    }
    assert done == notes;
  }

  // ----- the query -----

  /** Row `seqNo` of `source` resolves to `path`, and `source` is another note. */
  ghost predicate IsBacklink(notes: Notes, path: Path, source: Path, seqNo: nat) {
    && source in notes && source != path && seqNo < |notes[source].links|
    && PointsAt(notes[source].links[seqNo], path)
  }

  /** The link rows of one source that resolve to `path`, in order. */
  method RowsOf(source: Path, links: seq<LinkRow>, path: Path) returns (found: seq<(Path, nat)>)
    ensures forall s, k: nat :: (s, k) in found <==> s == source && k < |links| && PointsAt(links[k], path)
    ensures forall a, b :: 0 <= a < b < |found| ==> found[a].1 < found[b].1
  {
    found := [];
    for i := 0 to |links|
      invariant forall s, k: nat :: (s, k) in found <==> s == source && k < i && PointsAt(links[k], path)
      invariant forall a, b :: 0 <= a < b < |found| ==> found[a].1 < found[b].1
      invariant forall a :: 0 <= a < |found| ==> found[a].1 < i
    {
      if PointsAt(links[i], path) {
        found := found + [(source, i)];
      }
    }
  }

  /** `result` lists the backlinks that come from the sources in `from`, each once. */
  ghost predicate Lists(notes: Notes, path: Path, from: set<Path>, result: seq<(Path, nat)>) {
    && (forall source, seqNo: nat ::
          (source, seqNo) in result <==> source in from && IsBacklink(notes, path, source, seqNo))
    && forall a, b :: 0 <= a < b < |result| ==> result[a] != result[b]
  }

  lemma ListsMore(
    notes: Notes, path: Path, from: set<Path>, result: seq<(Path, nat)>, source: Path, found: seq<(Path, nat)>)
    requires Lists(notes, path, from, result) && source !in from && source in notes && source != path
    requires forall s, k: nat ::
      (s, k) in found <==> s == source && k < |notes[source].links| && PointsAt(notes[source].links[k], path)
    requires forall a, b :: 0 <= a < b < |found| ==> found[a].1 < found[b].1
    ensures Lists(notes, path, from + {source}, result + found)
  {
    forall a, b | 0 <= a < |result| && 0 <= b < |found|
      ensures result[a].0 != found[b].0
    {
      assert (result[a].0, result[a].1) in result;
      assert (found[b].0, found[b].1) in found;
    }
  }

  /** Through the table, the query finds exactly what a scan of all link rows would, each row once. */
  method BacklinkSources(table: Table, notes: Notes, path: Path) returns (result: seq<(Path, nat)>)
    requires TableHolds(table, notes)
    ensures forall source, seqNo: nat :: (source, seqNo) in result <==> IsBacklink(notes, path, source, seqNo)
    ensures forall a, b :: 0 <= a < b < |result| ==> result[a] != result[b]
  {
    result := [];
    ghost var from: set<Path> := {};
    var rest := set key | key in table && key.0 == path :: key.1;
    forall source
      ensures source in rest <==> source != path && LinksTo(LinksOf(notes, source), path)
    {
      assert SourceHolds(table, source, LinksOf(notes, source));
      assert source in rest <==> (path, source) in table;
    }
    while rest != {}
      invariant forall source ::
        source in rest || source in from <==> source != path && LinksTo(LinksOf(notes, source), path)
      invariant rest !! from && Lists(notes, path, from, result)
      decreases |rest|
    {
      var source :| source in rest;
      rest := rest - {source};
      var found := RowsOf(source, notes[source].links, path);
      ListsMore(notes, path, from, result, source, found);
      from := from + {source};
      result := result + found;
    }
    forall source, seqNo: nat | IsBacklink(notes, path, source, seqNo)
      ensures source in from
    {
      assert LinksTo(LinksOf(notes, source), path);
    }
  }
}
