/** The derived index of one vault: debounced watcher events, note rows, basename maps, backlinks. */
module DerivedIndex {
  import opened Base
  import opened Names
  import opened Sorting
  import opened Basenames
  import opened LinkResolution
  import opened Backlinks
  import opened Watching

  /** The references in a note's bytes; none when they are not UTF-8 text. */
  type Parser = Bytes -> seq<Ref>

  /** The note row is the parse of these bytes, each reference resolved against these files. */
  ghost predicate EntryOf(fold: Folding, parse: Parser, path: Path, data: Bytes, files: set<Path>, note: Note) {
    && note.sha256 == Sha256(data) && |note.links| == |parse(data)|
    && forall i :: 0 <= i < |note.links| ==>
         note.links[i].ref == parse(data)[i] && Resolves(fold, path, parse(data)[i], files, note.links[i].resolution)
  }

  function DigestAt(notes: Notes, p: Path): Option<Digest> {
    if p in notes then Some(notes[p].sha256) else None
  }

  /** What a rebuild would store for a path. */
  function Expected(fold: Folding, disk: Disk, p: Path): Option<Digest> {
    if IsMarkdown(fold, p) && IsReadable(disk, p) then Some(Sha256(disk[p].data)) else None
  }

  /** The index is right about a path: its digest, and that it is tracked when readable, not when absent. */
  ghost predicate Agrees(fold: Folding, disk: Disk, notes: Notes, tracked: set<Path>, p: Path) {
    && DigestAt(notes, p) == Expected(fold, disk, p)
    && (IsReadable(disk, p) ==> p in tracked)
    && (p !in disk ==> p !in tracked)
  }

  /** Right about a path now, or due to look at it again. */
  ghost predicate Settled(fold: Folding, s: Scene, notes: Notes, tracked: set<Path>, waiting: set<Path>, p: Path) {
    Agrees(fold, s.disk, notes, tracked, p) || p in waiting || Mentioned(s.owed, p)
  }

  /** The watcher's notes are the index's. */
  ghost predicate KnowsNotes(fold: Folding, s: Scene) {
    forall p :: s.isNote(p) <==> IsMarkdown(fold, p)
  }

  ghost predicate AllSettled(
    fold: Folding, s: Scene, notes: Notes, tracked: set<Path>, waiting: set<Path>, except: set<Path>)
  {
    MovesSafe(s) && KnowsNotes(fold, s) && forall p :: p !in except ==> Settled(fold, s, notes, tracked, waiting, p)
  }

  lemma SettledFollows(
    fold: Folding, a: Scene, b: Scene, notes: Notes, tracked: set<Path>, waiting: set<Path>, except: set<Path>)
    requires AllSettled(fold, a, notes, tracked, waiting, except) && Follows(a, b)
    ensures AllSettled(fold, b, notes, tracked, waiting, except)
  {
    forall p | p !in except
      ensures Settled(fold, b, notes, tracked, waiting, p)
    {
      assert Settled(fold, a, notes, tracked, waiting, p);
      if At(a.disk, p) == At(b.disk, p) {
        assert Agrees(fold, a.disk, notes, tracked, p) ==> Agrees(fold, b.disk, notes, tracked, p);
      }
    }
  }

  /** Only `path` differs between the two. */
  ghost predicate OnlyAt(path: Path, notes: Notes, tracked: set<Path>, notes': Notes, tracked': set<Path>) {
    forall p :: p != path ==> DigestAt(notes', p) == DigestAt(notes, p) && (p in tracked' <==> p in tracked)
  }

  /** Only `path` changed in the index, and it is settled. */
  lemma SettleOne(
    fold: Folding, s: Scene, notes: Notes, tracked: set<Path>, notes': Notes, tracked': set<Path>, waiting: set<Path>,
    except: set<Path>, path: Path)
    requires AllSettled(fold, s, notes, tracked, waiting, except + {path})
    requires OnlyAt(path, notes, tracked, notes', tracked')
    requires Settled(fold, s, notes', tracked', waiting, path)
    ensures AllSettled(fold, s, notes', tracked', waiting, except)
  {
    forall p | p !in except
      ensures Settled(fold, s, notes', tracked', waiting, p)
    {
      assert p != path ==> Settled(fold, s, notes, tracked, waiting, p);
    }
  }

  /**
    The index is right: its digests are those of the readable Markdown files, as a rebuild would store
    them, and if every file can be read, exactly the files on disk are tracked.
  */
  ghost predicate UpToDate(fold: Folding, disk: Disk, notes: Notes, tracked: set<Path>) {
    && (forall p :: DigestAt(notes, p) == Expected(fold, disk, p))
    && ((forall p :: p in disk ==> IsReadable(disk, p)) ==> tracked == disk.Keys)
  }

  /** With nothing owed and nothing waiting, the index is right about every path. */
  lemma QuietIsRight(fold: Folding, s: Scene, notes: Notes, tracked: set<Path>, waiting: set<Path>)
    requires AllSettled(fold, s, notes, tracked, waiting, {}) && s.owed == [] && waiting == {}
    ensures UpToDate(fold, s.disk, notes, tracked)
  {
    forall p
      ensures Agrees(fold, s.disk, notes, tracked, p) && DigestAt(notes, p) == Expected(fold, s.disk, p)
    {
      assert Settled(fold, s, notes, tracked, waiting, p);
    }
    forall p
      ensures (forall q :: q in s.disk ==> IsReadable(s.disk, q)) ==> (p in tracked <==> p in s.disk)
    {
      assert Agrees(fold, s.disk, notes, tracked, p);
    }
  }

  /** A listed file that has been looked at is settled. */
  lemma ListedSettles(
    fold: Folding, listed: Scene, s: Scene, notes: Notes, notes': Notes, tracked: set<Path>, waiting: set<Path>,
    rest: set<Path>, path: Path)
    requires path in listed.disk && path in tracked && Follows(listed, s)
    requires AllSettled(fold, s, notes, tracked, waiting, rest + {path})
    requires OnlyAt(path, notes, tracked, notes', tracked) && DigestAt(notes', path) == Expected(fold, s.disk, path)
    ensures AllSettled(fold, s, notes', tracked, waiting, rest)
  {
    assert path !in s.disk ==> At(s.disk, path) != At(listed.disk, path);
    assert Settled(fold, s, notes', tracked, waiting, path);
    SettleOne(fold, s, notes, tracked, notes', tracked, waiting, rest, path);
  }

  /** Right after the listing, only the listed files are unsettled. */
  lemma ListingSettles(fold: Folding, s: Scene, waiting: set<Path>)
    requires MovesSafe(s) && KnowsNotes(fold, s)
    ensures AllSettled(fold, s, map[], s.disk.Keys, waiting, s.disk.Keys)
  {
    forall p | p !in s.disk.Keys
      ensures Agrees(fold, s.disk, map[], s.disk.Keys, p)
    {
    }
  }

  lemma WaitingSettles(fold: Folding, s: Scene, notes: Notes, tracked: set<Path>, waiting: set<Path>, path: Path)
    requires AllSettled(fold, s, notes, tracked, waiting, {path})
    ensures AllSettled(fold, s, notes, tracked, waiting + {path}, {})
  {
    forall p
      ensures Settled(fold, s, notes, tracked, waiting + {path}, p)
    {
      assert p != path ==> Settled(fold, s, notes, tracked, waiting, p);
    }
  }

  /** What indexing a path did, given the disk as it was read: an unreadable note changes nothing. */
  ghost predicate Created(
    fold: Folding, disk: Disk, notes: Notes, tracked: set<Path>, notes': Notes, tracked': set<Path>, path: Path)
  {
    if !IsMarkdown(fold, path) then notes' == notes && tracked' == tracked + {path}
    else if IsReadable(disk, path) then
      && tracked' == tracked + {path} && path in notes' && notes' == notes[path := notes'[path]]
      && notes'[path].sha256 == Sha256(disk[path].data)
    else notes' == notes && tracked' == tracked
  }

  /** What handling a move did; an empty path stands for a missing one. */
  ghost predicate MovedTo(
    fold: Folding, disk: Disk, notes: Notes, tracked: set<Path>, notes': Notes, tracked': set<Path>, source: Path,
      target: Path)
  {
    var gone := if source == "" then {} else {source};
    if target == "" then notes' == notes - gone && tracked' == tracked - gone
    else Created(fold, disk, notes - gone, tracked - gone, notes', tracked', target)
  }

  lemma CreatedOnlyAt(
    fold: Folding, disk: Disk, notes: Notes, tracked: set<Path>, notes': Notes, tracked': set<Path>, path: Path)
    requires Created(fold, disk, notes, tracked, notes', tracked', path)
    ensures OnlyAt(path, notes, tracked, notes', tracked')
    ensures IsReadable(disk, path) ==> path in tracked'
    ensures IsMarkdown(fold, path) && IsReadable(disk, path) ==> DigestAt(notes', path) == Some(Sha256(disk[path].data))
    ensures !IsMarkdown(fold, path) ==> DigestAt(notes', path) == DigestAt(notes, path)
  {
    hide IsMarkdown;
    assert forall p :: p != path ==> (p in notes' <==> p in notes) && (p in notes ==> notes'[p] == notes[p]);
  }

  lemma CreatedSettles(
    fold: Folding, s: Scene, notes: Notes, tracked: set<Path>, notes': Notes, tracked': set<Path>, waiting: set<Path>,
      path: Path)
    requires AllSettled(fold, s, notes, tracked, waiting, {path})
    requires notes.Keys <= tracked && forall p :: p in notes ==> IsMarkdown(fold, p)
    requires Created(fold, s.disk, notes, tracked, notes', tracked', path)
    requires !s.Lands(path) ==> Mentioned(s.owed, path)
    ensures AllSettled(fold, s, notes', tracked', waiting, {})
  {
    hide IsMarkdown, MovesSafe, Mentioned, Created;
    CreatedOnlyAt(fold, s.disk, notes, tracked, notes', tracked', path);
    assert {} + {path} == {path};
    if s.Lands(path) {
      assert Agrees(fold, s.disk, notes', tracked', path);
    }
    SettleOne(fold, s, notes, tracked, notes', tracked', waiting, {}, path);
  }

  lemma DeletedSettles(
    fold: Folding, s: Scene, notes: Notes, tracked: set<Path>, waiting: set<Path>, except: set<Path>, path: Path)
    requires AllSettled(fold, s, notes, tracked, waiting, except + {path})
    requires IsReadable(s.disk, path) ==> Mentioned(s.owed, path)
    ensures AllSettled(fold, s, notes - {path}, tracked - {path}, waiting, except)
  {
    SettleOne(fold, s, notes, tracked, notes - {path}, tracked - {path}, waiting, except, path);
  }

  lemma MinusAbsent(notes: Notes, path: Path)
    requires path !in notes
    ensures notes - {path} == notes
  {
  }

  lemma KnownAlready(notes: Notes, tracked: set<Path>, path: Path)
    requires path in notes && notes.Keys <= tracked
    ensures notes == notes[path := notes[path]] && tracked == tracked + {path}
  {
  }

  /** Both maps hold exactly these files. */
  ghost predicate MapsHold(fold: Folding, full: Buckets, stem: Buckets, files: set<Path>) {
    Indexes(fold, Full, full, files) && Indexes(fold, Stem, stem, files)
  }

  /** Both maps with one more file. */
  method AddToMaps(fold: Folding, full: Buckets, stem: Buckets, path: Path, ghost files: set<Path>)
    returns (moreFull: Buckets, moreStem: Buckets)
    requires MapsHold(fold, full, stem, files)
    ensures MapsHold(fold, moreFull, moreStem, files + {path})
  {
    moreFull, moreStem := WithFile(fold, Full, full, path), stem;
    WithFileIndexes(fold, Full, full, files, path);
    assert Indexes(fold, Full, moreFull, files + {path});
    if IsMarkdown(fold, path) {
      WithFileIndexes(fold, Stem, stem, files, path);
      moreStem := WithFile(fold, Stem, stem, path);
    } else {
      UnlistedIndexes(fold, Stem, stem, files, path);
    }
  }

  /** Both maps with one file less. */
  method RemoveFromMaps(fold: Folding, full: Buckets, stem: Buckets, path: Path, ghost files: set<Path>)
    returns (lessFull: Buckets, lessStem: Buckets)
    requires MapsHold(fold, full, stem, files)
    ensures MapsHold(fold, lessFull, lessStem, files - {path})
  {
    WithoutFileIndexes(fold, Full, full, files, path);
    WithoutFileIndexes(fold, Stem, stem, files, path);
    lessFull, lessStem := WithoutFile(fold, Full, full, path), stem;
    if IsMarkdown(fold, path) {
      lessStem := WithoutFile(fold, Stem, stem, path);
    }
  }

  /** Every row is that of a tracked Markdown file: the entry of some bytes against the tracked files. */
  ghost predicate AllEntries(fold: Folding, parse: Parser, notes: Notes, files: set<Path>) {
    forall p :: p in notes ==> p in files && IsMarkdown(fold, p) && HasEntry(fold, parse, p, files, notes[p])
  }

  ghost predicate HasEntry(fold: Folding, parse: Parser, path: Path, files: set<Path>, note: Note) {
    exists data :: EntryOf(fold, parse, path, data, files, note)
  }

  /** What happens to a vault and its index: others act, notices arrive, timers fire, someone rebuilds. */
  datatype Turn =
    | Outside(step: EnvStep)
    | Deliver(i: nat, now: int)
    | Fire(path: Path, timestamp: int)
    | FlushAll
    | RebuildAll

  function WithRow(notes: Notes, path: Path, entry: Option<Note>): Notes {
    if entry.Some? then notes[path := entry.value] else notes
  }

  lemma RowAdded(
    fold: Folding, parse: Parser, disk: Disk, notes: Notes, files: set<Path>, path: Path, entry: Option<Note>)
    requires AllEntries(fold, parse, notes, files) && path in files && path !in notes && IsMarkdown(fold, path)
    requires entry.Some? <==> IsReadable(disk, path)
    requires entry.Some? ==>
      entry.value.sha256 == Sha256(disk[path].data) && HasEntry(fold, parse, path, files, entry.value)
    ensures var more := WithRow(notes, path, entry);
      && AllEntries(fold, parse, more, files) && more.Keys <= notes.Keys + {path}
      && OnlyAt(path, notes, files, more, files) && DigestAt(more, path) == Expected(fold, disk, path)
  {
  }

  lemma NextElement(files: seq<Path>, i: nat)
    requires i < |files| && NoRepeats(files)
    ensures Elements(files[i..]) == Elements(files[i + 1..]) + {files[i]}
    ensures files[i] in Elements(files) && files[i] !in Elements(files[i + 1..])
  {
    assert files[i..] == [files[i]] + files[i + 1..];
  }

  class DerivedIndex {
    const world: World
    const fold: Folding
    const parse: Parser
    var notes: Notes
    var backlinks: Table
    var full: Buckets
    var stem: Buckets
    var pending: map<Path, int>
    var timers: map<Path, int>
    ghost var tracked: set<Path>

    constructor (world: World, fold: Folding, parse: Parser)
      ensures this.world == world && this.fold == fold && this.parse == parse
      ensures notes == map[] && tracked == {} && pending == map[] && Valid()
    {
      this.world, this.fold, this.parse := world, fold, parse;
      notes, backlinks, full, stem, pending, timers, tracked := map[], map[], map[], map[], map[], map[], {};
    }

    /** Both maps index the tracked files, the backlinks are those of the link rows, notes are tracked. */
    ghost predicate Consistent()
      reads this`notes, this`backlinks, this`full, this`stem, this`tracked
    {
      && MapsHold(fold, full, stem, tracked)
      && TableHolds(backlinks, notes)
      && notes.Keys <= tracked && forall p :: p in notes ==> IsMarkdown(fold, p)
    }

    /** Moreover every waiting event has its timer, started with the event's timestamp. */
    ghost predicate Valid()
      reads this`notes, this`backlinks, this`full, this`stem, this`tracked, this`pending, this`timers
    {
      Consistent() && timers == pending && "" !in pending
    }

    ghost predicate Sound(except: set<Path>)
      reads this`notes, this`tracked, this`pending, world`disk, world`owed
    {
      AllSettled(fold, world.Now(), notes, tracked, pending.Keys, except)
    }

    // ----- row writers -----

    method DeleteNoteRows(path: Path)
      requires TableHolds(backlinks, notes)
      modifies this`notes, this`backlinks
      ensures notes == old(notes) - {path} && TableHolds(backlinks, notes)
      ensures forall target :: (target, path) !in backlinks
    {
      CascadeHolds(backlinks, notes, path);
      notes, backlinks := notes - {path}, Cascade(backlinks, path);
    }

    method Upsert(path: Path, note: Note)
      requires TableHolds(backlinks, notes)
      modifies this`notes, this`backlinks
      ensures notes == old(notes)[path := note] && TableHolds(backlinks, notes)
    {
      DeleteNoteRows(path);
      var more := InsertOutgoing(backlinks, path, note.links);
      InsertHolds(backlinks, notes, path, note, more);
      notes, backlinks := notes[path := note], more;
      assert notes == old(notes)[path := note];
    }

    method RefreshBasenames(path: Path)
      requires MapsHold(fold, full, stem, tracked)
      modifies this`full, this`stem, this`tracked
      ensures tracked == old(tracked) + {path}
      ensures MapsHold(fold, full, stem, tracked)
    {
      full, stem := AddToMaps(fold, full, stem, path, tracked);
      tracked := tracked + {path};
    }

    method BuildEntry(path: Path, data: Bytes) returns (note: Note)
      requires MapsHold(fold, full, stem, tracked)
      ensures EntryOf(fold, parse, path, data, tracked, note)
    {
      var refs := parse(data);
      var links: seq<LinkRow> := [];
      for i := 0 to |refs|
        invariant |links| == i
        invariant forall k :: 0 <= k < i ==>
          links[k].ref == refs[k] && Resolves(fold, path, refs[k], tracked, links[k].resolution)
      {
        var resolution := ResolveRef(fold, path, refs[i], full, stem, tracked);
        links := links + [LinkRow(refs[i], resolution)];
      }
      note := Note(Sha256(data), links);
    }

    // ----- applying -----

    /** Writes a note's row from its bytes. */
    method RewriteNote(path: Path, data: Bytes)
      requires Consistent() && IsMarkdown(fold, path)
      modifies this`notes, this`backlinks, this`full, this`stem, this`tracked
      ensures Consistent() && tracked == old(tracked) + {path}
      ensures path in notes && notes == old(notes)[path := notes[path]]
      ensures EntryOf(fold, parse, path, data, tracked, notes[path])
    {
      RefreshBasenames(path);
      var note := BuildEntry(path, data);
      Upsert(path, note);
    }

    /** Writes a note's row, unless it has one with the same digest. */
    method IndexNote(path: Path, data: Bytes)
      requires Consistent() && IsMarkdown(fold, path)
      modifies this`notes, this`backlinks, this`full, this`stem, this`tracked
      ensures Consistent() && tracked == old(tracked) + {path}
      ensures path in notes && notes == old(notes)[path := notes[path]] && notes[path].sha256 == Sha256(data)
      ensures DigestAt(old(notes), path) != DigestAt(notes, path) ==>
        EntryOf(fold, parse, path, data, tracked, notes[path])
    {
      if path !in notes || notes[path].sha256 != Sha256(data) {
        RewriteNote(path, data);
      } else {
        KnownAlready(notes, tracked, path);
      }
    }

    /** Indexes a file as it is on disk now; a note that cannot be read is left for the event that follows. */
    method ApplyCreate(path: Path)
      requires Consistent()
      modifies this`notes, this`backlinks, this`full, this`stem, this`tracked, world
      ensures Consistent()
      ensures Follows(old(world.Now()), world.Now())
      ensures !IsMarkdown(fold, path) ==> world.Now() == old(world.Now())
      ensures if path == "" then notes == old(notes) && tracked == old(tracked)
              else Created(fold, world.disk, old(notes), old(tracked), notes, tracked, path)
      ensures DigestAt(old(notes), path) != DigestAt(notes, path) ==>
        path in notes && IsReadable(world.disk, path)
          && EntryOf(fold, parse, path, world.disk[path].data, tracked, notes[path])
    {
      ActAllFollows([], world.Now());
      if path != "" {
        if !IsMarkdown(fold, path) {
          RefreshBasenames(path);
        } else {
          var content := world.Read(path);
          if content.Some? && content.value.Readable? {
            IndexNote(path, content.value.data);
          }
        }
      }
    }

    /** Removes a path from rows, backlinks and maps. */
    method ApplyDelete(path: Path)
      requires Consistent()
      modifies this`notes, this`backlinks, this`full, this`stem, this`tracked
      ensures Consistent()
      ensures path != "" ==> notes == old(notes) - {path} && tracked == old(tracked) - {path}
      ensures path == "" ==> notes == old(notes) && tracked == old(tracked)
    {
      hide MapsHold, TableHolds, IsMarkdown;
      if path == "" {
        return;
      }
      if path in notes {
        DeleteNoteRows(path);
      } else {
        MinusAbsent(notes, path);
      }
      full, stem := RemoveFromMaps(fold, full, stem, path, tracked);
      tracked := tracked - {path};
    }

    // ----- events -----

    /** What a notice taken from the queue must leave announced for its handling to be right. */
    ghost predicate Announced(event: Notice)
      reads this`notes, this`tracked, this`pending, world`disk, world`owed
    {
      match event
      case Touched(path) => Sound({path})
      case Moved(source, target) =>
        && Sound({source, target})
        && (IsReadable(world.disk, source) ==> Mentioned(world.owed, source))
        && (!world.Now().Lands(target) ==> Mentioned(world.owed, target))
    }

    /**
      A watcher event. A move is handled at once; any other event waits for its timer, and replaces the
      one that waits for the same path. An empty path stands for a missing one.
    */
    method HandleEvent(event: Notice, now: int)
      requires Valid()
      modifies this, world
      ensures Valid()
      ensures old(Announced(event)) && !event.Mentions("") ==> Sound({})
      ensures event.Touched? ==>
        && pending == (if event.path == "" then old(pending) else old(pending)[event.path := now])
        && notes == old(notes) && tracked == old(tracked) && world.Now() == old(world.Now())
      ensures event.Moved? ==>
        pending == old(pending)
          && MovedTo(fold, world.disk, old(notes), old(tracked), notes, tracked, event.source, event.target)
    {
      match event
      case Moved(source, target) =>
        HandleMove(source, target, Announced(event) && !event.Mentions(""));
      case Touched(path) =>
        if path != "" {
          if Announced(event) {
            WaitingSettles(fold, world.Now(), notes, tracked, pending.Keys, path);
          }
          timers := timers - {path};
          pending := pending[path := now];
          assert pending.Keys == old(pending).Keys + {path};
          timers := timers[path := now];
        }
    }

    /** The old path leaves the index, then the new path is indexed. */
    method HandleMove(source: Path, target: Path, ghost announced: bool)
      requires Valid()
      requires announced ==> source != "" && target != "" && Announced(Moved(source, target))
      modifies this`notes, this`backlinks, this`full, this`stem, this`tracked, world
      ensures Valid()
      ensures MovedTo(fold, world.disk, old(notes), old(tracked), notes, tracked, source, target)
      ensures announced ==> Sound({})
    {
      hide MapsHold, TableHolds, Settled, AllEntries, AllSettled, Created, Mentioned, Expected, Scene.Lands, IsMarkdown;
      if announced {
        assert {source, target} == {target} + {source};
        DeletedSettles(fold, world.Now(), notes, tracked, pending.Keys, {target}, source);
      }
      assert notes == notes - {} && tracked == tracked - {};
      ApplyDelete(source);
      IndexPath(target, announced);
    }

    /** Indexing a path settles it, if an unreadable file there is announced. */
    method IndexPath(path: Path, ghost announced: bool)
      requires Consistent()
      requires announced ==> path != "" && Sound({path}) && (!world.Now().Lands(path) ==> Mentioned(world.owed, path))
      modifies this`notes, this`backlinks, this`full, this`stem, this`tracked, world
      ensures Consistent()
      ensures if path == "" then notes == old(notes) && tracked == old(tracked)
              else Created(fold, world.disk, old(notes), old(tracked), notes, tracked, path)
      ensures announced ==> Sound({})
    {
      ghost var was := world.Now();
      ApplyCreate(path);
      if announced {
        SettledFollows(fold, was, world.Now(), old(notes), old(tracked), pending.Keys, {path});
        assert !world.Now().Lands(path) ==> Mentioned(world.owed, path) by {
          assert At(world.disk, path) != At(was.disk, path) || Mentioned(was.owed, path) || was.Lands(path);
        }
        CreatedSettles(fold, world.Now(), old(notes), old(tracked), notes, tracked, pending.Keys, path);
      }
    }

    method FileExists(path: Path) returns (found: bool)
      modifies world
      ensures Follows(old(world.Now()), world.Now())
      ensures found == IsReadable(world.disk, path)
    {
      var content := world.Read(path);
      found := content.Some? && content.value.Readable?;
    }

    /** Looks at the disk and indexes or removes the path accordingly; the event's kind does not matter. */
    method Reconcile(path: Path)
      requires Consistent() && path != "" && Sound({path})
      modifies this`notes, this`backlinks, this`full, this`stem, this`tracked, world
      ensures Consistent() && Sound({})
    {
      ghost var was := world.Now();
      var present := FileExists(path);
      SettledFollows(fold, was, world.Now(), notes, tracked, pending.Keys, {path});
      if present {
        IndexPath(path, true);
      } else {
        assert {} + {path} == {path};
        DeletedSettles(fold, world.Now(), notes, tracked, pending.Keys, {}, path);
        ApplyDelete(path);
      }
    }

    /** A timer fires: nothing happens if its event was superseded or already handled. */
    method FlushEvent(path: Path, timestamp: int)
      requires Valid() && Sound({})
      modifies this, world
      ensures Valid() && Sound({})
      ensures pending ==
        if path in old(pending) && old(pending)[path] == timestamp then old(pending) - {path} else old(pending)
    {
      if path in pending && pending[path] == timestamp {
        pending, timers := pending - {path}, timers - {path};
        assert Sound({path});
        Reconcile(path);
      }
    }

    /** Handles everything that waits, now. */
    method FlushEvents()
      requires Valid() && Sound({})
      modifies this, world
      ensures Valid() && Sound({}) && pending == map[]
    {
      timers := map[];
      var rest := pending.Keys;
      while rest != {}
        invariant rest == pending.Keys && "" !in pending && timers == map[]
        invariant Consistent() && Sound({})
        decreases |rest|
      {
        var path :| path in rest;
        rest := rest - {path};
        pending := pending - {path};
        assert Sound({path});
        Reconcile(path);
      }
    }

    // ----- rebuilding -----

    /** A note's new row; None when it cannot be read. */
    method ReadAndBuildEntry(path: Path) returns (entry: Option<Note>)
      requires MapsHold(fold, full, stem, tracked)
      modifies world
      ensures Follows(old(world.Now()), world.Now())
      ensures entry.Some? <==> IsReadable(world.disk, path)
      ensures entry.Some? ==>
        entry.value.sha256 == Sha256(world.disk[path].data) && HasEntry(fold, parse, path, tracked, entry.value)
      ensures world.Still() ==> world.Now() == old(world.Now())
    {
      var content := world.Read(path);
      entry := None;
      if content.Some? && content.value.Readable? {
        var note := BuildEntry(path, content.value.data);
        assert HasEntry(fold, parse, path, tracked, note);
        entry := Some(note);
      }
    }

    /** Reads one listed note into the new rows. */
    method RebuildNote(path: Path, ghost listed: Scene, ghost rest: set<Path>)
      requires MapsHold(fold, full, stem, tracked) && path in tracked && path in listed.disk && path !in notes
      requires AllEntries(fold, parse, notes, tracked) && IsMarkdown(fold, path)
      requires Follows(listed, world.Now()) && Sound(rest + {path})
      modifies this`notes, world
      ensures AllEntries(fold, parse, notes, tracked) && notes.Keys <= old(notes).Keys + {path}
      ensures Follows(listed, world.Now()) && Sound(rest)
      ensures world.Still() ==> world.Now() == old(world.Now())
    {
      ghost var was := world.Now();
      var entry := ReadAndBuildEntry(path);
      FollowsTransitive(listed, was, world.Now());
      SettledFollows(fold, was, world.Now(), notes, tracked, pending.Keys, rest + {path});
      RowAdded(fold, parse, world.disk, notes, tracked, path, entry);
      notes := WithRow(notes, path, entry);
      ListedSettles(fold, listed, world.Now(), old(notes), notes, tracked, pending.Keys, rest, path);
    }

    /** New maps from a sorted listing; the rows are cleared. */
    method StartRebuild() returns (files: seq<Path>)
      requires MovesSafe(world.Now()) && KnowsNotes(fold, world.Now())
      modifies this`notes, this`full, this`stem, this`tracked, world
      ensures MapsHold(fold, full, stem, tracked) && tracked == world.disk.Keys == Elements(files) && NoRepeats(files)
      ensures notes == map[] && Sound(tracked)
      ensures world.Still() ==> world.Now() == old(world.Now())
    {
      hide Indexes, Settled;
      var listed := world.List();
      var list := Listing(listed);
      files := SortPaths(fold, list);
      SortSpec(fold, list);
      full, stem := BuildMaps(fold, files);
      notes, tracked := map[], listed;
      assert Elements(files) == Elements(list);
      ListingSettles(fold, world.Now(), pending.Keys);
    }

    /** A full rebuild: new maps from a sorted listing, new rows from the readable notes, new backlinks. */
    method Rebuild()
      requires timers == pending && "" !in pending
      requires MovesSafe(world.Now()) && KnowsNotes(fold, world.Now())
      modifies this, world
      ensures Valid() && Sound({}) && pending == old(pending)
      ensures AllEntries(fold, parse, notes, tracked)
      ensures world.Still() ==> world.Now() == old(world.Now()) && tracked == world.disk.Keys
    {
      hide Indexes, Settled, EntryOf, Mentioned, MovesSafe, KnowsNotes;
      var files := StartRebuild();
      ghost var start := world.Now();
      ActAllFollows([], start);
      assert files[0..] == files;
      for i := 0 to |files|
        invariant MapsHold(fold, full, stem, tracked) && tracked == start.disk.Keys == Elements(files)
        invariant AllEntries(fold, parse, notes, tracked) && notes.Keys !! Elements(files[i..])
        invariant Follows(start, world.Now()) && Sound(Elements(files[i..]))
        invariant world.Still() ==> world.Now() == start
        invariant timers == pending == old(pending)
      {
        NextElement(files, i);
        if IsMarkdown(fold, files[i]) {
          RebuildNote(files[i], start, Elements(files[i + 1..]));
        } else {
          ListedSettles(
            fold, start, world.Now(), notes, notes, tracked, pending.Keys, Elements(files[i + 1..]), files[i]);
        }
      }
      backlinks := Materialize(notes);
      assert Elements(files[|files|..]) == {};
    }

    // ----- whole runs -----

    /**
      Whatever happens in whatever order, once no notice is owed and no event waits, the rows hold exactly
      the digests of the readable Markdown files; and with no unreadable file the maps index exactly the
      files on disk.
    */
    method Watch(turns: seq<Turn>)
      requires Valid() && Sound({})
      modifies this, world
      ensures Valid() && Sound({})
      ensures world.owed == [] && pending == map[] ==> UpToDate(fold, world.disk, notes, tracked)
      ensures turns != [] && turns[|turns| - 1].FlushAll? ==> pending == map[]
    {
      for i := 0 to |turns|
        invariant Valid() && Sound({})
        invariant i > 0 && turns[i - 1].FlushAll? ==> pending == map[]
      {
        match turns[i]
        case Outside(step) => ActOutside(step);
        case Deliver(k, now) => DeliverNotice(k, now);
        case Fire(path, timestamp) => FlushEvent(path, timestamp);
        case FlushAll => FlushEvents();
        case RebuildAll => Rebuild();
      }
      if world.owed == [] && pending == map[] {
        QuietIsRight(fold, world.Now(), notes, tracked, pending.Keys);
      }
    }

    method ActOutside(step: EnvStep)
      requires Valid() && Sound({})
      modifies world
      ensures Sound({})
    {
      ghost var was := world.Now();
      world.Step(step);
      SettledFollows(fold, was, world.Now(), notes, tracked, pending.Keys, {});
    }

    /** A notice whose turn it is reaches the index. */
    method DeliverNotice(i: nat, now: int)
      requires Valid() && Sound({})
      modifies this, world
      ensures Valid() && Sound({})
    {
      if Deliverable(world.owed, i) {
        DeliveryIsSafe(world.Now(), i);
        ghost var was := world.Now();
        var notice := world.Take(i);
        TakenIsAnnounced(fold, was, world.Now(), i, notes, tracked, pending.Keys);
        HandleEvent(notice, now);
      }
    }
  }

  lemma TakenIsAnnounced(
    fold: Folding, s: Scene, t: Scene, i: nat, notes: Notes, tracked: set<Path>, waiting: set<Path>)
    requires Deliverable(s.owed, i) && t == s.(owed := Drop(s.owed, i))
      && AllSettled(fold, s, notes, tracked, waiting, {})
    ensures AllSettled(
      fold, t, notes, tracked, waiting,
      if s.owed[i].Touched? then {s.owed[i].path} else {s.owed[i].source, s.owed[i].target})
  {
    DeliveryIsSafe(s, i);
    forall p | !s.owed[i].Mentions(p)
      ensures Settled(fold, t, notes, tracked, waiting, p)
    {
      assert Settled(fold, s, notes, tracked, waiting, p);
    }
  }

  ghost predicate SameContents(a: Buckets, b: Buckets) {
    a.Keys == b.Keys && forall key :: key in a ==> forall p :: p in a[key] <==> p in b[key]
  }

  /** A fresh index of a disk that nobody touches. */
  method RebuildAlone(disk: Disk, fold: Folding, parse: Parser) returns (rebuilt: DerivedIndex)
    requires "" !in disk
    ensures fresh(rebuilt) && rebuilt.Valid() && rebuilt.fold == fold && rebuilt.tracked == disk.Keys
    ensures UpToDate(fold, disk, rebuilt.notes, rebuilt.tracked)
  {
    var world := new World(disk, n => [], p => IsMarkdown(fold, p));
    rebuilt := new DerivedIndex(world, fold, parse);
    rebuilt.Rebuild();
    QuietIsRight(fold, world.Now(), rebuilt.notes, rebuilt.tracked, rebuilt.pending.Keys);
  }

  /** Maps that index different files differ. */
  lemma SameContentsExactly(fold: Folding, a: Buckets, b: Buckets, files: set<Path>, others: set<Path>)
    requires Indexes(fold, Full, a, files) && Indexes(fold, Full, b, others)
    ensures SameContents(a, b) <==> files == others
  {
    if files == others {
      SameBuckets(fold, Full, a, b, files);
    } else if SameContents(a, b) {
      forall p
        ensures p in files <==> p in others
      {
        BucketIsTracked(fold, Full, a, files, Key(fold, Full, p), p);
        BucketIsTracked(fold, Full, b, others, Key(fold, Full, p), p);
      }
    }
  }

  /**
    Once settled, the index has the digests a fresh rebuild finds, and the same buckets exactly if it tracks the
    files on disk; if all files can be read, it does.
  */
  method MatchesRebuild(index: DerivedIndex) returns (rebuilt: DerivedIndex)
    requires index.Valid() && UpToDate(index.fold, index.world.disk, index.notes, index.tracked)
      && "" !in index.world.disk
    ensures fresh(rebuilt)
    ensures forall p :: DigestAt(rebuilt.notes, p) == DigestAt(index.notes, p)
    ensures
      SameContents(rebuilt.full, index.full) && SameContents(rebuilt.stem, index.stem) <==>
      index.tracked == index.world.disk.Keys
    ensures (forall p :: p in index.world.disk ==> IsReadable(index.world.disk, p)) ==>
      index.tracked == index.world.disk.Keys
  {
    rebuilt := RebuildAlone(index.world.disk, index.fold, index.parse);
    SameContentsExactly(index.fold, rebuilt.full, index.full, rebuilt.tracked, index.tracked);
    if index.tracked == index.world.disk.Keys {
      SameBuckets(index.fold, Stem, rebuilt.stem, index.stem, index.tracked);
    }
  }

  /**
    A move of an unreadable file onto a note is what the notices must not contain: handled, it leaves the
    note's row stale. Nothing is stale exactly when the new path had no row.
  */
  lemma UnreadableMove(
    fold: Folding, disk: Disk, notes: Notes, tracked: set<Path>, notes': Notes, tracked': set<Path>, target: Path)
    requires Created(fold, disk, notes, tracked, notes', tracked', target)
    requires IsMarkdown(fold, target) && !IsReadable(disk, target)
    ensures DigestAt(notes', target) == Expected(fold, disk, target) <==> target !in notes
  {
  }
}
