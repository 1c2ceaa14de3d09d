/**
  The vault directory as the index sees it: files that others change, and the watcher notices they owe.
  Notices may be merged and delivered late, but a move is delivered before any later notice about
  either of its paths.
*/
module Watching {
  import opened Base

  datatype Content = Readable(data: Bytes) | Unreadable

  type Disk = map<Path, Content>

  /** Creates, changes and deletions look alike to the index: it reads the disk when it handles them. */
  datatype Notice = Touched(path: Path) | Moved(source: Path, target: Path) {
    predicate Mentions(p: Path) {
      match this
      case Touched(path) => p == path
      case Moved(a, b) => p == a || p == b
    }
  }

  /** `isNote` says which paths are notes; the index reads those, and lists all other files by name alone. */
  datatype Scene = Scene(disk: Disk, owed: seq<Notice>, isNote: Path -> bool) {
    /** A file moved here is indexed rightly: it is there, and a note can be read. */
    predicate Lands(p: Path) {
      p in disk && (disk[p].Readable? || !isNote(p))
    }
  }

  datatype EnvStep =
    | Write(path: Path, content: Content)
    | Erase(path: Path)
    | Rename(from: Path, to: Path)
    | Merge(kept: nat, dropped: nat)

  predicate IsReadable(disk: Disk, p: Path) {
    p in disk && disk[p].Readable?
  }

  function At(disk: Disk, p: Path): Option<Content> {
    if p in disk then Some(disk[p]) else None
  }

  predicate Mentioned(owed: seq<Notice>, p: Path) {
    exists i :: 0 <= i < |owed| && owed[i].Mentions(p)
  }

  function Drop(owed: seq<Notice>, i: nat): seq<Notice>
    requires i < |owed|
  {
    owed[..i] + owed[i + 1..]
  }

  /** Two notices about one path may become the later one, or the earlier one if no move is between them. */
  predicate Mergeable(owed: seq<Notice>, kept: nat, dropped: nat) {
    && kept < |owed| && dropped < |owed| && kept != dropped
    && owed[kept].Touched? && owed[kept] == owed[dropped]
    && (kept < dropped ==> forall k :: kept < k < dropped ==> owed[k].Moved? ==> !owed[k].Mentions(owed[kept].path))
  }

  /** One step of the other writers or of the watcher; a step that does not apply changes nothing. */
  function Act(step: EnvStep, s: Scene): Scene {
    match step
    case Write(path, content) =>
      if path == "" then s else s.(disk := s.disk[path := content], owed := s.owed + [Touched(path)])
    case Erase(path) =>
      if path !in s.disk then s else s.(disk := s.disk - {path}, owed := s.owed + [Touched(path)])
    case Rename(from, to) =>
      if from == "" || to == "" || from == to || from !in s.disk then s
      else if s.disk[from].Unreadable? && s.isNote(to) then s
      else s.(disk := (s.disk - {from})[to := s.disk[from]], owed := s.owed + [Moved(from, to)])
    case Merge(kept, dropped) =>
      if Mergeable(s.owed, kept, dropped) then s.(owed := Drop(s.owed, dropped)) else s
  }

  function ActAll(steps: seq<EnvStep>, s: Scene): Scene {
    if steps == [] then s else Act(steps[|steps| - 1], ActAll(steps[..|steps| - 1], s))
  }

  /** A notice may be delivered when no earlier undelivered move shares a path with it. */
  predicate Deliverable(owed: seq<Notice>, i: nat) {
    i < |owed| && forall j :: 0 <= j < i && owed[j].Moved? ==>
      !owed[i].Mentions(owed[j].source) && !owed[i].Mentions(owed[j].target)
  }

  ghost predicate LaterMention(owed: seq<Notice>, i: nat, p: Path) {
    exists j :: i < j < |owed| && owed[j].Mentions(p)
  }

  /** Files and notices have names, and a move goes to another path. */
  predicate Proper(notice: Notice) {
    !notice.Mentions("") && (notice.Moved? ==> notice.source != notice.target)
  }

  ghost predicate AllProper(s: Scene) {
    "" !in s.disk && forall i :: 0 <= i < |s.owed| ==> Proper(s.owed[i])
  }

  /**
    For every owed move, what handling it would get wrong is announced later: that its old path is
    readable again, or that what is at its new path is not what was moved there.
  */
  ghost predicate MovesSafe(s: Scene) {
    AllProper(s) && forall i :: 0 <= i < |s.owed| && s.owed[i].Moved? ==>
      && (IsReadable(s.disk, s.owed[i].source) ==> LaterMention(s.owed, i, s.owed[i].source))
      && (!s.Lands(s.owed[i].target) ==> LaterMention(s.owed, i, s.owed[i].target))
  }

  /** From one scene to a later one, every change is announced and no announcement is lost. */
  ghost predicate Follows(a: Scene, b: Scene) {
    && b.isNote == a.isNote
    && (forall p :: Mentioned(a.owed, p) ==> Mentioned(b.owed, p))
    && (forall p :: At(b.disk, p) != At(a.disk, p) ==> Mentioned(b.owed, p))
    && (MovesSafe(a) ==> MovesSafe(b))
  }

  lemma FollowsTransitive(a: Scene, b: Scene, c: Scene)
    requires Follows(a, b) && Follows(b, c)
    ensures Follows(a, c)
  {
  }

  lemma MentionedMore(owed: seq<Notice>, notice: Notice, p: Path)
    ensures Mentioned(owed + [notice], p) <==> Mentioned(owed, p) || notice.Mentions(p)
  {
    if Mentioned(owed, p) {
      var i :| 0 <= i < |owed| && owed[i].Mentions(p);
      assert (owed + [notice])[i] == owed[i];
    }
    if notice.Mentions(p) {
      assert (owed + [notice])[|owed|] == notice;
    }
  }

  /** A new notice at the end accounts for any change at the paths it mentions. */
  lemma AnnounceFollows(s: Scene, t: Scene, notice: Notice)
    requires t.owed == s.owed + [notice] && t.isNote == s.isNote
    requires forall p :: At(t.disk, p) != At(s.disk, p) ==> notice.Mentions(p)
    requires notice.Moved? ==> !IsReadable(t.disk, notice.source) && t.Lands(notice.target)
    requires "" !in s.disk ==> Proper(notice)
    ensures Follows(s, t)
  {
    forall p
      ensures Mentioned(s.owed, p) ==> Mentioned(t.owed, p)
      ensures At(t.disk, p) != At(s.disk, p) ==> Mentioned(t.owed, p)
    {
      MentionedMore(s.owed, notice, p);
    }
    if MovesSafe(s) {
      forall i, p | 0 <= i < |s.owed|
        ensures LaterMention(s.owed, i, p) || notice.Mentions(p) ==> LaterMention(t.owed, i, p)
      {
        LaterMore(s.owed, notice, i, p);
      }
      forall i | 0 <= i < |t.owed| && t.owed[i].Moved?
        ensures IsReadable(t.disk, t.owed[i].source) ==> LaterMention(t.owed, i, t.owed[i].source)
        ensures !t.Lands(t.owed[i].target) ==> LaterMention(t.owed, i, t.owed[i].target)
      {
        if i < |s.owed| {
          assert t.owed[i] == s.owed[i];
          assert At(t.disk, t.owed[i].source) != At(s.disk, t.owed[i].source) ==> notice.Mentions(t.owed[i].source);
          assert At(t.disk, t.owed[i].target) != At(s.disk, t.owed[i].target) ==> notice.Mentions(t.owed[i].target);
        }
      }
    }
  }

  lemma LaterMore(owed: seq<Notice>, notice: Notice, i: nat, p: Path)
    requires i < |owed|
    ensures LaterMention(owed, i, p) || notice.Mentions(p) ==> LaterMention(owed + [notice], i, p)
  {
    if LaterMention(owed, i, p) {
      var j :| i < j < |owed| && owed[j].Mentions(p);
      assert (owed + [notice])[j] == owed[j];
    }
    if notice.Mentions(p) {
      assert (owed + [notice])[|owed|] == notice;
    }
  }

  /** Where the notice after a drop stood before it. */
  function Was(i: nat, dropped: nat): nat {
    if i < dropped then i else i + 1
  }

  /** Dropping a notice keeps a mention when another notice has it, on the same side of every move about it. */
  lemma DropKeepsLater(owed: seq<Notice>, dropped: nat, i: nat, p: Path)
    requires dropped < |owed| && i < |owed| - 1 && LaterMention(owed, Was(i, dropped), p)
    requires !owed[dropped].Mentions(p) || dropped < Was(i, dropped)
    ensures LaterMention(Drop(owed, dropped), i, p)
  {
    var j :| Was(i, dropped) < j < |owed| && owed[j].Mentions(p);
    var k := if j < dropped then j else j - 1;
    assert Drop(owed, dropped)[k] == owed[j];
  }

  lemma DropKeepsMention(owed: seq<Notice>, dropped: nat, p: Path)
    requires dropped < |owed| && Mentioned(owed, p) && !owed[dropped].Mentions(p)
    ensures Mentioned(Drop(owed, dropped), p)
  {
    var j :| 0 <= j < |owed| && owed[j].Mentions(p);
    assert Drop(owed, dropped)[if j < dropped then j else j - 1] == owed[j];
  }

  lemma MergeKeepsLater(owed: seq<Notice>, kept: nat, dropped: nat, i: nat, p: Path)
    requires Mergeable(owed, kept, dropped) && i < |owed| - 1
    requires owed[Was(i, dropped)].Moved? && owed[Was(i, dropped)].Mentions(p)
    requires LaterMention(owed, Was(i, dropped), p)
    ensures LaterMention(Drop(owed, dropped), i, p)
  {
    if owed[dropped].Mentions(p) && Was(i, dropped) < dropped {
      assert Was(i, dropped) == i && i != kept && i < kept;
      var k := if kept < dropped then kept else kept - 1;
      assert Drop(owed, dropped)[k] == owed[kept] && k > i;
    } else {
      DropKeepsLater(owed, dropped, i, p);
    }
  }

  lemma MergeFollows(s: Scene, kept: nat, dropped: nat)
    requires Mergeable(s.owed, kept, dropped)
    ensures Follows(s, s.(owed := Drop(s.owed, dropped)))
  {
    var t := s.(owed := Drop(s.owed, dropped));
    forall p | Mentioned(s.owed, p)
      ensures Mentioned(t.owed, p)
    {
      if s.owed[dropped].Mentions(p) {
        assert t.owed[if kept < dropped then kept else kept - 1] == s.owed[kept];
      } else {
        DropKeepsMention(s.owed, dropped, p);
      }
    }
    if MovesSafe(s) {
      forall i | 0 <= i < |t.owed| && t.owed[i].Moved?
        ensures IsReadable(t.disk, t.owed[i].source) ==> LaterMention(t.owed, i, t.owed[i].source)
        ensures !t.Lands(t.owed[i].target) ==> LaterMention(t.owed, i, t.owed[i].target)
      {
        var was := Was(i, dropped);
        assert t.owed[i] == s.owed[was];
        if IsReadable(t.disk, t.owed[i].source) {
          MergeKeepsLater(s.owed, kept, dropped, i, t.owed[i].source);
        }
        if !t.Lands(t.owed[i].target) {
          MergeKeepsLater(s.owed, kept, dropped, i, t.owed[i].target);
        }
      }
    }
  }

  lemma ActFollows(step: EnvStep, s: Scene)
    ensures Follows(s, Act(step, s))
  {
    match step
    case Write(path, content) =>
      if path != "" {
        AnnounceFollows(s, Act(step, s), Touched(path));
      }
    case Erase(path) =>
      if path in s.disk {
        AnnounceFollows(s, Act(step, s), Touched(path));
      }
    case Rename(from, to) =>
      if Act(step, s) != s {
        AnnounceFollows(s, Act(step, s), Moved(from, to));
      }
    case Merge(kept, dropped) =>
      if Mergeable(s.owed, kept, dropped) {
        MergeFollows(s, kept, dropped);
      }
  }

  /** Whatever the others do, their changes are announced. */
  lemma {:induction false} ActAllFollows(steps: seq<EnvStep>, s: Scene)
    ensures Follows(s, ActAll(steps, s))
  {
    if steps != [] {
      ActAllFollows(steps[..|steps| - 1], s);
      ActFollows(steps[|steps| - 1], ActAll(steps[..|steps| - 1], s));
      FollowsTransitive(s, ActAll(steps[..|steps| - 1], s), ActAll(steps, s));
    }
  }

  /** Taking out a deliverable notice leaves the other moves safe, and what it gets wrong announced. */
  lemma DeliveryIsSafe(s: Scene, i: nat)
    requires Deliverable(s.owed, i) && MovesSafe(s)
    ensures var t := s.(owed := Drop(s.owed, i));
      && MovesSafe(t) && Proper(s.owed[i])
      && (forall p :: Mentioned(s.owed, p) && !s.owed[i].Mentions(p) ==> Mentioned(t.owed, p))
      && (s.owed[i].Moved? ==>
            && (IsReadable(s.disk, s.owed[i].source) ==> Mentioned(t.owed, s.owed[i].source))
            && (!s.Lands(s.owed[i].target) ==> Mentioned(t.owed, s.owed[i].target)))
  {
    var t := s.(owed := Drop(s.owed, i));
    forall k | 0 <= k < |t.owed| && t.owed[k].Moved?
      ensures IsReadable(t.disk, t.owed[k].source) ==> LaterMention(t.owed, k, t.owed[k].source)
      ensures !t.Lands(t.owed[k].target) ==> LaterMention(t.owed, k, t.owed[k].target)
    {
      assert t.owed[k] == s.owed[Was(k, i)];
      if IsReadable(t.disk, t.owed[k].source) {
        DropKeepsLater(s.owed, i, k, t.owed[k].source);
      }
      if !t.Lands(t.owed[k].target) {
        DropKeepsLater(s.owed, i, k, t.owed[k].target);
      }
    }
    forall p | Mentioned(s.owed, p) && !s.owed[i].Mentions(p)
      ensures Mentioned(t.owed, p)
    {
      DropKeepsMention(s.owed, i, p);
    }
    if s.owed[i].Moved? {
      if IsReadable(s.disk, s.owed[i].source) {
        LaterSurvives(s.owed, i, s.owed[i].source);
      }
      if !s.Lands(s.owed[i].target) {
        LaterSurvives(s.owed, i, s.owed[i].target);
      }
    }
  }

  lemma LaterSurvives(owed: seq<Notice>, i: nat, p: Path)
    requires i < |owed| && LaterMention(owed, i, p)
    ensures Mentioned(Drop(owed, i), p)
  {
    var j :| i < j < |owed| && owed[j].Mentions(p);
    assert Drop(owed, i)[j - 1] == owed[j];
  }

  /** The directory and its watcher. `script` says what others do just before each access. */
  class World {
    var disk: Disk
    var owed: seq<Notice>
    var accesses: nat
    const script: nat -> seq<EnvStep>
    const isNote: Path -> bool

    constructor (disk: Disk, script: nat -> seq<EnvStep>, isNote: Path -> bool)
      ensures this.disk == disk && owed == [] && accesses == 0 && this.script == script && this.isNote == isNote
    {
      this.disk, owed, accesses, this.script, this.isNote := disk, [], 0, script, isNote;
    }

    ghost function Now(): Scene
      reads this`disk, this`owed
    {
      Scene(disk, owed, isNote)
    }

    /** Nobody else does anything. */
    ghost predicate Still() {
      forall n :: script(n) == []
    }

    method Step(step: EnvStep)
      modifies this`disk, this`owed
      ensures Now() == Act(step, old(Now()))
      ensures Follows(old(Now()), Now())
    {
      ActFollows(step, Now());
      var s := Act(step, Scene(disk, owed, isNote));
      disk, owed := s.disk, s.owed;
    }

    /** Others go on, then all files are listed. */
    method List() returns (files: set<Path>)
      modifies this
      ensures Now() == ActAll(script(old(accesses)), old(Now())) && accesses == old(accesses) + 1
      ensures Follows(old(Now()), Now())
      ensures files == disk.Keys
    {
      ActAllFollows(script(accesses), Now());
      var s := ActAll(script(accesses), Scene(disk, owed, isNote));
      disk, owed, accesses := s.disk, s.owed, accesses + 1;
      files := disk.Keys;
    }

    /** Others go on, then the file is read. */
    method Read(path: Path) returns (content: Option<Content>)
      modifies this
      ensures Now() == ActAll(script(old(accesses)), old(Now())) && accesses == old(accesses) + 1
      ensures Follows(old(Now()), Now())
      ensures content == At(disk, path)
    {
      ActAllFollows(script(accesses), Now());
      var s := ActAll(script(accesses), Scene(disk, owed, isNote));
      disk, owed, accesses := s.disk, s.owed, accesses + 1;
      content := At(disk, path);
    }

    /** Takes out a notice that may be delivered now. */
    method Take(i: nat) returns (notice: Notice)
      requires Deliverable(owed, i)
      modifies this`owed
      ensures notice == old(owed[i]) && owed == Drop(old(owed), i)
    {
      notice, owed := owed[i], Drop(owed, i);
    }
  }
}
