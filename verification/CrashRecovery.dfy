/** Crashes during an execution, whatever rows earlier accepts of the job have left in its journal. */
module CrashRecovery {
  import opened Base
  import opened Vault
  import opened Transactions
  import opened HistoryStore
  import opened PlannedSteps
  import opened Executions
  import opened Executor
  import opened Recoverability
  import opened Recovery

  /** The steps whose rows are in a job's journal when an execution starts, and the files they were planned on. */
  datatype Past = Past(steps: seq<Operation>, before: Files)

  /** The journal's rows are those of the past steps, each applied or not, and apart from the new steps ahead. */
  ghost predicate StartsAfter(x: Execution, past: Past) {
    && |x.rows| == |past.steps|
    && (forall i :: 0 <= i < |x.rows| ==> x.rows[i] == MakeEntry(i, past.steps[i]).(state := x.rows[i].state))
    && Independent(x) && AllPlanned(past.steps, past.before) && AllApart(past.steps)
    && (forall i :: 0 <= i < |past.steps| ==>
          InBefore(past.steps[i], past.before, x.init) || InAfter(past.steps[i], x.init))
    && forall i, j :: 0 <= j < i < |past.steps| && j < |x.ops| ==> Apart(x.ops[j], past.steps[i])
  }

  // ----- the journal of a crash state -----

  /** The steps whose rows are there: the r steps journaled since, and the past steps behind them. */
  ghost function Steps(x: Execution, past: Past, r: nat): (ops: seq<Operation>)
    requires r <= |x.ops|
    ensures |ops| == (if r < |past.steps| then |past.steps| else r)
    ensures forall i :: 0 <= i < |ops| ==> ops[i] == if i < r then x.ops[i] else past.steps[i]
  {
    x.ops[..r] + if r < |past.steps| then past.steps[r..] else []
  }

  /** The files the step of row i was planned on. */
  ghost function PlanOf(x: Execution, past: Past, r: nat, i: nat): Files {
    if i < r then x.init else past.before
  }

  /** At the paths of past steps whose rows are still there, an execution changes nothing. */
  lemma PastStays(x: Execution, past: Past, s: Durable, r: nat, i: nat, path: Path)
    requires StartsAfter(x, past) && x.ScatteredAt(s, r) && r <= i < |past.steps| && path in Touched(past.steps[i])
    ensures At(s.files, path) == At(x.init, path)
  {
    if !Untouched(x.ops, path) {
      var j :| 0 <= j < |x.ops| && path in Touched(x.ops[j]);
      if j < r {
        assert Apart(x.ops[j], past.steps[i]);
      }
    }
  }

  /** Each journaled step was planned, and is applied or not. */
  lemma StepKnown(x: Execution, past: Past, s: Durable, r: nat, i: nat)
    requires StartsAfter(x, past) && x.ScatteredAt(s, r) && i < |Steps(x, past, r)|
    ensures var op, rows := Steps(x, past, r)[i], s.Rows(x.job);
      && |rows| == |Steps(x, past, r)| && rows[i] == MakeEntry(i, op).(state := rows[i].state)
      && PlannedFor(op, PlanOf(x, past, r, i))
      && (InBefore(op, PlanOf(x, past, r, i), s.files) || InAfter(op, s.files))
  {
    if i >= r {
      var op := past.steps[i];
      forall path | path in Touched(op)
        ensures At(s.files, path) == At(x.init, path)
      {
        PastStays(x, past, s, r, i, path);
      }
      assert op.path in Touched(op) && (op.kind.Move? ==> op.source in Touched(op));
    }
  }

  lemma StepsApart(x: Execution, past: Past, r: nat)
    requires StartsAfter(x, past) && r <= |x.ops|
    ensures AllApart(Steps(x, past, r))
  {
    hide Touched, Idle, PlannedFor, InBefore, InAfter;
    forall i, j | 0 <= i < j < |Steps(x, past, r)|
      ensures Apart(Steps(x, past, r)[i], Steps(x, past, r)[j])
    {
      if j < r {
        assert Touched(x.ops[i]) !! Touched(x.ops[j]);
      } else if i < r {
        assert Apart(x.ops[i], past.steps[j]);
      } else {
        assert Apart(past.steps[i], past.steps[j]);
      }
    }
  }

  // ----- where recovery leads -----

  /** Recovery takes back the step of row i, which touches the path. */
  ghost predicate Takes(x: Execution, past: Past, s: Durable, r: nat, i: nat, path: Path) {
    && r <= |x.ops| && i < |Steps(x, past, r)| && i < |s.Rows(x.job)| && Live(s.Rows(x.job)[i])
    && path in Touched(Steps(x, past, r)[i])
  }

  /** What recovery leaves at a path: what was planned on if it takes a step of the path back, else what is there. */
  ghost function Source(x: Execution, past: Past, s: Durable, r: nat, path: Path): Files {
    if exists i: nat :: Takes(x, past, s, r, i, path) then
      var i: nat :| Takes(x, past, s, r, i, path);
      PlanOf(x, past, r, i)
    else s.files
  }

  ghost function Recovered(x: Execution, past: Past, s: Durable, r: nat): Files {
    map path |
      path in x.init.Keys + past.before.Keys + s.files.Keys && path in Source(x, past, s, r, path)
      :: Source(x, past, s, r, path)[path]
  }

  lemma RecoveredAt(x: Execution, past: Past, s: Durable, r: nat, path: Path)
    ensures At(Recovered(x, past, s, r), path) == At(Source(x, past, s, r, path), path)
  {
  }

  /** An idle step has what it was planned on at its path, applied or not. */
  lemma IdleShows(op: Operation, plan: Files, files: Files, path: Path)
    requires Idle(op) && PlannedFor(op, plan) && path in Touched(op)
    requires InBefore(op, plan, files) || InAfter(op, files)
    ensures At(files, path) == At(plan, path)
  {
  }

  /** At the paths of one step it does not matter which of their steps recovery takes back. */
  lemma StepRecovers(x: Execution, past: Past, s: Durable, r: nat, i: nat, path: Path)
    requires StartsAfter(x, past) && x.ScatteredAt(s, r)
    requires i < |Steps(x, past, r)| && i < |s.Rows(x.job)| && path in Touched(Steps(x, past, r)[i])
    ensures At(Recovered(x, past, s, r), path) ==
      At(if Live(s.Rows(x.job)[i]) then PlanOf(x, past, r, i) else s.files, path)
  {
    hide Touched, PlannedFor, InBefore, InAfter, StartsAfter, Execution.ScatteredAt, Recovered, PlanOf, Idle;
    JournalLength(x, past, s, r);
    RecoveredAt(x, past, s, r, path);
    if exists k: nat :: Takes(x, past, s, r, k, path) {
      var k: nat :| Takes(x, past, s, r, k, path) && Source(x, past, s, r, path) == PlanOf(x, past, r, k);
      if k != i {
        StepsApart(x, past, r);
        var ops := Steps(x, past, r);
        assert Apart(ops[if i < k then i else k], ops[if i < k then k else i]);
        StepKnown(x, past, s, r, i);
        StepKnown(x, past, s, r, k);
        IdleShows(ops[i], PlanOf(x, past, r, i), s.files, path);
        IdleShows(ops[k], PlanOf(x, past, r, k), s.files, path);
      }
    } else {
      assert !Takes(x, past, s, r, i, path);
    }
  }

  /** The execution whose rows the journal holds, on the files recovery leads to. */
  ghost function Journaled(x: Execution, past: Past, s: Durable, r: nat): Execution
    requires r <= |x.ops|
  {
    x.(ops := Steps(x, past, r), init := Recovered(x, past, s, r))
  }

  lemma StepRecoverable(x: Execution, past: Past, s: Durable, r: nat, i: nat)
    requires StartsAfter(x, past) && x.ScatteredAt(s, r) && i < |Steps(x, past, r)|
    ensures var op, rows, files := Steps(x, past, r)[i], s.Rows(x.job), Recovered(x, past, s, r);
      && i < |rows| && rows[i] == MakeEntry(i, op).(state := rows[i].state)
      && (Live(rows[i]) ==> PlannedFor(op, files))
      && (InBefore(op, files, s.files) || (InAfter(op, s.files) && Live(rows[i])))
  {
    hide Recovered, StartsAfter, Execution.ScatteredAt, PlannedFor;
    JournalLength(x, past, s, r);
    StepKnown(x, past, s, r, i);
    var op, plan, files := Steps(x, past, r)[i], PlanOf(x, past, r, i), Recovered(x, past, s, r);
    forall path | path in Touched(op)
      ensures At(files, path) == At(if Live(s.Rows(x.job)[i]) then plan else s.files, path)
    {
      StepRecovers(x, past, s, r, i, path);
    }
    if Live(s.Rows(x.job)[i]) {
      PlannedMoves(op, plan, files);
    }
  }

  /** Every state of an execution is one recovery can start from, towards the recovered files. */
  lemma ScatteredIsRecoverable(x: Execution, past: Past, s: Durable, r: nat)
    requires StartsAfter(x, past) && x.ScatteredAt(s, r)
    ensures Recoverable(Journaled(x, past, s, r), s.Rows(x.job), s.files)
  {
    hide StartsAfter, Execution.ScatteredAt, Recovered, InBefore, InAfter, PlannedFor, Touched, Source;
    JournalLength(x, past, s, r);
    var rows, y := s.Rows(x.job), Journaled(x, past, s, r);
    forall i | 0 <= i < |y.ops|
      ensures i < |rows| && rows[i] == MakeEntry(i, y.ops[i]).(state := rows[i].state)
      ensures Live(rows[i]) ==> PlannedFor(y.ops[i], y.init)
      ensures InBefore(y.ops[i], y.init, s.files) || (InAfter(y.ops[i], s.files) && Live(rows[i]))
    {
      StepRecoverable(x, past, s, r, i);
    }
    StepsApart(x, past, r);
    forall path | Untouched(y.ops, path)
      ensures At(s.files, path) == At(y.init, path)
    {
      RecoveredAt(x, past, s, r, path);
      assert Source(x, past, s, r, path) == s.files by {
        NothingTaken(x, past, s, r, path);
      }
    }
  }

  lemma JournalLength(x: Execution, past: Past, s: Durable, r: nat)
    requires StartsAfter(x, past) && x.ScatteredAt(s, r)
    ensures r <= |x.ops| && |s.Rows(x.job)| == |Steps(x, past, r)|
  {
  }

  lemma NothingTaken(x: Execution, past: Past, s: Durable, r: nat, path: Path)
    requires r <= |x.ops| && Untouched(Steps(x, past, r), path)
    ensures Source(x, past, s, r, path) == s.files
  {
  }

  // ----- when the files before the execution are back -----

  /** Every row whose file shows a change is live exactly if it is among the r rows of the execution itself. */
  ghost predicate OwnAlone(rows: seq<JournalEntry>, files: Files, r: nat) {
    forall i :: 0 <= i < |rows| && Changed(rows[i], files) ==> (Live(rows[i]) <==> i < r)
  }

  lemma OthersStay(x: Execution, past: Past, s: Durable, r: nat, path: Path)
    requires StartsAfter(x, past) && x.ScatteredAt(s, r) && Untouched(Steps(x, past, r), path)
    ensures At(Recovered(x, past, s, r), path) == At(x.init, path)
  {
    RecoveredAt(x, past, s, r, path);
    NothingTaken(x, past, s, r, path);
    forall j | 0 <= j < r
      ensures path !in Touched(x.ops[j])
    {
      assert Steps(x, past, r)[j] == x.ops[j];
    }
    if !Untouched(x.ops, path) {
      var j :| 0 <= j < |x.ops| && path in Touched(x.ops[j]);
      assert InBefore(x.ops[j], x.init, s.files);
    }
  }

  /** The paths of row i's step are as before the execution exactly if a change there has a live row of its own. */
  lemma StepBack(x: Execution, past: Past, s: Durable, r: nat, i: nat)
    requires StartsAfter(x, past) && x.ScatteredAt(s, r) && i < |Steps(x, past, r)| && i < |s.Rows(x.job)|
    ensures (Changed(s.Rows(x.job)[i], s.files) ==> (Live(s.Rows(x.job)[i]) <==> i < r)) <==>
      InBefore(Steps(x, past, r)[i], x.init, Recovered(x, past, s, r))
  {
    hide StartsAfter, Execution.ScatteredAt, Recovered, PlannedFor, InAfter, Changed;
    JournalLength(x, past, s, r);
    StepKnown(x, past, s, r, i);
    var op, plan := Steps(x, past, r)[i], PlanOf(x, past, r, i);
    ChangedExactly(op, plan, s.files, s.Rows(x.job)[i]);
    forall path | path in Touched(op)
      ensures At(Recovered(x, past, s, r), path) == At(if Live(s.Rows(x.job)[i]) then plan else s.files, path)
      ensures i >= r ==> At(s.files, path) == At(x.init, path)
    {
      StepRecovers(x, past, s, r, i, path);
      if i >= r {
        PastStays(x, past, s, r, i, path);
      }
    }
  }

  /** Recovery gives back the files before the execution exactly if the live changes are its own. */
  lemma RecoversExactly(x: Execution, past: Past, s: Durable, r: nat)
    requires StartsAfter(x, past) && x.ScatteredAt(s, r)
    ensures Recovered(x, past, s, r) == x.init <==> OwnAlone(s.Rows(x.job), s.files, r)
  {
    hide StartsAfter, Execution.ScatteredAt, Recovered, Changed;
    JournalLength(x, past, s, r);
    var ops, files := Steps(x, past, r), Recovered(x, past, s, r);
    forall i | 0 <= i < |ops|
      ensures (Changed(s.Rows(x.job)[i], s.files) ==> (Live(s.Rows(x.job)[i]) <==> i < r)) <==>
              InBefore(ops[i], x.init, files)
    {
      StepBack(x, past, s, r, i);
    }
    if OwnAlone(s.Rows(x.job), s.files, r) {
      forall path
        ensures At(files, path) == At(x.init, path)
      {
        if Untouched(ops, path) {
          OthersStay(x, past, s, r, path);
        } else {
          var i :| 0 <= i < |ops| && path in Touched(ops[i]);
          assert InBefore(ops[i], x.init, files);
        }
      }
      SameAt(files, x.init);
    }
  }

  /** What recovery makes of a state of the execution with r rows stored. */
  ghost predicate RecoversTo(x: Execution, past: Past, s: Durable, r: nat, files: Files) {
    && x.ScatteredAt(s, r) && files == Recovered(x, past, s, r)
    && (files == x.init <==> OwnAlone(s.Rows(x.job), s.files, r))
  }

  /** Crash recovery on a state of the execution. */
  method RecoverCrash(crash: Durable, job: JobId, ghost x: Execution, ghost past: Past)
    returns (files: Files, ghost r: nat)
    ensures
      job == x.job && job in x.records && Flagged(x.records[job].status) && StartsAfter(x, past)
      && x.Scattered(crash) ==>
        RecoversTo(x, past, crash, r, files)
    ensures job !in crash.records || !Flagged(crash.records[job].status) ==> files == crash.files
  {
    hide StartsAfter, Execution.ScatteredAt, Recovered, Recoverable;
    ghost var y := x;
    r := 0;
    if StartsAfter(x, past) && x.Scattered(crash) {
      r :| x.ScatteredAt(crash, r);
      JournalLength(x, past, crash, r);
      ScatteredIsRecoverable(x, past, crash, r);
      RecoversExactly(x, past, crash, r);
      y := Journaled(x, past, crash, r);
      SameRecords(x, crash, r);
    }
    var result;
    files, result := RecoverFrom(crash, job, y);
  }

  lemma SameRecords(x: Execution, s: Durable, r: nat)
    requires x.ScatteredAt(s, r)
    ensures s.records == x.records
  {
  }

  /**
    An execution of independent steps, crashing in any state it starts from or logs, a failed rollback and its
    marks included, and recovery on what the crash left. Any calls of the execution may fail. The files before
    it are back exactly if each row whose file shows a change is live when it is one of the execution's own, and
    not live when it was left by an earlier accept.
  */
  method ExecuteCrashRecover(
    store: Store, crash: Durable, job: JobId, ops: seq<Operation>, cap: nat, ghost past: Past)
    returns (files: Files, ghost r: nat, ghost x: Execution)
    requires store.Quiet()
    requires StartsAfter(Execution(job, ops, store.files, store.Rows(job), store.records, cap), past)
    requires job in store.records && Flagged(store.records[job].status)
    modifies store`files, store`calls, store`states, store`lost, store`writes, store`journals
    ensures x == Execution(job, ops, old(store.files), old(store.Rows(job)), old(store.records), cap)
    ensures |old(store.states)| <= |store.states|
    ensures Logged(store, old(store.Now()), |old(store.states)|, crash) ==> RecoversTo(x, past, crash, r, files)
  {
    hide Run, StartsAfter, OnlyOwnLost, CallsMade, Execution.ScatteredAt, RecoversTo, BlocksFirst;
    x := Execution(job, ops, store.files, store.Rows(job), store.records, cap);
    StartIsScattered(x, past, store.Now());
    var result;
    ghost var trace;
    result, trace := Execute(store, job, ops, cap);
    files, r := RecoverCrash(crash, job, x, past);
  }

  /** The state an execution starts from, or one it logged. */
  ghost predicate Logged(store: Store, start: Durable, from: nat, s: Durable)
    reads store
  {
    s == start || exists i :: from <= i < |store.states| && store.states[i] == s
  }

  lemma StartIsScattered(x: Execution, past: Past, s: Durable)
    requires s.files == x.init && s.Rows(x.job) == x.rows && s.records == x.records && StartsAfter(x, past)
    ensures x.Scattered(s) && Independent(x)
  {
    assert x.ops[..0] == [];
    StandsScattered(x, s, 0, 0);
  }

  // ----- two inputs -----

  const OTHER_NOTE := Operation(Create, "other.md", false, None, None, Some([8]), None, "", "")

  /**
    One note is created by a first accept. A second accept, of another note, crashes before its first row is
    stored: recovery takes the first note back.
  */
  method LaterCrashTakesEarlierBack() returns (before: Files, files: Files)
    ensures before == map["note.md" := [7]] && files == map[]
  {
    hide Run, Stored, Entries, RowFits, WellFormed, StartsAfter, Recovered, OwnAlone, BlocksFirst;
    var record := HistoryRecord(Executing, [], [], map[]);
    var store := new Store(Durable(map[], map[], map["job" := record]), (n, f) => f, n => NoFault);
    ghost var x := Execution("job", [ONE_NOTE], map[], [], map["job" := record], 0);
    OneNoteRuns(x);
    assert x.ops[..1] == x.ops && Entries(x.ops)[..1] == Entries(x.ops);
    var result;
    ghost var trace, r, later;
    result, trace := Execute(store, "job", [ONE_NOTE], 0);
    before := store.files;
    var left := Durable(store.files, store.journals, store.records);
    ghost var past := Past([ONE_NOTE], map[]);
    OtherStartsAfter(Execution("job", [OTHER_NOTE], left.files, left.Rows("job"), left.records, 0), past);
    files, r, later := ExecuteCrashRecover(store, left, "job", [OTHER_NOTE], 0, past);
    FirstNoteGoes(later, past, left, r);
  }

  lemma OtherStartsAfter(x: Execution, past: Past)
    requires x.ops == [OTHER_NOTE] && x.init == map["note.md" := [7]] && past == Past([ONE_NOTE], map[])
    requires x.rows == [MakeEntry(0, ONE_NOTE).(state := Applied)]
    ensures StartsAfter(x, past)
  {
  }

  lemma FirstNoteGoes(x: Execution, past: Past, s: Durable, r: nat)
    requires x.ops == [OTHER_NOTE] && x.init == map["note.md" := [7]] && past == Past([ONE_NOTE], map[])
    requires x.rows == [MakeEntry(0, ONE_NOTE).(state := Applied)] == s.Rows(x.job)
    requires x.ScatteredAt(s, r)
    ensures Recovered(x, past, s, r) == map[]
  {
    hide Recovered;
    OtherStartsAfter(x, past);
    var files := Recovered(x, past, s, r);
    assert r == 0 && Steps(x, past, 0) == [ONE_NOTE];
    StepRecovers(x, past, s, 0, 0, "note.md");
    forall path
      ensures At(files, path) == At(map[], path)
    {
      if path != "note.md" {
        assert Untouched(Steps(x, past, 0), path);
        OthersStay(x, past, s, 0, path);
      }
    }
    SameAt(files, map[]);
  }

  /**
    Two notes are to be created. The second create fails, and so does taking the first one back; all rows are
    marked, and the process dies before the record is saved. Recovery then restores nothing and reports success.
  */
  method FailedRollbackStays() returns (first: RecoveryResult, second: RecoveryResult, files: Files)
    ensures first.status == RollbackFailed && second.status == RolledBackJob && "note.md" in files
  {
    hide Run, Stored, Entries, RowFits, WellFormed, Independent, BlockedAt;
    var record := HistoryRecord(Executing, [], [], map[]);
    var faults := n => if n == 1 || n == 2 then EarlyFault else NoFault;
    var store := new Store(Durable(map[], map[], map["job" := record]), (n, f) => f, faults);
    ghost var x := Execution("job", [ONE_NOTE, OTHER_NOTE], map[], [], map["job" := record], 0);
    ghost var trace, passes;
    FirstNoteRuns(x, store);
    first, trace := Execute(store, "job", [ONE_NOTE, OTHER_NOTE], 0);
    assert trace.x == x && trace.done == 1 && trace.rollbackFrom == 2;
    var rows := store.Rows("job");
    assert rows == Marked(rows, RolledBack);
    MarkedNotLive(rows);
    var crash := Durable(store.files, store.journals, store.records);
    var restarted := new Store(crash, (n, f) => f, n => NoFault);
    second, passes := RollbackIfSafe(restarted, "job", x);
    files := restarted.files;
  }

  lemma FirstNoteRuns(x: Execution, store: Store)
    requires x == Execution("job", [ONE_NOTE, OTHER_NOTE], map[], [], x.records, 0)
    requires store.faults(0).NoFault? && store.faults(1).EarlyFault?
    ensures AllWellFormed(x.ops) && RowFits(x, 0) && RowFits(x, 1)
    ensures !Blocked(store, x, 0, 0) && Blocked(store, x, 0, 1)
    ensures Run(x.ops[..1], x.init) == Some(map["note.md" := [7]])
  {
    var y := x.(ops := [ONE_NOTE]);
    OneNoteRuns(y);
    assert x.ops[..1] == [ONE_NOTE] && y.ops[..1] == [ONE_NOTE];
    assert Entries(x.ops)[..1] == Entries(y.ops)[..1];
    assert Entries(x.ops)[..2][..1] == Entries(x.ops)[..1];
  }
}
