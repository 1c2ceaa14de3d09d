/** What the rows of an execution say about the files, in every state the execution passes through. */
module WriteAhead {
  import opened Base
  import opened Vault
  import opened Transactions
  import opened HistoryStore
  import opened Executions

  /** The row holds what was at `path` before the run. */
  ghost predicate Covers(row: JournalEntry, init: Files, path: Path) {
    match row.kind
    case Create => path == row.path && path !in init
    case Update => path == row.path && path in init && Before(row) == Some(init[path])
    case Move =>
      if path == row.inverseSource then path in init && Before(row) == Some(init[path])
      else path == row.path && path !in init
    case Undo => false
  }

  lemma StepTouches(op: Operation, files: Files, path: Path)
    requires Step(op, files).Some? && path !in Touched(op)
    ensures At(Step(op, files).value, path) == At(files, path)
  {
  }

  lemma StepCovers(seqNo: nat, op: Operation, files: Files, init: Files, path: Path)
    requires WellFormed(op) && Step(op, files).Some? && path in Touched(op) && At(files, path) == At(init, path)
    ensures Covers(MakeEntry(seqNo, op), init, path)
  {
    if op.beforeBytes.Some? {
      BeforeDecodes(seqNo, op);
    }
  }

  /** The first step that touches a changed path stored what was there before the run. */
  lemma {:induction false} ChangedIsCovered(ops: seq<Operation>, m: nat, init: Files, path: Path) returns (k: nat)
    requires AllWellFormed(ops) && m <= |ops| && Run(ops[..m], init).Some?
    requires At(Run(ops[..m], init).value, path) != At(init, path)
    ensures k < m && Covers(MakeEntry(k, ops[k]), init, path)
  {
    RunPrefix(ops, m - 1, init);
    var before := Run(ops[..m - 1], init).value;
    if At(before, path) != At(init, path) {
      k := ChangedIsCovered(ops, m - 1, init, path);
    } else {
      k := m - 1;
      if path !in Touched(ops[k]) {
        StepTouches(ops[k], before, path);
      }
      StepCovers(k, ops[k], before, init, path);
    }
  }

  lemma {:induction false} StoredIgnoresState(rows: seq<JournalEntry>, others: seq<JournalEntry>)
    requires |rows| == |others|
    requires forall i :: 0 <= i < |rows| ==> rows[i].beforeBase64 == others[i].beforeBase64
    ensures Stored(rows) == Stored(others)
  {
    if rows != [] {
      StoredIgnoresState(rows[..|rows| - 1], others[..|rows| - 1]);
    }
  }

  /** Some stored row holds what was at `path` before the run; if `live`, recovery will look at it. */
  ghost predicate Covered(rows: seq<JournalEntry>, init: Files, path: Path, live: bool) {
    exists k :: 0 <= k < |rows| && Covers(rows[k], init, path) && (live ==> !rows[k].state.RolledBack?)
  }

  lemma StandsCovered(x: Execution, s: Durable, m: nat, r: nat, path: Path)
    requires AllWellFormed(x.ops) && x.StandsAt(s, m, r) && At(s.files, path) != At(x.init, path)
    ensures Covered(s.Rows(x.job), x.init, path, x.PassesAt(s, m, r))
  {
    var rows := s.Rows(x.job);
    var k := ChangedIsCovered(x.ops, m, x.init, path);
    assert rows[k] == MakeEntry(k, x.ops[k]).(state := rows[k].state);
    assert Before(rows[k]) == Before(MakeEntry(k, x.ops[k]));
    assert Covers(rows[k], x.init, path);
  }

  /**
    Write-ahead coverage: in every state an execution leaves, after a failed rollback too, each changed path
    has a stored row with its before-state. In every state before that, recovery will look at the row. On an
    empty journal the stored texts fit the cap.
  */
  lemma EveryChangeIsJournaled(x: Execution, s: Durable)
    requires AllWellFormed(x.ops) && x.Stands(s)
    ensures forall path | At(s.files, path) != At(x.init, path) ::
      Covered(s.Rows(x.job), x.init, path, false) && (x.Passes(s) ==> Covered(s.Rows(x.job), x.init, path, true))
    ensures x.rows == [] ==> Stored(s.Rows(x.job)) <= x.cap
  {
    var m: nat, r: nat :| x.StandsAt(s, m, r);
    var rows := s.Rows(x.job);
    forall path | At(s.files, path) != At(x.init, path)
      ensures Covered(rows, x.init, path, false) && (x.Passes(s) ==> Covered(rows, x.init, path, true))
    {
      StandsCovered(x, s, m, r, path);
      if x.Passes(s) {
        var m': nat, r': nat :| x.PassesAt(s, m', r');
        StandsCovered(x, s, m', r', path);
      }
    }
    if x.rows == [] {
      StoredIgnoresState(rows, Entries(x.ops)[..r]);
    }
  }
}
