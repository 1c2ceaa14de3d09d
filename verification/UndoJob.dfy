/** Undo of a committed job from its journal rows. */
module UndoJob {
  import opened Base
  import opened Vault
  import opened Transactions
  import opened HistoryStore
  import opened Executions
  import opened Executor
  import opened Recoverability
  import opened Recovery

  /** How one row's restore ends: `Raised` is a vault error that escapes undo. */
  datatype Outcome = Restored | Conflicted | Raised

  /** How undo ends; a raised vault error gives no result. */
  datatype Answer = Answered(result: RecoveryResult) | Escaped

  predicate Executable(row: JournalEntry) {
    !row.kind.Undo?
  }

  function ExecutableRows(rows: seq<JournalEntry>): seq<JournalEntry> {
    if rows == [] then []
    else
      ExecutableRows(rows[..|rows| - 1]) +
      if Executable(rows[|rows| - 1]) then [rows[|rows| - 1]] else []
  }

  lemma {:induction false} ExecutableRowsFilter(rows: seq<JournalEntry>)
    ensures forall row :: row in ExecutableRows(rows) <==> row in rows && Executable(row)
    ensures (forall i :: 0 <= i < |rows| ==> Executable(rows[i])) ==> ExecutableRows(rows) == rows
  {
    if rows != [] {
      ExecutableRowsFilter(rows[..|rows| - 1]);
      assert rows == rows[..|rows| - 1] + [rows[|rows| - 1]];
    }
  }

  /** Undo's audit row names the path that got its content back. */
  function AuditOf(row: JournalEntry, seqNo: nat): JournalEntry {
    match row.kind
    case Move => Audit(seqNo, row.inverseSource, row.beforeHash)
    case Create => Audit(seqNo, row.path, None)
    case _ => Audit(seqNo, row.path, row.beforeHash)
  }

  /** The restored content is what the row says was there before. */
  predicate Verified(row: JournalEntry, reply: Reply) {
    match row.kind
    case Create => true
    case Move => row.beforeHash.None? || (reply.Done? && reply.sha256 == row.beforeHash)
    case _ => reply.Done? && reply.sha256 == row.beforeHash
  }

  /**
    After a row is restored, its audit row names the path that got its content back, with the digest found there if
    the restore is verified, and for a created file no digest.
  */
  lemma AuditTells(row: JournalEntry, seqNo: nat, files: Files)
    requires RestoreRow(row, files).Some?
    ensures var (after, audit) := (RestoreRow(row, files).value, AuditOf(row, seqNo));
      var verified := Verified(row, Perform(RowInverse(row).value, files).0);
      && audit.kind.Undo? && audit.seqNo == seqNo
      && audit.beforeHash == (if row.kind.Create? then None else row.beforeHash)
      && match row.kind
         case Create => audit.path == row.path && row.path !in after && verified
         case Update =>
           && audit.path == row.path && row.path in after
           && (verified <==> Some(Sha256(after[row.path])) == row.beforeHash)
         case Move =>
           && audit.path == row.inverseSource && row.inverseSource in after
           && (verified <==> row.beforeHash.None? || Some(Sha256(after[row.inverseSource])) == row.beforeHash)
         case Undo => false
  {
  }

  /** On a quiet vault a row is restored, or left alone, or restored without this being confirmed. */
  ghost predicate SettledRow(row: JournalEntry, outcome: Outcome, before: Files, after: Files) {
    RestoreRow(row, before) == Some(after) || (outcome != Restored && after == before)
  }

  predicate Lost(row: JournalEntry) {
    row.kind.Move? && row.inverseSource == ""
  }

  /** The row's file shows what the job wrote, and putting back what was there before works. */
  ghost predicate Undoable(row: JournalEntry, files: Files) {
    && !Lost(row) && Ours(row, files)
    && RestoreRow(row, files).Some? && Verified(row, Perform(RowInverse(row).value, files).0)
  }

  /** A read, the inverse, and for a created file the check that it is gone. */
  function CallsOf(row: JournalEntry): nat {
    if row.kind.Create? then 3 else 2
  }

  ghost predicate Clear(faults: nat -> Fault, from: nat, to: nat) {
    forall n :: from <= n < to ==> faults(n).NoFault?
  }

  /** Before anything is written: the row has no source to go back to, or its file cannot be read or was changed. */
  ghost predicate TurnsBack(row: JournalEntry, files: Files, fault: Fault) {
    Lost(row) || !fault.NoFault? || !Ours(row, files)
  }

  /** The row is a conflict, its first call being the `at`-th; the other way to fail is a vault error that escapes. */
  ghost predicate IsConflict(faults: nat -> Fault, row: JournalEntry, files: Files, at: nat) {
    || TurnsBack(row, files, faults(at))
    || (Clear(faults, at, at + CallsOf(row)) && RestoreRow(row, files).Some? && !Undoable(row, files))
  }

  /**
    Where undo stops, from the last row on: how many rows are left, on which files, and at which call. A row goes
    if it can be undone and none of its calls fails.
  */
  ghost function StopsAt(faults: nat -> Fault, rows: seq<JournalEntry>, files: Files, at: nat): (nat, Files, nat) {
    if rows == [] then (0, files, at)
    else
      var last := rows[|rows| - 1];
      if Undoable(last, files) && Clear(faults, at, at + CallsOf(last)) then
        StopsAt(faults, rows[..|rows| - 1], RestoreRow(last, files).value, at + CallsOf(last))
      else (|rows|, files, at)
  }

  lemma UndoableRestores(row: JournalEntry, files: Files)
    requires Undoable(row, files)
    ensures RestoreRow(row, files).Some?
  {
  }

  /** The rows behind the stop are restored, and the row there cannot be, or one of its calls fails. */
  lemma {:induction false} StopSays(faults: nat -> Fault, rows: seq<JournalEntry>, files: Files, at: nat)
    ensures var (left, mid, call) := StopsAt(faults, rows, files, at);
      && left <= |rows| && RestoreAll(rows[left..], files) == Some(mid) && at <= call && Clear(faults, at, call)
      && (left > 0 ==>
            !Undoable(rows[left - 1], mid) || !Clear(faults, call, call + CallsOf(rows[left - 1])))
  {
    hide RestoreRow, CallsOf, Undoable;
    if rows != [] {
      var n := |rows| - 1;
      var last := rows[n];
      if Undoable(last, files) && Clear(faults, at, at + CallsOf(last)) {
        UndoableRestores(last, files);
        StopSays(faults, rows[..n], RestoreRow(last, files).value, at + CallsOf(last));
        var (left, mid, call) := StopsAt(faults, rows, files, at);
        assert rows[left..][..|rows[left..]| - 1] == rows[..n][left..];
      } else {
        assert rows[|rows|..] == [];
      }
    }
  }

  /**
    Without failing calls: if the rows behind row k can be undone and row k's file does not have its after-hash any
    more, undo stops there, on the files with the rows behind it restored.
  */
  lemma {:induction false} StopsAtChanged(
    faults: nat -> Fault, rows: seq<JournalEntry>, files: Files, at: nat, k: nat, mid: Files)
    requires k < |rows| && (forall n :: faults(n).NoFault?) && AllUndoable(rows, k + 1, files, mid)
    requires !Ours(rows[k], mid)
    ensures var (left, stopped, call) := StopsAt(faults, rows, files, at);
      left == k + 1 && stopped == mid && IsConflict(faults, rows[k], mid, call)
  {
    if |rows| > k + 1 {
      var n := |rows| - 1;
      StopsAtChanged(faults, rows[..n], RestoreRow(rows[n], files).value, at + CallsOf(rows[n]), k, mid);
    }
  }

  /** The rows from the last down to row k can be undone one after the other, which leads to `mid`. */
  ghost predicate AllUndoable(rows: seq<JournalEntry>, k: nat, files: Files, mid: Files) {
    if |rows| <= k then files == mid
    else
      var n := |rows| - 1;
      Undoable(rows[n], files) && AllUndoable(rows[..n], k, RestoreRow(rows[n], files).value, mid)
  }

  /** Restores the row's before-state and verifies it. */
  method PutBack(store: Store, row: JournalEntry) returns (outcome: Outcome)
    modifies store`files, store`calls, store`states, store`lost, store`writes
    ensures Grown(old(store.lost), store.lost) && Grown(old(store.states), store.states)
      && old(store.calls) <= store.calls
    ensures LostOnlyAt(|old(store.lost)|, store.lost, row.path, row.afterHash)
    ensures KeepsRecords(old(store.states), store.states, store.records)
    ensures store.Quiet() ==>
      var (files, at) := (old(store.files), old(store.calls));
      var restores := RestoreRow(row, files).Some? && Clear(store.faults, at, at + CallsOf(row) - 1);
      var verified := RestoreRow(row, files).Some? && Verified(row, Perform(RowInverse(row).value, files).0);
      && (outcome == Restored <==> restores && verified) && (outcome == Conflicted <==> restores && !verified)
      && (verified && store.NoFaults(at, store.calls) ==> outcome == Restored)
      && (store.files == files || RestoreRow(row, files) == Some(store.files))
      && (outcome == Restored ==> RestoreRow(row, files) == Some(store.files) && store.calls == at + CallsOf(row) - 1)
  {
    hide Verified;
    var call := RowInverse(row);
    if call.None? {
      return Raised;
    }
    RowInverseGuard(row);
    var reply := store.Revert(call.value);
    if reply.Failed? {
      return if reply.error == AlreadyExists && row.kind.Create? then Conflicted else Raised;
    }
    outcome := if Verified(row, reply) then Restored else Conflicted;
  }

  /** Checks the current content, restores the row's before-state and verifies it. */
  method RestoreOne(store: Store, row: JournalEntry) returns (outcome: Outcome)
    modifies store`files, store`calls, store`states, store`lost, store`writes
    ensures Grown(old(store.lost), store.lost) && Grown(old(store.states), store.states)
      && old(store.calls) <= store.calls
    ensures LostOnlyAt(|old(store.lost)|, store.lost, row.path, row.afterHash)
    ensures KeepsRecords(old(store.states), store.states, store.records)
    ensures store.Quiet() ==>
      && SettledRow(row, outcome, old(store.files), store.files)
      && (store.NoFaults(old(store.calls), store.calls) && RestoreRow(row, old(store.files)).Some? ==>
            (Verified(row, Perform(RowInverse(row).value, old(store.files)).0) ==> outcome == Restored))
    ensures store.Quiet() ==>
      var (files, at) := (old(store.files), old(store.calls));
      && (outcome == Restored <==> Undoable(row, files) && Clear(store.faults, at, at + CallsOf(row)))
      && (outcome == Restored ==> RestoreRow(row, files) == Some(store.files) && store.calls == at + CallsOf(row))
      && (outcome == Conflicted <==> IsConflict(store.faults, row, files, at))
      && (TurnsBack(row, files, store.faults(at)) ==> store.files == files)
  {
    hide Verified;
    if row.kind.Move? && row.inverseSource == "" {
      return Conflicted;
    }
    var current := store.Read(row.path);
    if current.Failed? || current.sha256 != row.afterHash {
      return Conflicted;
    }
    outcome := PutBack(store, row);
  }

  /** The quiet run that undo takes back: what the job committed, and how much of it is left. */
  ghost predicate Committed(x: Execution, rows: seq<JournalEntry>, n: nat, files: Files) {
    && AllWellFormed(x.ops) && n <= |x.ops| && |rows| == |x.ops|
    && (forall i :: 0 <= i < |rows| ==> rows[i] == MakeEntry(i, x.ops[i]).(state := rows[i].state))
    && Run(x.ops[..n], x.init) == Some(files)
  }

  lemma CommittedStep(x: Execution, rows: seq<JournalEntry>, n: nat, files: Files)
    requires n > 0 && Committed(x, rows, n, files)
    ensures RestoreRow(rows[n - 1], files).Some? && Committed(x, rows, n - 1, RestoreRow(rows[n - 1], files).value)
    ensures Verified(rows[n - 1], Perform(RowInverse(rows[n - 1]).value, files).0)
  {
    RunPrefix(x.ops, n - 1, x.init);
    var before := Run(x.ops[..n - 1], x.init).value;
    InverseUndoesStep(n - 1, x.ops[n - 1], rows[n - 1].state, before);
    InverseReply(x.ops[n - 1], MakeEntry(0, x.ops[n - 1]).afterHash.value, before);
  }

  lemma CommittedNone(x: Execution, rows: seq<JournalEntry>, files: Files)
    requires Committed(x, rows, 0, files)
    ensures files == x.init
  {
    assert x.ops[..0] == [];
  }

  lemma CommittedHasNoAudits(x: Execution, rows: seq<JournalEntry>, n: nat, files: Files)
    requires Committed(x, rows, n, files)
    ensures |rows| == |x.ops| && forall row :: row in rows ==> !row.kind.Undo?
  {
    forall i | 0 <= i < |rows|
      ensures !rows[i].kind.Undo?
    {
      assert WellFormed(x.ops[i]);
    }
  }

  /** Audit rows for the listed rows from the last down to row n, numbered from `first`. */
  function UndoAudits(list: seq<JournalEntry>, n: nat, first: nat): (audits: seq<JournalEntry>)
    requires n <= |list|
    ensures |audits| == |list| - n
    decreases |list| - n
  {
    if n == |list| then []
    else UndoAudits(list, n + 1, first) + [AuditOf(list[n], first + |list| - n - 1)]
  }

  lemma {:induction false} UndoAuditsAt(list: seq<JournalEntry>, n: nat, first: nat, i: nat)
    requires n <= |list| && i < |list| - n
    ensures UndoAudits(list, n, first)[i] == AuditOf(list[|list| - 1 - i], first + i)
    decreases |list| - n
  {
    if i < |list| - n - 1 {
      UndoAuditsAt(list, n + 1, first, i);
    }
  }

  /** Paths of the listed rows from the last down to row n. */
  function PathsBack(list: seq<JournalEntry>, n: nat): (paths: seq<Path>)
    requires n <= |list|
    ensures |paths| == |list| - n
    decreases |list| - n
  {
    if n == |list| then [] else PathsBack(list, n + 1) + [list[n].path]
  }

  lemma {:induction false} PathsBackAt(list: seq<JournalEntry>, n: nat, i: nat)
    requires n <= |list| && i < |list| - n
    ensures PathsBack(list, n)[i] == list[|list| - 1 - i].path
    decreases |list| - n
  {
    if i < |list| - n - 1 {
      PathsBackAt(list, n + 1, i);
    }
  }

  /** Row n - 1 is restored exactly if the stop is not there, and is a conflict exactly if it is one. */
  ghost predicate GoesOn(
    faults: nat -> Fault, list: seq<JournalEntry>, n: nat, files: Files, at: nat, outcome: Outcome, files': Files,
    at': nat)
    requires 0 < n <= |list|
  {
    var row := list[n - 1];
    && (if outcome == Restored
        then StopsAt(faults, list[..n], files, at) == StopsAt(faults, list[..n - 1], files', at')
        else StopsAt(faults, list[..n], files, at) == (n, files, at))
    && (outcome == Conflicted ==> IsConflict(faults, row, files, at))
    && (outcome == Raised ==> !IsConflict(faults, row, files, at))
    && (TurnsBack(row, files, faults(at)) ==> files' == files)
  }

  lemma OneGoesOn(
    faults: nat -> Fault, list: seq<JournalEntry>, n: nat, files: Files, at: nat, outcome: Outcome, files': Files,
    at': nat)
    requires 0 < n <= |list|
    requires var row := list[n - 1];
      && (outcome == Restored <==> Undoable(row, files) && Clear(faults, at, at + CallsOf(row)))
      && (outcome == Restored ==> RestoreRow(row, files) == Some(files') && at' == at + CallsOf(row))
      && (outcome == Conflicted <==> IsConflict(faults, row, files, at))
      && (TurnsBack(row, files, faults(at)) ==> files' == files)
    ensures GoesOn(faults, list, n, files, at, outcome, files', at')
  {
    hide RestoreRow, Undoable, IsConflict, TurnsBack, Clear;
    assert list[..n][..n - 1] == list[..n - 1];
  }

  /** Restores row n - 1 of the list and writes its audit row; `run` is the committed run on an undisturbed vault. */
  method UndoNext(store: Store, job: JobId, list: seq<JournalEntry>, n: nat, ghost run: Option<Execution>)
    returns (outcome: Outcome)
    requires 0 < n <= |list|
    requires run.Some? ==> store.Quiet() && Committed(run.value, list, n, store.files)
    modifies store`files, store`calls, store`states, store`lost, store`writes, store`journals
    ensures OnlyRowsLost(list, old(store.Log()), store.Log())
    ensures KeepsRecords(old(store.states), store.states, store.records)
    ensures store.journals - {job} == old(store.journals) - {job}
    ensures store.Rows(job) == old(store.Rows(job))
      + if outcome == Restored then [AuditOf(list[n - 1], |old(store.Rows(job))|)] else []
    ensures store.Quiet() ==> SettledRow(list[n - 1], outcome, old(store.files), store.files)
    ensures store.Quiet() ==>
      GoesOn(store.faults, list, n, old(store.files), old(store.calls), outcome, store.files, store.calls)
    ensures run.Some? && outcome == Restored ==> Committed(run.value, list, n - 1, store.files)
    ensures run.Some? && outcome != Restored ==> !store.NoFaults(old(store.calls), store.calls)
  {
    if run.Some? {
      CommittedStep(run.value, list, n, store.files);
    }
    outcome := RestoreOne(store, list[n - 1]);
    if store.Quiet() {
      OneGoesOn(
        store.faults, list, n, old(store.files), old(store.calls), outcome, store.files, store.calls);
    }
    LostByOne(list, |old(store.lost)|, store.lost, list[n - 1]);
    if outcome == Restored {
      store.AddJournal(job, AuditOf(list[n - 1], |store.Rows(job)|));
    }
  }

  /** Stopping with n rows left: past the last row it did restore, at it at most its files changed. */
  ghost predicate Stopped(list: seq<JournalEntry>, n: nat, before: Files, after: Files) {
    if list == [] then after == before
    else if n < |list| then RestoreRow(list[|list| - 1], before).Some?
    else after == before || RestoreRow(list[|list| - 1], before) == Some(after)
  }

  lemma RecordsStart(states: seq<Durable>, records: map<JobId, HistoryRecord>)
    ensures KeepsRecords(states, states, records)
  {
  }

  lemma RecordsKept(
    a: seq<Durable>, b: seq<Durable>, c: seq<Durable>, records: map<JobId, HistoryRecord>)
    requires KeepsRecords(a, b, records) && KeepsRecords(b, c, records)
    ensures KeepsRecords(a, c, records)
  {
  }

  /** The rows went down to the stop, and how the row there ended. */
  ghost predicate EndsAt(
    faults: nat -> Fault, rows: seq<JournalEntry>, files: Files, at: nat, outcome: Outcome, left: nat, files': Files)
  {
    var (stop, mid, call) := StopsAt(faults, rows, files, at);
    && left == stop && (outcome == Restored <==> left == 0)
    && (left == 0 ==> files' == mid)
    && (0 < left <= |rows| ==>
          && (outcome == Conflicted <==> IsConflict(faults, rows[left - 1], mid, call))
          && (TurnsBack(rows[left - 1], mid, faults(call)) ==> files' == mid))
  }

  /** Restores the rows in reverse, one audit row each, until one does not restore. */
  method RestoreAllRows(store: Store, job: JobId, list: seq<JournalEntry>, ghost run: Option<Execution>)
    returns (outcome: Outcome, restored: seq<Path>, conflictAt: seq<Path>, ghost left: nat)
    requires run.Some? ==> store.Quiet() && Committed(run.value, list, |list|, store.files)
    modifies store`files, store`calls, store`states, store`lost, store`writes, store`journals
    ensures OnlyRowsLost(list, old(store.Log()), store.Log())
    ensures KeepsRecords(old(store.states), store.states, store.records)
    ensures store.journals - {job} == old(store.journals) - {job}
    ensures left <= |list| && (outcome == Restored ==> left == 0)
    ensures store.Rows(job) == old(store.Rows(job)) + UndoAudits(list, left, |old(store.Rows(job))|)
    ensures store.Quiet() ==> Stopped(list, left, old(store.files), store.files)
    ensures restored == PathsBack(list, left)
    ensures outcome != Restored ==> left > 0 && conflictAt == [list[left - 1].path]
    ensures store.Quiet() ==>
      EndsAt(store.faults, list, old(store.files), old(store.calls), outcome, left, store.files)
    ensures run.Some? && outcome == Restored ==> store.files == run.value.init
    ensures run.Some? && outcome != Restored ==> !store.NoFaults(old(store.calls), store.calls)
  {
    hide RestoreRow, AuditOf, Committed, OnlyRowsLost, SettledRow, KeepsRecords, IsConflict, TurnsBack, Undoable, Clear;
    RecordsStart(store.states, store.records);
    NothingLost(list, store.Log());
    outcome, left := Restored, |list|;
    restored, conflictAt := [], [];
    var n: nat := |list|;
    assert list[..|list|] == list;
    while n > 0 && outcome == Restored
      invariant left == n <= |list|
      invariant OnlyRowsLost(list, old(store.Log()), store.Log())
      invariant KeepsRecords(old(store.states), store.states, store.records)
      invariant store.journals - {job} == old(store.journals) - {job}
      invariant store.Rows(job) == old(store.Rows(job)) + UndoAudits(list, n, |old(store.Rows(job))|)
      invariant restored == PathsBack(list, n)
      invariant outcome != Restored ==> n > 0 && conflictAt == [list[n - 1].path]
      invariant store.Quiet() && outcome == Restored ==>
        StopsAt(store.faults, list[..n], store.files, store.calls)
        == StopsAt(store.faults, list, old(store.files), old(store.calls))
      invariant store.Quiet() && outcome != Restored ==>
        EndsAt(store.faults, list, old(store.files), old(store.calls), outcome, n, store.files)
      invariant n == |list| && outcome == Restored ==> store.files == old(store.files)
      invariant store.Quiet() ==> Stopped(list, n, old(store.files), store.files)
      invariant run.Some? && outcome == Restored ==> Committed(run.value, list, n, store.files)
      invariant run.Some? && outcome != Restored ==> !store.NoFaults(old(store.calls), store.calls)
      decreases n, outcome == Restored
    {
      label L:
      outcome := UndoNext(store, job, list, n, run);
      OnlyRowsLostTransitive(list, old(store.Log()), old@L(store.Log()), store.Log());
      CallsGrow(list, old(store.Log()), old@L(store.Log()));
      CallsGrow(list, old@L(store.Log()), store.Log());
      RecordsKept(old(store.states), old@L(store.states), store.states, store.records);
      if outcome == Restored {
        restored := restored + [list[n - 1].path];
        n, left := n - 1, left - 1;
      } else {
        conflictAt := [list[n - 1].path];
      }
    }
    if run.Some? && outcome == Restored {
      CommittedNone(run.value, list, store.files);
    }
  }

  predicate IsUndone(answer: Answer) {
    answer.Answered? && answer.result.status == Undone
  }

  /**
    What an attempt to undo leaves on a quiet vault: success takes a last row that restores; otherwise
    an audit row bars the next attempt, or nothing was recorded and at most that row was restored.
  */
  ghost predicate Attempted(
    rows: seq<JournalEntry>, files: Files, rows': seq<JournalEntry>, files': Files, undone: bool)
  {
    if rows == [] then !undone && rows' == rows && files' == files
    else
      && (undone ==> RestoreRow(rows[|rows| - 1], files).Some?)
      && (!undone ==>
            || (exists row :: row in rows' && row.kind.Undo?)
            || (rows' == rows && (files' == files || RestoreRow(rows[|rows| - 1], files) == Some(files'))))
  }

  lemma StoppedIsAttempted(rows: seq<JournalEntry>, left: nat, files: Files, files': Files, undone: bool)
    requires rows != [] && left <= |rows| && (undone ==> left == 0) && Stopped(rows, left, files, files')
    ensures Attempted(rows, files, rows + UndoAudits(rows, left, |rows|), files', undone)
  {
    hide RestoreRow;
    var rows' := rows + UndoAudits(rows, left, |rows|);
    if left < |rows| {
      UndoAuditsAt(rows, left, |rows|, 0);
      assert rows'[|rows|].kind.Undo? && rows'[|rows|] in rows';
    }
  }

  /**
    What undo of these rows answers on a quiet vault. It stops where `StopsAt` says. At a conflict it names that
    row's path and lists the rows restored behind it; a row that was changed or cannot be read is left as it is.
    Any other failure there is a vault error that escapes.
  */
  ghost predicate UndoSays(
    faults: nat -> Fault, rows: seq<JournalEntry>, files: Files, at: nat, answer: Answer, files': Files)
  {
    var (left, mid, call) := StopsAt(faults, rows, files, at);
    if left == 0 || left > |rows| then
      answer == Answered(RecoveryResult(Undone, PathsBack(rows, 0), [])) && files' == mid
    else
      var row := rows[left - 1];
      && (answer == Answered(RecoveryResult(Conflict, PathsBack(rows, left), [row.path])) <==>
            IsConflict(faults, row, mid, call))
      && (answer == Escaped <==> !IsConflict(faults, row, mid, call))
      && (TurnsBack(row, mid, faults(call)) ==> files' == mid)
  }

  /** One audit row for each row that was undone. */
  ghost predicate PartlyUndone(rows: seq<JournalEntry>, rows': seq<JournalEntry>) {
    exists left: nat :: left <= |rows| && rows' == rows + UndoAudits(rows, left, |rows|)
  }

  /** Undoes a job whose journal has rows and no audit row yet. */
  method UndoExecuted(store: Store, job: JobId, ghost x: Execution) returns (answer: Answer)
    requires store.Rows(job) != [] && forall row :: row in store.Rows(job) ==> !row.kind.Undo?
    modifies store`files, store`calls, store`states, store`lost, store`writes, store`journals
    ensures OnlyRowsLost(old(store.Rows(job)), old(store.Log()), store.Log())
    ensures KeepsRecords(old(store.states), store.states, store.records)
    ensures store.journals - {job} == old(store.journals) - {job}
    ensures answer.Answered? ==> answer.result.status == Conflict || answer.result.status == Undone
    ensures store.Quiet() ==>
      UndoSays(store.faults, old(store.Rows(job)), old(store.files), old(store.calls), answer, store.files)
    ensures !IsUndone(answer) ==> PartlyUndone(old(store.Rows(job)), store.Rows(job))
    ensures IsUndone(answer) ==>
      && store.Rows(job) == old(store.Rows(job)) + UndoAudits(old(store.Rows(job)), 0, |old(store.Rows(job))|)
      && answer.result.restored == PathsBack(old(store.Rows(job)), 0)
    ensures store.Quiet() && Committed(x, old(store.Rows(job)), |x.ops|, old(store.files)) ==>
      && (IsUndone(answer) ==> store.files == x.init)
      && (store.NoFaults(old(store.calls), store.calls) ==> IsUndone(answer))
    ensures store.Quiet() ==>
      Attempted(old(store.Rows(job)), old(store.files), store.Rows(job), store.files, IsUndone(answer))
  {
    hide RestoreRow, Committed, OnlyRowsLost, Attempted, Stopped, EndsAt, UndoSays;
    var rows := store.Rows(job);
    ghost var run := None;
    if store.Quiet() && Committed(x, rows, |x.ops|, store.files) {
      CommittedHasNoAudits(x, rows, |x.ops|, store.files);
      run := Some(x);
    }
    var executed := ExecutableRows(rows);
    ExecutableRowsFilter(rows);
    assert forall i :: 0 <= i < |rows| ==> rows[i] in rows;
    assert executed == rows;
    var outcome, restored, conflictAt;
    ghost var left;
    outcome, restored, conflictAt, left := RestoreAllRows(store, job, executed, run);
    if store.Quiet() {
      StoppedIsAttempted(rows, left, old(store.files), store.files, outcome == Restored);
    }
    answer := AnswerOf(outcome, restored, conflictAt);
    if store.Quiet() {
      EndSays(
        store.faults, rows, old(store.files), old(store.calls), outcome, left, store.files, restored, conflictAt);
    }
  }

  function AnswerOf(outcome: Outcome, restored: seq<Path>, conflictAt: seq<Path>): Answer {
    match outcome
    case Restored => Answered(RecoveryResult(Undone, restored, []))
    case Conflicted => Answered(RecoveryResult(Conflict, restored, conflictAt))
    case Raised => Escaped
  }

  lemma EndSays(
    faults: nat -> Fault, rows: seq<JournalEntry>, files: Files, at: nat, outcome: Outcome, left: nat, files': Files,
    restored: seq<Path>, conflictAt: seq<Path>)
    requires left <= |rows| && restored == PathsBack(rows, left)
    requires outcome != Restored ==> left > 0 && conflictAt == [rows[left - 1].path]
    requires EndsAt(faults, rows, files, at, outcome, left, files')
    ensures UndoSays(faults, rows, files, at, AnswerOf(outcome, restored, conflictAt), files')
  {
    hide StopsAt, IsConflict, TurnsBack;
  }

  /**
    Undoes a job from its journal. After one committed run on an undisturbed vault it restores exactly
    the files before the run and appends one audit row per step at fresh sequence numbers; a job with
    no journal, or with an audit row already, is refused without a single write.
  */
  method UndoFromJournal(store: Store, job: JobId, ghost x: Execution) returns (answer: Answer)
    modifies store`files, store`calls, store`states, store`lost, store`writes, store`journals
    ensures OnlyRowsLost(old(store.Rows(job)), old(store.Log()), store.Log())
    ensures KeepsRecords(old(store.states), store.states, store.records)
    ensures store.journals - {job} == old(store.journals) - {job}
    ensures answer.Answered? ==>
      answer.result.status == UndoUnavailable || answer.result.status == Conflict || answer.result.status == Undone
    ensures (answer.Answered? && answer.result.status == UndoUnavailable) <==>
      old(store.Rows(job)) == [] || exists row :: row in old(store.Rows(job)) && row.kind.Undo?
    ensures answer.Answered? && answer.result.status == UndoUnavailable ==>
      store.Log() == old(store.Log()) && store.Now() == old(store.Now()) && store.writes == old(store.writes)
    ensures IsUndone(answer) ==>
      && store.Rows(job) == old(store.Rows(job)) + UndoAudits(old(store.Rows(job)), 0, |old(store.Rows(job))|)
      && answer.result.restored == PathsBack(old(store.Rows(job)), 0)
    ensures
      store.Quiet() && old(store.Rows(job)) != [] && (forall row :: row in old(store.Rows(job)) ==> !row.kind.Undo?) ==>
        UndoSays(store.faults, old(store.Rows(job)), old(store.files), old(store.calls), answer, store.files)
    ensures store.Quiet() && Committed(x, old(store.Rows(job)), |x.ops|, old(store.files)) && x.ops != [] ==>
      && (IsUndone(answer) ==> store.files == x.init)
      && (store.NoFaults(old(store.calls), store.calls) ==> IsUndone(answer))
    ensures store.Quiet() ==>
      Attempted(old(store.Rows(job)), old(store.files), store.Rows(job), store.files, IsUndone(answer))
  {
    hide RestoreRow, Committed, OnlyRowsLost;
    NothingLost(store.Rows(job), store.Log());
    var rows := store.Rows(job);
    if store.Quiet() && Committed(x, rows, |x.ops|, store.files) {
      CommittedHasNoAudits(x, rows, |x.ops|, store.files);
    }
    if rows == [] || exists row :: row in rows && row.kind.Undo? {
      answer := Answered(RecoveryResult(UndoUnavailable, [], []));
    } else {
      answer := UndoExecuted(store, job, x);
    }
  }

  lemma FinishedIsCommitted(x: Execution, rows: seq<JournalEntry>, files: Files)
    requires AllWellFormed(x.ops) && x.rows == [] && x.Finished(rows) && Run(x.ops, x.init) == Some(files)
    ensures Committed(x, rows, |x.ops|, files)
  {
    assert x.ops[..|x.ops|] == x.ops;
  }

  lemma AuditRowsFollow(list: seq<JournalEntry>)
    ensures var all := list + UndoAudits(list, 0, |list|);
      && |all| == 2 * |list|
      && forall i :: |list| <= i < |all| ==> all[i].kind.Undo? && all[i].seqNo == i
  {
    forall i | 0 <= i < |list|
      ensures var row := UndoAudits(list, 0, |list|)[i]; row.kind.Undo? && row.seqNo == |list| + i
    {
      UndoAuditsAt(list, 0, |list|, i);
    }
  }

  /** A committed job undone, and undone again. */
  method UndoTwice(store: Store, job: JobId, ghost x: Execution)
    returns (first: Answer, second: Answer, ghost undone: Durable)
    requires store.Quiet() && (forall n :: store.faults(n).NoFault?)
    requires Committed(x, store.Rows(job), |x.ops|, store.files) && x.ops != []
    modifies store`files, store`calls, store`states, store`lost, store`writes, store`journals
    ensures store.files == x.init && first.Answered? && first.result.status == Undone
    ensures store.Rows(job) == old(store.Rows(job)) + UndoAudits(old(store.Rows(job)), 0, |old(store.Rows(job))|)
    ensures second.Answered? && second.result.status == UndoUnavailable && store.Now() == undone
  {
    AuditRowsFollow(store.Rows(job));
    first := UndoFromJournal(store, job, x);
    undone := store.Now();
    assert store.Rows(job)[|x.ops|] in store.Rows(job);
    second := UndoFromJournal(store, job, x);
  }

  /** Undo inverts commit: a committed run on an untouched vault, undone and undone again. */
  method UndoInvertsCommit(store: Store, job: JobId, ops: seq<Operation>, cap: nat)
    returns (result: RecoveryResult, first: Answer, second: Answer, ghost undone: Durable)
    requires store.Quiet() && (forall n :: store.faults(n).NoFault?)
    requires AllWellFormed(ops) && ops != [] && store.Rows(job) == []
    modifies store`files, store`calls, store`states, store`lost, store`writes, store`journals
    ensures store.files == old(store.files)
    ensures result.status == JobStatus.Committed ==>
      && first.Answered? && first.result.status == Undone
      && |store.Rows(job)| == 2 * |ops|
      && (forall i :: |ops| <= i < 2 * |ops| ==> store.Rows(job)[i].kind.Undo? && store.Rows(job)[i].seqNo == i)
      && second.Answered? && second.result.status == UndoUnavailable && store.Now() == undone
  {
    ghost var trace;
    result, trace := Execute(store, job, ops, cap);
    first, second, undone := Escaped, Escaped, store.Now();
    if result.status == JobStatus.Committed {
      FinishedIsCommitted(trace.x, store.Rows(job), store.files);
      AuditRowsFollow(store.Rows(job));
      first, second, undone := UndoTwice(store, job, trace.x);
    }
  }
}
