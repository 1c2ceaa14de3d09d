/** Explicit recovery of an interrupted job: classify every step first, then restore in reverse. */
module Recovery {
  import opened Base
  import opened Vault
  import opened Transactions
  import opened HistoryStore
  import opened PlannedSteps
  import opened Executions
  import opened Executor
  import opened Recoverability

  predicate Flagged(status: JobStatus) {
    status in {RecoveryRequired, Executing, Validating, Captured, Preflighted, Planned}
  }

  /** The lost bytes are the ones some journal row says the job wrote. */
  ghost predicate LostByRow(rows: seq<JournalEntry>, loss: Loss) {
    exists k :: 0 <= k < |rows| && loss.path == rows[k].path && Some(Sha256(loss.bytes)) == rows[k].afterHash
  }

  /** From one log to a later one, only bytes the given rows own were lost. */
  ghost predicate OnlyRowsLost(rows: seq<JournalEntry>, was: Log, now: Log) {
    && Grown(was.states, now.states) && Grown(was.lost, now.lost) && was.calls <= now.calls
    && (forall i :: |was.lost| <= i < |now.lost| ==> LostByRow(rows, now.lost[i]))
  }

  lemma CallsGrow(rows: seq<JournalEntry>, was: Log, now: Log)
    requires OnlyRowsLost(rows, was, now)
    ensures was.calls <= now.calls
  {
  }

  lemma NothingLost(rows: seq<JournalEntry>, log: Log)
    ensures OnlyRowsLost(rows, log, log)
  {
  }

  lemma OnlyRowsLostTransitive(rows: seq<JournalEntry>, a: Log, b: Log, c: Log)
    requires OnlyRowsLost(rows, a, b) && OnlyRowsLost(rows, b, c)
    ensures OnlyRowsLost(rows, a, c)
  {
    forall i | |a.lost| <= i < |c.lost|
      ensures LostByRow(rows, c.lost[i])
    {
      assert i < |b.lost| ==> c.lost[i] == b.lost[i];
    }
  }

  /** Moreover, on a quiet vault, every state gone through is one this very recovery could start from. */
  ghost predicate Guarded(
    x: Execution, records: map<JobId, HistoryRecord>, rows: seq<JournalEntry>, was: Log, now: Log, quiet: bool)
  {
    OnlyRowsLost(rows, was, now) && (quiet ==> AllRecoverable(x, records, now.states, |was.states|))
  }

  ghost predicate AllRecoverable(x: Execution, records: map<JobId, HistoryRecord>, states: seq<Durable>, from: nat) {
    forall i :: from <= i < |states| ==>
      states[i].records == records && Recoverable(x, states[i].Rows(x.job), states[i].files)
  }

  lemma GuardedNothing(x: Execution, records: map<JobId, HistoryRecord>, rows: seq<JournalEntry>, log: Log, quiet: bool)
    ensures Guarded(x, records, rows, log, log, quiet)
  {
  }

  lemma GuardedTransitive(
    x: Execution, records: map<JobId, HistoryRecord>, rows: seq<JournalEntry>, a: Log, b: Log, c: Log, quiet: bool)
    requires Guarded(x, records, rows, a, b, quiet) && Guarded(x, records, rows, b, c, quiet)
    ensures Guarded(x, records, rows, a, c, quiet)
  {
    OnlyRowsLostTransitive(rows, a, b, c);
    if quiet {
      forall i | |a.states| <= i < |c.states|
        ensures c.states[i].records == records && Recoverable(x, c.states[i].Rows(x.job), c.states[i].files)
      {
        assert i < |b.states| ==> c.states[i] == b.states[i];
      }
    }
  }

  /** The paths of the rows that clash, or whose read fails; the first read is call `at`. */
  ghost function ClashPaths(faults: nat -> Fault, rows: seq<JournalEntry>, files: Files, at: nat): seq<Path> {
    if rows == [] then []
    else
      var n := |rows| - 1;
      ClashPaths(faults, rows[..n], files, at)
      + if faults(at + n).NoFault? && !Clashes(rows[n], files) then [] else [rows[n].path]
  }

  lemma ClashesNone(faults: nat -> Fault, files: Files, at: nat)
    ensures ClashPaths(faults, [], files, at) == []
  {
  }

  lemma ClashesMore(faults: nat -> Fault, rows: seq<JournalEntry>, i: nat, files: Files, at: nat)
    requires i < |rows|
    ensures ClashPaths(faults, rows[..i + 1], files, at) == ClashPaths(faults, rows[..i], files, at)
      + if faults(at + i).NoFault? && !Clashes(rows[i], files) then [] else [rows[i].path]
  {
    assert rows[..i + 1][..i] == rows[..i];
  }

  /** Listed are the rows with content that is neither the job's nor what it found, and those whose read fails. */
  lemma {:induction false} ClashesAre(faults: nat -> Fault, rows: seq<JournalEntry>, files: Files, at: nat)
    ensures forall path :: path in ClashPaths(faults, rows, files, at) <==>
      exists i :: 0 <= i < |rows| && path == rows[i].path &&
        (!faults(at + i).NoFault? || (path in files
          && rows[i].afterHash != Some(Sha256(files[path])) && rows[i].beforeHash != Some(Sha256(files[path]))))
  {
    if rows != [] {
      var n := |rows| - 1;
      ClashesAre(faults, rows[..n], files, at);
      assert forall i :: 0 <= i < n ==> rows[..n][i] == rows[i];
    }
  }

  /** Pass 1: which rows are ours to restore, and which files somebody else changed; one read for each row. */
  method Classify(store: Store, rows: seq<JournalEntry>) returns (applied: seq<JournalEntry>, conflictPaths: seq<Path>)
    modifies store`files, store`calls, store`states
    ensures Grown(old(store.states), store.states) && store.calls == old(store.calls) + |rows|
    ensures forall row :: row in applied ==> row in rows && row.afterHash.Some?
    ensures conflictPaths == [] ==> store.NoFaults(old(store.calls), store.calls)
    ensures store.Quiet() ==>
      && store.files == old(store.files)
      && FilesAmong(store.states, |old(store.states)|, store.Now(), store.files, store.files)
      && conflictPaths == ClashPaths(store.faults, rows, store.files, old(store.calls))
      && (conflictPaths == [] ==>
            applied == OursIn(rows, store.files) && forall row :: row in rows ==> !Clashes(row, store.files))
      && (conflictPaths != [] && store.NoFaults(old(store.calls), store.calls) ==>
            exists row :: row in rows && Clashes(row, store.files))
  {
    hide ClashPaths;
    applied, conflictPaths := [], [];
    ClashesNone(store.faults, store.files, store.calls);
    for i := 0 to |rows|
      invariant Grown(old(store.states), store.states) && store.calls == old(store.calls) + i
      invariant forall row :: row in applied ==> row in rows && row.afterHash.Some?
      invariant conflictPaths == [] ==> store.NoFaults(old(store.calls), store.calls)
      invariant store.Quiet() ==>
        && store.files == old(store.files)
        && FilesAmong(store.states, |old(store.states)|, store.Now(), store.files, store.files)
        && conflictPaths == ClashPaths(store.faults, rows[..i], store.files, old(store.calls))
        && (conflictPaths == [] ==>
              applied == OursIn(rows[..i], store.files) && forall k :: 0 <= k < i ==> !Clashes(rows[k], store.files))
        && (conflictPaths != [] && store.NoFaults(old(store.calls), store.calls) ==>
              exists row :: row in rows && Clashes(row, store.files))
    {
      var row := rows[i];
      assert rows[..i + 1][..i] == rows[..i];
      ClashesMore(store.faults, rows, i, store.files, old(store.calls));
      var reply := store.Read(row.path);
      var current := if reply.Done? then reply.sha256 else None;
      if reply.Failed? && reply.error != NotFound {
        assert !store.faults(store.calls - 1).NoFault?;
        conflictPaths := conflictPaths + [row.path];
      } else if row.afterHash.Some? && current == row.afterHash {
        applied := applied + [row];
      } else if current.None? || current == row.beforeHash {
      } else {
        assert Clashes(row, store.files) && row in rows;
        conflictPaths := conflictPaths + [row.path];
      }
    }
    assert rows[..|rows|] == rows;
  }

  lemma RowInverseGuard(row: JournalEntry)
    requires RowInverse(row).Some?
    ensures var call := RowInverse(row).value;
      && (call.WriteBytes? || call.DeleteFile? || call.MoveFile?)
      && call.path == row.path && call.expected == row.afterHash
  {
  }

  /** The inverse, and for a created file the check that it is gone. */
  function RoundCalls(row: JournalEntry): nat {
    if row.kind.Create? then 2 else 1
  }

  /** One hash-guarded inverse, checked. */
  method RestoreEntry(store: Store, row: JournalEntry) returns (ok: bool)
    modifies store`files, store`calls, store`states, store`lost, store`writes
    ensures Grown(old(store.lost), store.lost) && Grown(old(store.states), store.states)
      && old(store.calls) <= store.calls
    ensures LostOnlyAt(|old(store.lost)|, store.lost, row.path, row.afterHash)
    ensures ok ==> store.NoFaults(old(store.calls), store.calls)
    ensures RowInverse(row).Some? ==> old(store.calls) < store.calls
    ensures ok ==> RowInverse(row).Some? && store.calls == old(store.calls) + RoundCalls(row)
    ensures store.faults(old(store.calls)).EarlyFault? ==>
      !ok && (store.files == old(store.files) || store.files == store.edits(old(store.calls), old(store.files)))
    ensures store.Quiet() ==>
      && FilesAmong(
           store.states, |old(store.states)|, store.Now(),
           RestoreRow(row, old(store.files)).GetOr(old(store.files)), old(store.files))
      && (ok ==> RestoreRow(row, old(store.files)) == Some(store.files))
      && (store.files == old(store.files) || RestoreRow(row, old(store.files)) == Some(store.files))
      && (store.NoFaults(old(store.calls), store.calls) && RestoreRow(row, old(store.files)).Some? ==>
            var digest := if row.kind.Create? then None else row.beforeHash;
            Perform(RowInverse(row).value, old(store.files)).0 == Done(digest) ==> ok)
      && (store.NoFaults(old(store.calls), old(store.calls) + RoundCalls(row)) ==>
            store.NoFaults(old(store.calls), store.calls))
  {
    var call := RowInverse(row);
    ok := false;
    if call.Some? {
      RowInverseGuard(row);
      var reply := store.Revert(call.value);
      ok := reply.Done? && (row.kind.Create? || row.beforeHash.None? || reply.sha256 == row.beforeHash);
    }
  }

  function Audit(seqNo: nat, path: Path, restored: Option<Digest>): JournalEntry {
    JournalEntry(seqNo, Undo, path, false, None, restored, false, None, "", RowState.Applied)
  }

  lemma LostByOne(rows: seq<JournalEntry>, since: nat, lost: seq<Loss>, row: JournalEntry)
    requires row in rows && LostOnlyAt(since, lost, row.path, row.afterHash)
    ensures forall i :: since <= i < |lost| ==> LostByRow(rows, lost[i])
  {
    var k :| 0 <= k < |rows| && rows[k] == row;
    forall i | since <= i < |lost|
      ensures LostByRow(rows, lost[i])
    {
      assert lost[i].path == rows[k].path;
    }
  }

  lemma AmongRecoverable(x: Execution, states: seq<Durable>, from: nat, s: Durable, a: Files, b: Files)
    requires FilesAmong(states, from, s, a, b)
    requires Recoverable(x, s.Rows(x.job), a) && Recoverable(x, s.Rows(x.job), b)
    ensures AllRecoverable(x, s.records, states, from)
  {
  }

  /**
    What recovery works through: the steps of the job, its rows, and those of them to restore. `quiet` says
    that nobody else writes and that the job's steps are independent.
  */
  datatype Work = Work(x: Execution, rows: seq<JournalEntry>, list: seq<JournalEntry>, quiet: bool)

  /** The first n listed rows are still to be restored. */
  ghost predicate ToRestore(store: Store, job: JobId, w: Work, n: nat)
    reads store
  {
    w.quiet ==>
      store.Quiet() && job == w.x.job && Remaining(w.x, store.Rows(job), store.files, w.list, n)
  }

  /**
    Where the second pass stops, from the last row on: how many rows are left, and on which files. A row is restored
    if none of its calls fails.
  */
  ghost function Reached(faults: nat -> Fault, list: seq<JournalEntry>, files: Files, at: nat): (nat, Files) {
    if list == [] then (0, files)
    else
      var last := list[|list| - 1];
      if RestoreRow(last, files).Some? && forall n :: at <= n < at + RoundCalls(last) ==> faults(n).NoFault? then
        Reached(faults, list[..|list| - 1], RestoreRow(last, files).value, at + RoundCalls(last))
      else (|list|, files)
  }

  lemma ReachedNone(faults: nat -> Fault, files: Files, at: nat)
    ensures Reached(faults, [], files, at) == (0, files)
  {
  }

  /** The rows behind the stop are restored, one after the other. */
  lemma {:induction false} ReachedSays(faults: nat -> Fault, list: seq<JournalEntry>, files: Files, at: nat)
    ensures var (left, mid) := Reached(faults, list, files, at);
      && left <= |list| && RestoreAll(list[left..], files) == Some(mid)
      && (left > 0 ==> RestoreRow(list[left - 1], mid).None? || exists n :: n >= at && !faults(n).NoFault?)
  {
    hide RestoreRow, RoundCalls;
    if list != [] {
      var n := |list| - 1;
      var last := list[n];
      if RestoreRow(last, files).Some? && forall k :: at <= k < at + RoundCalls(last) ==> faults(k).NoFault? {
        ReachedSays(faults, list[..n], RestoreRow(last, files).value, at + RoundCalls(last));
        var (left, mid) := Reached(faults, list, files, at);
        assert list[left..][..|list[left..]| - 1] == list[..n][left..];
      } else {
        assert list[|list|..] == [];
      }
    }
  }

  /** One row of the second pass goes, or it is where the pass stops and at most its own files are taken back. */
  ghost predicate Rounds(
    faults: nat -> Fault, list: seq<JournalEntry>, n: nat, files: Files, at: nat, ok: bool, files': Files, at': nat)
    requires 0 < n <= |list|
  {
    if ok then Reached(faults, list[..n], files, at) == Reached(faults, list[..n - 1], files', at')
    else
      && Reached(faults, list[..n], files, at) == (n, files)
      && (files' == files || RestoreRow(list[n - 1], files) == Some(files'))
  }

  lemma RoundIs(
    faults: nat -> Fault, list: seq<JournalEntry>, n: nat, files: Files, at: nat, ok: bool, files': Files, at': nat)
    requires 0 < n <= |list|
    requires ok <==> forall k :: at <= k < at + RoundCalls(list[n - 1]) ==> faults(k).NoFault?
    requires if ok then RestoreRow(list[n - 1], files) == Some(files') && at' == at + RoundCalls(list[n - 1])
      else files' == files || RestoreRow(list[n - 1], files) == Some(files')
    ensures Rounds(faults, list, n, files, at, ok, files', at')
  {
    hide RestoreRow, RoundCalls;
    assert list[..n][..n - 1] == list[..n - 1];
  }

  /** Restores the last of the first n listed rows. */
  method RestoreListed(store: Store, job: JobId, row: JournalEntry, ghost w: Work, ghost n: nat) returns (ok: bool)
    requires 0 < n <= |w.list| && row == w.list[n - 1] && row in w.rows && ToRestore(store, job, w, n)
    modifies store`files, store`calls, store`states, store`lost, store`writes
    ensures Guarded(w.x, store.records, w.rows, old(store.Log()), store.Log(), w.quiet)
    ensures ok ==> ToRestore(store, job, w, n - 1) && store.NoFaults(old(store.calls), store.calls)
    ensures w.quiet && !ok ==> !store.NoFaults(old(store.calls), store.calls)
    ensures w.quiet ==> old(store.calls) < store.calls && StillRecoverable(store, w)
    ensures w.quiet && store.faults(old(store.calls)).EarlyFault? ==> !ok && store.files == old(store.files)
    ensures w.quiet ==>
      Rounds(store.faults, w.list, n, old(store.files), old(store.calls), ok, store.files, store.calls)
  {
    hide Reached, Rounds, Recoverable, LostByRow;
    if w.quiet {
      RemainingStep(w.x, store.Rows(job), store.files, w.list, n);
    }
    ok := RestoreEntry(store, row);
    LostByOne(w.rows, |old(store.lost)|, store.lost, row);
    if w.quiet {
      AmongRecoverable(
        w.x, store.states, |old(store.states)|, store.Now(), RestoreRow(row, old(store.files)).value, old(store.files));
      RoundIs(store.faults, w.list, n, old(store.files), old(store.calls), ok, store.files, store.calls);
    }
  }

  /** The files can still be taken back with the rows there are. */
  ghost predicate StillRecoverable(store: Store, w: Work)
    reads store
  {
    Recoverable(w.x, store.Rows(w.x.job), store.files)
  }

  /** Writes the audit row of a restored row. */
  method AppendAudit(store: Store, job: JobId, audit: JournalEntry, ghost w: Work, ghost n: nat)
    requires audit.kind.Undo? && audit.seqNo == |store.Rows(job)| && ToRestore(store, job, w, n)
    modifies store`states, store`journals
    ensures Guarded(w.x, store.records, w.rows, old(store.Log()), store.Log(), w.quiet)
    ensures store.journals - {job} == old(store.journals) - {job}
    ensures store.Rows(job) == old(store.Rows(job)) + [audit]
    ensures ToRestore(store, job, w, n) && (w.quiet ==> StillRecoverable(store, w))
  {
    if w.quiet {
      RemainingMore(w.x, store.Rows(job), store.files, w.list, n, audit);
    }
    store.AddJournal(job, audit);
  }

  /** One round of pass 2: restores the row, then writes its audit row. */
  method RestoreNext(store: Store, job: JobId, row: JournalEntry, nextSeq: nat, ghost w: Work, ghost n: nat)
    returns (ok: bool)
    requires 0 < n <= |w.list| && row == w.list[n - 1] && row in w.rows && nextSeq == |store.Rows(job)|
    requires ToRestore(store, job, w, n)
    modifies store`files, store`calls, store`states, store`lost, store`writes, store`journals
    ensures Guarded(w.x, store.records, w.rows, old(store.Log()), store.Log(), w.quiet)
    ensures store.journals - {job} == old(store.journals) - {job}
    ensures store.Rows(job) == old(store.Rows(job)) + if ok then [Audit(nextSeq, row.path, row.beforeHash)] else []
    ensures ok ==> ToRestore(store, job, w, n - 1) && store.NoFaults(old(store.calls), store.calls)
    ensures w.quiet && !ok ==> !store.NoFaults(old(store.calls), store.calls)
    ensures w.quiet ==> old(store.calls) < store.calls && StillRecoverable(store, w)
    ensures w.quiet && store.faults(old(store.calls)).EarlyFault? ==> !ok && store.files == old(store.files)
    ensures w.quiet ==>
      Rounds(store.faults, w.list, n, old(store.files), old(store.calls), ok, store.files, store.calls)
  {
    hide ToRestore, StillRecoverable;
    ok := RestoreListed(store, job, row, w, n);
    if ok {
      label L:
      AppendAudit(store, job, Audit(nextSeq, row.path, row.beforeHash), w, n - 1);
      GuardedTransitive(w.x, store.records, w.rows, old(store.Log()), old@L(store.Log()), store.Log(), w.quiet);
    }
  }

  /** Audit rows for the listed rows from the last down to row n, numbered from `first`. */
  function Audits(list: seq<JournalEntry>, n: nat, first: nat): seq<JournalEntry>
    requires n <= |list|
    decreases |list| - n
  {
    if n == |list| then []
    else Audits(list, n + 1, first) + [Audit(first + |list| - n - 1, list[n].path, list[n].beforeHash)]
  }

  lemma {:induction false} AuditsLength(list: seq<JournalEntry>, n: nat, first: nat)
    requires n <= |list|
    ensures |Audits(list, n, first)| == |list| - n
    decreases |list| - n
  {
    if n < |list| {
      AuditsLength(list, n + 1, first);
    }
  }

  /** A restored row is reported by its path, and a move also by its source unless that is listed already. */
  function Report(paths: seq<Path>, row: JournalEntry): seq<Path> {
    if row.kind.Move? && row.inverseSource != "" && row.inverseSource !in paths + [row.path]
    then paths + [row.path] + [row.inverseSource] else paths + [row.path]
  }

  /** The report for the listed rows from the last down to row n. */
  function ReportFrom(list: seq<JournalEntry>, n: nat): seq<Path>
    requires n <= |list|
    decreases |list| - n
  {
    if n == |list| then [] else Report(ReportFrom(list, n + 1), list[n])
  }

  /** A path the row puts back: its own, and for a move also where the file comes back to. */
  ghost predicate PutsBack(row: JournalEntry, path: Path) {
    path == row.path || (row.kind.Move? && path == row.inverseSource && path != "")
  }

  /** The report names exactly the paths the restored rows put back, and none twice if their own are apart. */
  lemma {:induction false} ReportSays(list: seq<JournalEntry>, n: nat)
    requires n <= |list|
    ensures forall path :: path in ReportFrom(list, n) <==> exists k :: n <= k < |list| && PutsBack(list[k], path)
    ensures (forall i, j :: n <= i < j < |list| ==> !PutsBack(list[j], list[i].path)) ==>
      forall i, j :: 0 <= i < j < |ReportFrom(list, n)| ==> ReportFrom(list, n)[i] != ReportFrom(list, n)[j]
    decreases |list| - n
  {
    if n < |list| {
      ReportSays(list, n + 1);
      forall path
        ensures path in ReportFrom(list, n) <==> path in ReportFrom(list, n + 1) || PutsBack(list[n], path)
      {
      }
      if forall i, j :: n <= i < j < |list| ==> !PutsBack(list[j], list[i].path) {
        assert list[n].path !in ReportFrom(list, n + 1);
        OnceMore(ReportFrom(list, n + 1), list[n]);
      }
    }
  }

  lemma OnceMore(paths: seq<Path>, row: JournalEntry)
    requires row.path !in paths && forall i, j :: 0 <= i < j < |paths| ==> paths[i] != paths[j]
    ensures forall i, j :: 0 <= i < j < |Report(paths, row)| ==> Report(paths, row)[i] != Report(paths, row)[j]
  {
    assert row.inverseSource !in paths + [row.path] ==> forall i :: 0 <= i < |paths| ==> paths[i] != row.inverseSource;
  }

  /** The same rows are live. */
  ghost predicate SameLive(a: seq<JournalEntry>, b: seq<JournalEntry>) {
    forall row :: Live(row) ==> (row in a <==> row in b)
  }

  lemma {:induction false} AuditsAreNotLive(rows: seq<JournalEntry>, list: seq<JournalEntry>, n: nat, first: nat)
    requires n <= |list|
    ensures SameLive(rows, rows + Audits(list, n, first))
    decreases |list| - n
  {
    if n < |list| {
      AuditsAreNotLive(rows, list, n + 1, first);
    }
  }

  /** The second pass has stopped where `Reached` says, and at most the files of the row there are taken back. */
  ghost predicate StopsThere(
    faults: nat -> Fault, list: seq<JournalEntry>, files: Files, at: nat, left: nat, files': Files)
  {
    var (stop, mid) := Reached(faults, list, files, at);
    && left == stop
    && (files' == mid || (0 < left <= |list| && RestoreRow(list[left - 1], mid) == Some(files')))
  }

  /** Pass 2: restores the listed rows in reverse, one audit row each, stopping at the first failure. */
  method RestoreRows(store: Store, job: JobId, list: seq<JournalEntry>, ghost w: Work)
    returns (ok: bool, restored: seq<Path>, failedAt: seq<Path>, ghost left: nat)
    requires list == w.list && (forall row :: row in list ==> row in w.rows) && ToRestore(store, job, w, |list|)
    modifies store`files, store`calls, store`states, store`lost, store`writes, store`journals
    ensures Guarded(w.x, store.records, w.rows, old(store.Log()), store.Log(), w.quiet)
    ensures store.journals - {job} == old(store.journals) - {job}
    ensures left <= |list| && restored == ReportFrom(list, left)
    ensures store.Rows(job) == old(store.Rows(job)) + Audits(list, left, |old(store.Rows(job))|)
    ensures ok ==> left == 0 && ToRestore(store, job, w, 0) && store.NoFaults(old(store.calls), store.calls)
    ensures !ok ==> left > 0
    ensures w.quiet && !ok ==> !store.NoFaults(old(store.calls), store.calls)
    ensures w.quiet && list != [] ==> old(store.calls) < store.calls && StillRecoverable(store, w)
    ensures w.quiet && list != [] && store.faults(old(store.calls)).EarlyFault? ==>
      !ok && store.files == old(store.files)
    ensures failedAt == if ok then [] else [list[left - 1].path]
    ensures w.quiet ==> StopsThere(store.faults, list, old(store.files), old(store.calls), left, store.files)
  {
    hide Reached, ToRestore, StillRecoverable, LostByRow, AllRecoverable;
    GuardedNothing(w.x, store.records, w.rows, store.Log(), w.quiet);
    var n: nat := |list|;
    restored := [];
    var nextSeq := |store.Rows(job)|;
    assert list[..|list|] == list;
    while n > 0
      invariant n <= |list| && nextSeq == |store.Rows(job)| && restored == ReportFrom(list, n)
      invariant Guarded(w.x, store.records, w.rows, old(store.Log()), store.Log(), w.quiet)
      invariant store.journals - {job} == old(store.journals) - {job}
      invariant store.Rows(job) == old(store.Rows(job)) + Audits(list, n, |old(store.Rows(job))|)
      invariant ToRestore(store, job, w, n) && store.NoFaults(old(store.calls), store.calls)
      invariant n == |list| ==> store.calls == old(store.calls) && store.files == old(store.files)
      invariant w.quiet && n < |list| ==> old(store.calls) < store.calls && StillRecoverable(store, w)
      invariant w.quiet ==>
        Reached(store.faults, list[..n], store.files, store.calls)
        == Reached(store.faults, list, old(store.files), old(store.calls))
    {
      var row := list[n - 1];
      label L:
      AuditsLength(list, n, |old(store.Rows(job))|);
      var done := RestoreNext(store, job, row, nextSeq, w, n);
      GuardedTransitive(w.x, store.records, w.rows, old(store.Log()), old@L(store.Log()), store.Log(), w.quiet);
      if !done {
        assert store.Rows(job) == old@L(store.Rows(job));
        return false, restored, [row.path], n;
      }
      restored := Report(restored, row);
      nextSeq := nextSeq + 1;
      n := n - 1;
    }
    assert list[..0] == [];
    ReachedNone(store.faults, store.files, store.calls);
    return true, restored, [], 0;
  }

  /** Closes the job's record; a missing record stays missing. */
  method FinishRecord(store: Store, job: JobId, status: JobStatus)
    modifies store`records, store`states
    ensures job in old(store.records) ==>
      store.records == old(store.records)[job := old(store.records[job]).(status := status)]
    ensures job in old(store.records) ==> store.states == old(store.states) + [store.Now()]
    ensures job !in old(store.records) ==> store.records == old(store.records) && store.states == old(store.states)
  {
    if job in store.records {
      store.Save(job, store.records[job].(status := status));
    }
  }

  /** A crash state from which recovery still leads to the initial files, or which has them already. */
  ghost predicate Resumable(x: Execution, s: Durable) {
    && x.job in s.records
    && (if Flagged(s.records[x.job].status) then Recoverable(x, s.Rows(x.job), s.files) else s.files == x.init)
  }

  ghost predicate AllResumable(x: Execution, states: seq<Durable>, from: nat, to: nat)
    requires to <= |states|
  {
    forall i :: from <= i < to ==> Resumable(x, states[i])
  }

  /** With no live row, nothing is applied. */
  lemma NothingLive(x: Execution, rows: seq<JournalEntry>, files: Files)
    requires Recoverable(x, rows, files) && LiveRows(rows) == []
    ensures files == x.init
  {
    LiveRowsExactly(rows);
    assert forall i :: 0 <= i < |rows| ==> rows[i] in rows;
    NothingApplied(x, rows, files);
  }

  /** Recoverable states with the record still flagged, then resumable ones. */
  lemma PhaseStates(
    x: Execution, records: map<JobId, HistoryRecord>, early: seq<Durable>, states: seq<Durable>, from: nat, to: nat)
    requires |early| <= to <= |states| && x.job in records && Flagged(records[x.job].status)
    requires Grown(early, states) && AllRecoverable(x, records, early, from) && AllResumable(x, states, |early|, to)
    ensures AllResumable(x, states, from, to)
  {
    forall i | from <= i < to
      ensures Resumable(x, states[i])
    {
      if i < |early| {
        assert states[i] == early[i];
      }
    }
  }

  /** Marks the job's rows and, after a complete restore, closes its record. */
  method Close(store: Store, job: JobId, complete: bool, ghost x: Execution, ghost quiet: bool)
    requires job in store.records && Flagged(store.records[job].status)
    requires quiet && complete ==> job == x.job && store.files == x.init && Recoverable(x, store.Rows(job), x.init)
    modifies store`states, store`journals, store`records
    ensures Grown(old(store.states), store.states) && |old(store.states)| < |store.states|
    ensures !complete ==> |store.states| == |old(store.states)| + 1
    ensures store.Rows(job) == Marked(old(store.Rows(job)), RolledBack)
    ensures store.journals - {job} == old(store.journals) - {job}
    ensures store.records ==
      if complete then old(store.records)[job := old(store.records[job]).(status := RolledBackJob)]
        else old(store.records)
    ensures quiet && complete ==> AllResumable(x, store.states, |old(store.states)|, |store.states|)
  {
    if quiet && complete {
      MarkKeepsInitial(x, store.Rows(job));
    }
    store.SetJournalState(job, RolledBack);
    if complete {
      FinishRecord(store, job, RolledBackJob);
    }
  }

  /** Where the second pass began, and up to where the logged states are ones recovery can start from. */
  datatype Passes = Passes(restoreFrom: nat, to: nat)

  /** What the second pass reports, and what it leaves in the journal and in the vault. */
  ghost predicate SecondPass(
    faults: nat -> Fault, list: seq<JournalEntry>, at: nat, was: Durable, now: Durable, job: JobId,
    result: RecoveryResult)
  {
    var (left, mid) := Reached(faults, list, was.files, at);
    && left <= |list| && result.restored == ReportFrom(list, left)
    && now.Rows(job) == Marked(was.Rows(job) + Audits(list, left, |was.Rows(job)|), RolledBack)
    && if left == 0 then result.status == RolledBackJob && result.conflictPaths == [] && now.files == mid
       else
         && result.status == RollbackFailed && result.conflictPaths == [list[left - 1].path]
         && (now.files == mid || RestoreRow(list[left - 1], mid) == Some(now.files))
  }

  lemma SecondPassIs(
    faults: nat -> Fault, list: seq<JournalEntry>, at: nat, was: Durable, now: Durable, job: JobId,
    result: RecoveryResult, left: nat)
    requires left <= |list| && StopsThere(faults, list, was.files, at, left, now.files)
    requires result == RecoveryResult(
      if left == 0 then RolledBackJob else RollbackFailed, ReportFrom(list, left),
      if left == 0 then [] else [list[left - 1].path])
    requires now.Rows(job) == Marked(was.Rows(job) + Audits(list, left, |was.Rows(job)|), RolledBack)
    ensures SecondPass(faults, list, at, was, now, job, result)
  {
    hide Reached, Audits, ReportFrom, RestoreRow;
  }

  /** Pass 2 and what follows it. */
  method RestorePhase(store: Store, job: JobId, list: seq<JournalEntry>, ghost w: Work)
    returns (result: RecoveryResult, ghost to: nat)
    requires job in store.records && Flagged(store.records[job].status)
    requires list == w.list && (forall row :: row in list ==> row in w.rows) && ToRestore(store, job, w, |list|)
    modifies store`files, store`calls, store`states, store`lost, store`writes, store`journals, store`records
    ensures OnlyRowsLost(w.rows, old(store.Log()), store.Log())
    ensures result.status == RolledBackJob || result.status == RollbackFailed
    ensures result.status == RolledBackJob ==>
      && result.restored == ReportFrom(list, 0)
      && store.records == old(store.records)[job := old(store.records[job]).(status := RolledBackJob)]
      && store.Rows(job) == Marked(old(store.Rows(job)) + Audits(list, 0, |old(store.Rows(job))|), RolledBack)
    ensures result.status == RollbackFailed ==>
      store.records == old(store.records) && exists rows :: store.Rows(job) == Marked(rows, RolledBack)
    ensures w.quiet ==> (result.status == RollbackFailed <==> !store.NoFaults(old(store.calls), store.calls))
    ensures w.quiet && result.status == RolledBackJob ==> store.files == w.x.init
    ensures w.quiet && result.status == RollbackFailed ==>
      UndoneExactly(w.x, LiveRows(old(store.Rows(job))), store.files)
    ensures w.quiet && list != [] ==> old(store.calls) < store.calls
    ensures w.quiet && list != [] && store.faults(old(store.calls)).EarlyFault? ==> store.files == old(store.files)
    ensures |old(store.states)| <= to == |store.states| - if result.status == RollbackFailed then 1 else 0
    ensures w.quiet ==> AllResumable(w.x, store.states, |old(store.states)|, to)
    ensures w.quiet ==> SecondPass(store.faults, list, old(store.calls), old(store.Now()), store.Now(), job, result)
  {
    hide Reached, StopsThere, SecondPass, Resumable, Remaining, UndoneExactly, Recoverable, SameLive;
    ghost var records := store.records;
    var ok, restored, failedAt;
    ghost var left;
    ok, restored, failedAt, left := RestoreRows(store, job, list, w);
    AuditsAreNotLive(old(store.Rows(job)), list, left, |old(store.Rows(job))|);
    if w.quiet {
      if ok {
        RemainingNone(w.x, store.Rows(job), store.files, list);
        AlreadyInitial(w.x, store.Rows(job), store.files, list);
      } else {
        UndoneIsInitial(w.x, old(store.Rows(job)), store.Rows(job), store.files);
      }
    }
    ghost var rows := store.Rows(job);
    label L:
    Close(store, job, ok, w.x, w.quiet);
    to := |store.states| - if ok then 0 else 1;
    if w.quiet {
      PhaseStates(w.x, records, old@L(store.states), store.states, |old(store.states)|, to);
    }
    result := RecoveryResult(if ok then RolledBackJob else RollbackFailed, restored, failedAt);
    if w.quiet {
      SecondPassIs(
        store.faults, list, old(store.calls), old(store.Now()), store.Now(), job, result, left);
    }
  }

  lemma AlreadyInitial(x: Execution, rows: seq<JournalEntry>, files: Files, list: seq<JournalEntry>)
    requires Remaining(x, rows, files, list, 0)
    ensures Recoverable(x, rows, files)
  {
  }

  /** The files before the job are there exactly when no file shows a change of these rows. */
  ghost predicate UndoneExactly(x: Execution, live: seq<JournalEntry>, files: Files) {
    files == x.init <==> forall row :: row in live ==> !Changed(row, files)
  }

  lemma UndoneIsInitial(x: Execution, was: seq<JournalEntry>, rows: seq<JournalEntry>, files: Files)
    requires Recoverable(x, rows, files) && SameLive(was, rows)
    ensures UndoneExactly(x, LiveRows(was), files)
  {
    LiveRowsExactly(was);
    forall i | 0 <= i < |rows| && Live(rows[i])
      ensures rows[i] in was && (Changed(rows[i], files) <==> !InBefore(x.ops[i], x.init, files))
    {
      ChangedExactly(x.ops[i], x.init, files, rows[i]);
    }
    if forall row :: row in LiveRows(was) ==> !Changed(row, files) {
      NothingApplied(x, rows, files);
    }
    if files == x.init {
      forall row | row in LiveRows(was)
        ensures !Changed(row, files)
      {
        assert row in rows;
      }
    }
  }

  /** Classification, then restoring when nothing clashes. */
  method TwoPasses(store: Store, job: JobId, executable: seq<JournalEntry>, ghost x: Execution, ghost quiet: bool)
    returns (result: RecoveryResult, ghost passes: Passes)
    requires job in store.records && Flagged(store.records[job].status)
    requires executable == LiveRows(store.Rows(job))
    requires quiet ==>
      store.Quiet() && job == x.job && Recoverable(x, store.Rows(job), store.files)
    modifies store`files, store`calls, store`states, store`lost, store`writes, store`journals, store`records
    ensures OnlyRowsLost(old(store.Rows(job)), old(store.Log()), store.Log())
    ensures result.status == RolledBackJob || result.status == RollbackFailed || result.status == Conflict
    ensures result.status == RolledBackJob ==>
      store.records == old(store.records)[job := old(store.records[job]).(status := RolledBackJob)]
    ensures result.status == Conflict ==>
      store.writes == old(store.writes) && store.lost == old(store.lost)
      && store.journals == old(store.journals) && store.records == old(store.records)
    ensures result.status == RollbackFailed ==>
      store.records == old(store.records) && exists rows :: store.Rows(job) == Marked(rows, RolledBack)
    ensures passes.restoreFrom == old(store.calls) + |executable| <= store.calls
    ensures store.Quiet() && store.NoFaults(old(store.calls), store.calls) ==>
      (result.status == Conflict <==> exists row :: row in executable && Clashes(row, old(store.files)))
    ensures quiet ==> PassesSay(store, x, result, passes, old(store.calls), executable, old(store.files))
    ensures store.Quiet() && ClashPaths(store.faults, executable, old(store.files), old(store.calls)) != [] ==>
      result == RecoveryResult(
        Conflict, [], ClashPaths(store.faults, executable, old(store.files), old(store.calls)))
    ensures quiet && ClashPaths(store.faults, executable, old(store.files), old(store.calls)) == [] ==>
      SecondPass(
        store.faults, OursIn(executable, old(store.files)), passes.restoreFrom, old(store.Now()), store.Now(), job,
        result)
    ensures passes.to == |store.states| - if result.status == RollbackFailed then 1 else 0
    ensures quiet ==> AllResumable(x, store.states, |old(store.states)|, passes.to)
  {
    hide SecondPass, ClashPaths, Recoverable, LostByRow, Remaining, OursIn;
    ghost var rows := store.Rows(job);
    LiveRowsExactly(rows);
    if quiet {
      RemainingAtStart(x, rows, store.files);
    }
    var applied, conflictPaths := Classify(store, executable);
    ghost var restoreFrom := store.calls;
    if quiet {
      AmongRecoverable(x, store.states, |old(store.states)|, store.Now(), store.files, store.files);
    }
    if conflictPaths != [] {
      passes := Passes(restoreFrom, |store.states|);
      result := RecoveryResult(Conflict, [], conflictPaths);
      if quiet {
        PhaseStates(x, store.records, store.states, store.states, |old(store.states)|, passes.to);
      }
    } else {
      label L:
      ghost var to;
      result, to := RestorePhase(store, job, applied, Work(x, rows, applied, quiet));
      passes := Passes(restoreFrom, to);
      if quiet {
        PhaseStates(x, old(store.records), old@L(store.states), store.states, |old(store.states)|, to);
      }
    }
  }

  /**
    How recovery ends on a quiet vault: with a conflict exactly if a read of the first pass fails, with a
    failed rollback exactly if a call of the second pass fails, and else with the files before the job.
  */
  ghost predicate PassesSay(
    store: Store, x: Execution, result: RecoveryResult, passes: Passes, from: nat, executable: seq<JournalEntry>,
    files: Files)
    requires from <= passes.restoreFrom <= store.calls
    reads store
  {
    && (result.status == Conflict <==> !store.NoFaults(from, passes.restoreFrom))
    && (result.status == RollbackFailed <==>
          store.NoFaults(from, passes.restoreFrom) && !store.NoFaults(passes.restoreFrom, store.calls))
    && (result.status == RolledBackJob ==> store.files == x.init)
    && (result.status == RollbackFailed ==> UndoneExactly(x, executable, store.files))
    && (result.status != Conflict && OursIn(executable, files) != [] ==>
          && passes.restoreFrom < store.calls
          && (store.faults(passes.restoreFrom).EarlyFault? ==> store.files == files))
  }

  lemma NothingToSay(store: Store, x: Execution, result: RecoveryResult, passes: Passes, files: Files)
    requires passes.restoreFrom == store.calls && result.status == RolledBackJob && store.files == x.init
    ensures PassesSay(store, x, result, passes, store.calls, [], files)
  {
  }

  /**
    Explicit recovery. From any recoverable crash state of independent steps, with no other writer, it restores
    exactly the files before the job unless a call fails, and every state it passes through is again one it can
    start from. With other writers, it loses only bytes the job wrote, and a conflict found in the first pass
    means that it has written nothing.
  */
  method RollbackIfSafe(store: Store, job: JobId, ghost x: Execution)
    returns (result: RecoveryResult, ghost passes: Passes)
    modifies store`files, store`calls, store`states, store`lost, store`writes, store`journals, store`records
    ensures OnlyRowsLost(old(store.Rows(job)), old(store.Log()), store.Log())
    ensures passes.to == |store.states| - if result.status == RollbackFailed then 1 else 0
    ensures old(store.calls) <= passes.restoreFrom <= store.calls
    ensures result.status == UndoUnavailable <==> job !in old(store.records) || !Flagged(old(store.records[job].status))
    ensures job in old(store.records) ==>
      match old(store.records[job].status)
      case RecoveryRequired | Executing | Validating | Captured | Preflighted | Planned =>
        result.status != UndoUnavailable
      case AwaitingConfirmation | Committed | Undone | Rejected | RolledBackJob | FailedJob | RollbackFailed
        | Conflict | UndoUnavailable => result.status == UndoUnavailable
    ensures result.status == UndoUnavailable ==> store.Log() == old(store.Log()) && store.Now() == old(store.Now())
    ensures result.status != UndoUnavailable && LiveRows(old(store.Rows(job))) == [] ==>
      && result.status == RolledBackJob && store.files == old(store.files) && store.journals == old(store.journals)
      && store.records == old(store.records)[job := old(store.records[job]).(status := FailedJob)]
      && store.calls == old(store.calls)
    ensures result.status == Conflict ==>
      store.writes == old(store.writes) && store.lost == old(store.lost)
      && store.journals == old(store.journals) && store.records == old(store.records)
    ensures result.status == RollbackFailed ==>
      store.records == old(store.records) && exists rows :: store.Rows(job) == Marked(rows, RolledBack)
    ensures result.status != UndoUnavailable ==>
      passes.restoreFrom == old(store.calls) + |LiveRows(old(store.Rows(job)))|
    ensures store.Quiet() && store.NoFaults(old(store.calls), store.calls) && result.status != UndoUnavailable ==>
      (result.status == Conflict <==>
         exists row :: row in LiveRows(old(store.Rows(job))) && Clashes(row, old(store.files)))
    ensures store.Quiet() && result.status != UndoUnavailable ==>
      var clashes := ClashPaths(store.faults, LiveRows(old(store.Rows(job))), old(store.files), old(store.calls));
      && (clashes != [] ==> result == RecoveryResult(Conflict, [], clashes))
      && (job == x.job && Recoverable(x, old(store.Rows(job)), old(store.files))
          && clashes == [] && LiveRows(old(store.Rows(job))) != [] ==>
            SecondPass(
              store.faults, OursIn(LiveRows(old(store.Rows(job))), old(store.files)), passes.restoreFrom,
              old(store.Now()), store.Now(), job, result))
    ensures
      store.Quiet() && job == x.job && Recoverable(x, old(store.Rows(job)), old(store.files))
      && result.status != UndoUnavailable ==>
        && PassesSay(
             store, x, result, passes, old(store.calls), LiveRows(old(store.Rows(job))), old(store.files))
        && (store.NoFaults(old(store.calls), store.calls) ==> result.status == RolledBackJob)
        && (result.status == RolledBackJob ==> job in store.records && !Flagged(store.records[job].status))
        && AllResumable(x, store.states, |old(store.states)|, passes.to)
  {
    hide SecondPass, OursIn, LostByRow, Clashes, InBefore, LiveRows, UndoneExactly, Recoverable;
    passes := Passes(store.calls, |store.states|);
    if job !in store.records || !Flagged(store.records[job].status) {
      result := RecoveryResult(UndoUnavailable, [], []);
      return;
    }
    ghost var quiet := store.Quiet() && job == x.job && Recoverable(x, store.Rows(job), store.files);
    var rows := store.Rows(job);
    var executable := LiveRows(rows);
    LiveRowsExactly(rows);
    if executable == [] {
      if quiet {
        NothingLive(x, rows, store.files);
      }
      FinishRecord(store, job, FailedJob);
      result := RecoveryResult(RolledBackJob, [], []);
      passes := Passes(store.calls, |store.states|);
      if quiet {
        NothingToSay(store, x, result, passes, old(store.files));
      }
      return;
    }
    result, passes := TwoPasses(store, job, executable, x, quiet);
  }

  /** Rows marked rolled back are never looked at again. */
  lemma {:induction false} MarkedNotLive(rows: seq<JournalEntry>)
    ensures LiveRows(Marked(rows, RolledBack)) == []
  {
    if rows != [] {
      var n := |rows| - 1;
      assert Marked(rows, RolledBack)[..n] == Marked(rows[..n], RolledBack);
      MarkedNotLive(rows[..n]);
    }
  }

  /**
    A recovery that fails, and its retry. It fails exactly if a call of the second pass fails, and marks every
    row rolled back, so the retry restores nothing and closes the job: it reports success with the files the
    failure left, which are those before the job exactly when no file shows a change of a row that was live.
  */
  method RecoverAndRetry(store: Store, job: JobId, ghost x: Execution)
    returns (first: RecoveryResult, second: RecoveryResult, ghost passes: Passes, ghost left: Files)
    requires store.Quiet() && job == x.job && Recoverable(x, store.Rows(job), store.files)
    requires job in store.records && Flagged(store.records[job].status)
    modifies store`files, store`calls, store`states, store`lost, store`writes, store`journals, store`records
    ensures passes.restoreFrom == old(store.calls) + |LiveRows(old(store.Rows(job)))| <= store.calls
    ensures first.status == Conflict <==> !store.NoFaults(old(store.calls), passes.restoreFrom)
    ensures first.status == RollbackFailed <==>
      first.status != Conflict && !store.NoFaults(passes.restoreFrom, store.calls)
    ensures first.status == RollbackFailed ==>
      && second.status == RolledBackJob && store.files == left
      && job in store.records && !Flagged(store.records[job].status)
      && (left == x.init <==> forall row :: row in LiveRows(old(store.Rows(job))) ==> !Changed(row, left))
    ensures
      first.status != Conflict && OursIn(LiveRows(old(store.Rows(job))), old(store.files)) != [] ==>
        && passes.restoreFrom < store.calls
        && (store.faults(passes.restoreFrom).EarlyFault? ==> left == old(store.files))
  {
    hide Recoverable, LiveRows, OursIn, AllResumable, OnlyRowsLost;
    first, passes := RollbackIfSafe(store, job, x);
    left, second := store.files, first;
    if first.status == RollbackFailed {
      second := Retry(store, job, x);
    }
  }

  /** A retry on rows marked rolled back. */
  method Retry(store: Store, job: JobId, ghost x: Execution) returns (result: RecoveryResult)
    requires job in store.records && Flagged(store.records[job].status)
    requires exists rows :: store.Rows(job) == Marked(rows, RolledBack)
    modifies store`files, store`calls, store`states, store`lost, store`writes, store`journals, store`records
    ensures result.status == RolledBackJob && store.files == old(store.files) && store.calls == old(store.calls)
    ensures job in store.records && !Flagged(store.records[job].status)
  {
    hide Recoverable, LiveRows, OursIn, AllResumable, OnlyRowsLost, PassesSay;
    ghost var rows :| store.Rows(job) == Marked(rows, RolledBack);
    MarkedNotLive(rows);
    ghost var passes;
    result, passes := RollbackIfSafe(store, job, x);
  }

  /** A created note whose deletion fails survives the retry, which reports success. */
  method RetryKeepsCreatedNote() returns (first: RecoveryResult, second: RecoveryResult, files: Files)
    ensures first.status == RollbackFailed && second.status == RolledBackJob && "note.md" in files
  {
    hide Recoverable, LiveRows, OursIn, MakeEntry;
    var row := MakeEntry(0, ONE_NOTE);
    var record := HistoryRecord(Executing, [], [], map[]);
    var crash := Durable(map["note.md" := [7]], map["job" := [row]], map["job" := record]);
    ghost var x := Execution("job", [ONE_NOTE], map[], [], map["job" := record], 0);
    CreatedIsRecoverable(x, crash);
    var store := new Store(crash, (n, f) => f, n => if n == 1 then EarlyFault else NoFault);
    assert store.Rows("job") == [row] && store.faults(1).EarlyFault?;
    ghost var passes, left;
    first, second, passes, left := RecoverAndRetry(store, "job", x);
    files := store.files;
  }

  lemma CreatedIsRecoverable(x: Execution, s: Durable)
    requires x.job == "job" && x.ops == [ONE_NOTE] && x.init == map[]
    requires s.files == map["note.md" := [7]] && s.Rows("job") == [MakeEntry(0, ONE_NOTE)]
    ensures Recoverable(x, s.Rows("job"), s.files)
    ensures LiveRows(s.Rows("job")) == s.Rows("job") && OursIn(s.Rows("job"), s.files) != []
  {
    var rows := s.Rows("job");
    assert rows[..0] == [];
    assert forall path :: Untouched(x.ops, path) ==> path !in Touched(x.ops[0]);
  }

  // ----- a restart -----

  /** The record belongs to a job that was in the middle of something when the process died. */
  predicate Unfinished(status: JobStatus) {
    status.Planned? || status.Preflighted? || status.Captured? || status.Executing? || status.Validating?
  }

  function MarkedRecord(record: HistoryRecord): HistoryRecord {
    if Unfinished(record.status) then record.(status := RecoveryRequired) else record
  }

  /** Some records have been marked, the others have not yet. */
  ghost predicate PartlyMarked(was: map<JobId, HistoryRecord>, now: map<JobId, HistoryRecord>, done: set<JobId>) {
    now.Keys == was.Keys
    && forall job :: job in was ==> now[job] == if job in done then MarkedRecord(was[job]) else was[job]
  }

  ghost predicate MarkedOnly(was: Durable, now: Durable) {
    now.files == was.files && now.journals == was.journals
    && exists done :: PartlyMarked(was.records, now.records, done)
  }

  /**
    What a restart does before anything else: unfinished jobs are marked as needing recovery, one after the other,
    and nothing else changes. Finished and waiting jobs stay as they are.
  */
  method MarkRecoveryRequired(store: Store)
    modifies store`records, store`states
    ensures store.records.Keys == old(store.records).Keys
    ensures forall job :: job in store.records ==>
      match old(store.records)[job].status
      case Planned | Preflighted | Captured | Executing | Validating =>
        store.records[job] == old(store.records)[job].(status := RecoveryRequired)
      case _ => store.records[job] == old(store.records)[job]
    ensures Grown(old(store.states), store.states)
    ensures forall i :: |old(store.states)| <= i < |store.states| ==>
      MarkedOnly(old(store.Now()), store.states[i])
  {
    var rest := store.records.Keys;
    while rest != {}
      invariant rest <= old(store.records).Keys
      invariant PartlyMarked(old(store.records), store.records, old(store.records).Keys - rest)
      invariant Grown(old(store.states), store.states)
      invariant forall i :: |old(store.states)| <= i < |store.states| ==>
        MarkedOnly(old(store.Now()), store.states[i])
    {
      var job :| job in rest;
      rest := rest - {job};
      if Unfinished(store.records[job].status) {
        store.Save(job, store.records[job].(status := RecoveryRequired));
      }
      assert PartlyMarked(old(store.records), store.records, old(store.records).Keys - rest);
      assert MarkedOnly(old(store.Now()), store.Now());
    }
  }

  /** Marking keeps a job flagged or not. */
  lemma MarkedStaysFlagged(status: JobStatus)
    ensures Unfinished(status) ==> Flagged(status) && Flagged(RecoveryRequired)
  {
  }

  /**
    Crash recovery: after a restart, which marks what was unfinished, on a resumable state, explicit recovery gives
    back the files before the job byte for byte, and if it is interrupted too, it can be started again.
  */
  method RecoverFrom(crash: Durable, job: JobId, ghost x: Execution) returns (files: Files, result: RecoveryResult)
    ensures job == x.job && Resumable(x, crash) ==> files == x.init
    ensures job in crash.records && Flagged(crash.records[job].status) ==> result.status != UndoUnavailable
    ensures job == x.job && Resumable(x, crash) && Flagged(crash.records[job].status) ==>
      result.status == RolledBackJob
    ensures job !in crash.records || !Flagged(crash.records[job].status) ==>
      files == crash.files && result.status == UndoUnavailable
  {
    var store := new Store(crash, (n, f) => f, n => NoFault);
    MarkRecoveryRequired(store);
    if job in crash.records {
      MarkedStaysFlagged(crash.records[job].status);
    }
    ghost var passes;
    result, passes := RollbackIfSafe(store, job, x);
    files := store.files;
  }
}
