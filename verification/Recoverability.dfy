/** Which crash states explicit recovery can take back, and why it can. */
module Recoverability {
  import opened Base
  import opened Vault
  import opened Transactions
  import opened PlannedSteps
  import opened Executions

  /** Rows recovery looks at. */
  predicate Live(row: JournalEntry) {
    !row.kind.Undo? && (row.state.Pending? || row.state.Applied?)
  }

  function LiveRows(rows: seq<JournalEntry>): seq<JournalEntry> {
    if rows == [] then []
    else
      var last := rows[|rows| - 1];
      LiveRows(rows[..|rows| - 1]) + if Live(last) then [last] else []
  }

  /** The file at the row's path is what the job wrote there. */
  predicate Ours(row: JournalEntry, files: Files) {
    row.afterHash.Some? && row.path in files && Sha256(files[row.path]) == row.afterHash.value
  }

  /** The file at the row's path is neither what the job wrote nor what it found. */
  predicate Clashes(row: JournalEntry, files: Files) {
    !Ours(row, files) && row.path in files && Some(Sha256(files[row.path])) != row.beforeHash
  }

  /** The file at the row's path shows what the job changed, as hashes alone tell. */
  predicate Changed(row: JournalEntry, files: Files) {
    Ours(row, files) && (row.kind.Update? ==> row.afterHash != row.beforeHash)
  }

  /** A planned step that is applied or not has changed something exactly when its row says so. */
  lemma ChangedExactly(op: Operation, base: Files, files: Files, row: JournalEntry)
    requires PlannedFor(op, base) && row == MakeEntry(row.seqNo, op).(state := row.state)
    requires InBefore(op, base, files) || InAfter(op, files)
    ensures Changed(row, files) <==> !InBefore(op, base, files)
  {
    assert op.path in Touched(op) && (op.kind.Move? ==> op.source in Touched(op));
  }

  function OursIn(rows: seq<JournalEntry>, files: Files): seq<JournalEntry> {
    if rows == [] then []
    else
      var last := rows[|rows| - 1];
      OursIn(rows[..|rows| - 1], files) + if Ours(last, files) then [last] else []
  }

  // ----- crash states -----

  /** Row i of the job is step i's row, or an audit row after them. */
  ghost predicate StepRows(rows: seq<JournalEntry>, ops: seq<Operation>) {
    forall i :: 0 <= i < |rows| && !rows[i].kind.Undo? ==>
      i < |ops| && rows[i] == MakeEntry(i, ops[i]).(state := rows[i].state)
  }

  /** Each step is not applied, or applied with a live row to take it back from; live rows are of planned steps. */
  ghost predicate Recoverable(x: Execution, rows: seq<JournalEntry>, files: Files) {
    && StepRows(rows, x.ops) && AllApart(x.ops)
    && (forall i :: 0 <= i < |rows| && Live(rows[i]) ==> PlannedFor(x.ops[i], x.init))
    && (forall i :: 0 <= i < |x.ops| ==>
          InBefore(x.ops[i], x.init, files) || (InAfter(x.ops[i], files) && i < |rows| && Live(rows[i])))
    && forall path :: Untouched(x.ops, path) ==> At(files, path) == At(x.init, path)
  }

  // ----- taking a crash state back -----

  lemma NoClash(x: Execution, rows: seq<JournalEntry>, files: Files, i: nat)
    requires Recoverable(x, rows, files) && i < |rows| && Live(rows[i])
    ensures !Clashes(rows[i], files)
    ensures Ours(rows[i], files) ==> InAfter(x.ops[i], files)
    ensures !Ours(rows[i], files) ==> InBefore(x.ops[i], x.init, files)
  {
    var op := x.ops[i];
    assert op.path in Touched(op) && (op.kind.Move? ==> op.source in Touched(op));
    if InAfter(op, files) {
      assert Ours(rows[i], files);
    }
  }

  /** Restoring one applied step keeps a crash state recoverable and leaves that step not applied. */
  lemma RestoredIsRecoverable(x: Execution, rows: seq<JournalEntry>, files: Files, i: nat)
    requires Recoverable(x, rows, files) && i < |rows| && Live(rows[i]) && InAfter(x.ops[i], files)
    ensures RestoreRow(rows[i], files).Some?
    ensures Perform(RowInverse(rows[i]).value, files).0 ==
      Done(if rows[i].kind.Create? then None else rows[i].beforeHash)
    ensures var after := RestoreRow(rows[i], files).value;
      && Recoverable(x, rows, after)
      && InBefore(x.ops[i], x.init, after)
      && forall k :: 0 <= k < |x.ops| && k != i ==>
           && (InAfter(x.ops[k], files) ==> InAfter(x.ops[k], after))
           && (InBefore(x.ops[k], x.init, files) ==> InBefore(x.ops[k], x.init, after))
  {
    RestoredStep(i, x.ops[i], rows[i].state, x.init, files);
    var after := RestoreRow(rows[i], files).value;
    forall k | 0 <= k < |x.ops| && k != i
      ensures InAfter(x.ops[k], files) ==> InAfter(x.ops[k], after)
      ensures InBefore(x.ops[k], x.init, files) ==> InBefore(x.ops[k], x.init, after)
    {
      assert Apart(x.ops[if k < i then k else i], x.ops[if k < i then i else k]);
      if Touched(x.ops[k]) !! Touched(x.ops[i]) {
        KeptElsewhere(x.ops[k], x.ops[i], x.init, files, after);
      } else {
        IdleRestores(i, x.ops[i], rows[i].state, files);
      }
    }
    assert forall path :: Untouched(x.ops, path) ==> path !in Touched(x.ops[i]);
  }

  /** With no step applied, the files are the initial ones. */
  lemma NothingApplied(x: Execution, rows: seq<JournalEntry>, files: Files)
    requires Recoverable(x, rows, files)
    requires forall i :: 0 <= i < |x.ops| ==> InBefore(x.ops[i], x.init, files)
    ensures files == x.init
  {
    forall path
      ensures At(files, path) == At(x.init, path)
    {
      if !Untouched(x.ops, path) {
        var i :| 0 <= i < |x.ops| && path in Touched(x.ops[i]);
        assert InBefore(x.ops[i], x.init, files);
      }
    }
    assert forall path :: path in files <==> At(files, path).Some?;
    assert forall path :: path in x.init <==> At(x.init, path).Some?;
    assert forall path | path in files :: At(files, path) == Some(files[path]);
  }

  lemma MarkKeepsInitial(x: Execution, rows: seq<JournalEntry>)
    requires Recoverable(x, rows, x.init)
    ensures Recoverable(x, Marked(rows, RolledBack), x.init)
  {
  }

  // ----- the list recovery works through -----

  /** Rows come in the order they were journaled. */
  ghost predicate Increasing(list: seq<JournalEntry>) {
    forall t, u :: 0 <= t < u < |list| ==> list[t].seqNo < list[u].seqNo
  }

  lemma {:induction false} OursInAppend(rows: seq<JournalEntry>, more: seq<JournalEntry>, files: Files)
    ensures OursIn(rows + more, files) == OursIn(rows, files) + OursIn(more, files)
  {
    if more == [] {
      assert rows + more == rows;
    } else {
      var n := |more| - 1;
      assert (rows + more)[..|rows + more| - 1] == rows + more[..n];
      OursInAppend(rows, more[..n], files);
    }
  }

  lemma PickLast(rows: seq<JournalEntry>, files: Files)
    requires rows != []
    ensures var last := rows[|rows| - 1];
      OursIn(LiveRows(rows), files) ==
      OursIn(LiveRows(rows[..|rows| - 1]), files) + if Live(last) && Ours(last, files) then [last] else []
  {
    var last := rows[|rows| - 1];
    OursInAppend(LiveRows(rows[..|rows| - 1]), if Live(last) then [last] else [], files);
    assert OursIn([last], files) == (if Ours(last, files) then [last] else []) by {
      assert [last][..0] == [];
    }
  }

  /** Recovery's list holds exactly the live rows whose file is still ours, in order. */
  lemma {:induction false} OursInExactly(rows: seq<JournalEntry>, files: Files)
    requires forall i :: 0 <= i < |rows| && Live(rows[i]) ==> rows[i].seqNo == i
    ensures Increasing(OursIn(LiveRows(rows), files))
    ensures forall row :: row in OursIn(LiveRows(rows), files) <==> row in rows && Live(row) && Ours(row, files)
  {
    if rows != [] {
      var front, last := rows[..|rows| - 1], rows[|rows| - 1];
      OursInExactly(front, files);
      PickLast(rows, files);
      assert rows == front + [last];
      var shorter := OursIn(LiveRows(front), files);
      forall t | 0 <= t < |shorter|
        ensures shorter[t].seqNo < |front|
      {
        assert shorter[t] in front;
      }
    }
  }

  /** The first n rows of `list` are the steps still applied, in order; every other step is not. */
  ghost predicate Remaining(x: Execution, rows: seq<JournalEntry>, files: Files, list: seq<JournalEntry>, n: nat) {
    && n <= |list| && Increasing(list) && Recoverable(x, rows, files)
    && (forall t :: 0 <= t < n ==> IsApplied(x, rows, files, list[t]))
    && forall i :: 0 <= i < |x.ops| ==> InBefore(x.ops[i], x.init, files) || (i < |rows| && rows[i] in list[..n])
  }

  ghost predicate IsApplied(x: Execution, rows: seq<JournalEntry>, files: Files, row: JournalEntry) {
    row.seqNo < |rows| && row == rows[row.seqNo] && Live(row) && row.seqNo < |x.ops| && InAfter(x.ops[row.seqNo], files)
  }

  lemma RemainingAtStart(x: Execution, rows: seq<JournalEntry>, files: Files)
    requires Recoverable(x, rows, files)
    ensures var list := OursIn(LiveRows(rows), files); Remaining(x, rows, files, list, |list|)
    ensures forall row :: row in LiveRows(rows) ==> !Clashes(row, files)
  {
    var list := OursIn(LiveRows(rows), files);
    OursInExactly(rows, files);
    LiveRowsExactly(rows);
    assert list[..|list|] == list;
    forall i | 0 <= i < |rows| && Live(rows[i])
      ensures rows[i].seqNo == i && !Clashes(rows[i], files)
      ensures Ours(rows[i], files) ==> IsApplied(x, rows, files, rows[i])
      ensures !Ours(rows[i], files) ==> InBefore(x.ops[i], x.init, files)
    {
      NoClash(x, rows, files, i);
    }
    forall t | 0 <= t < |list|
      ensures IsApplied(x, rows, files, list[t])
    {
      assert list[t] in rows;
    }
  }

  lemma {:induction false} LiveRowsExactly(rows: seq<JournalEntry>)
    ensures forall row :: row in LiveRows(rows) <==> row in rows && Live(row)
  {
    if rows != [] {
      LiveRowsExactly(rows[..|rows| - 1]);
      assert rows == rows[..|rows| - 1] + [rows[|rows| - 1]];
    }
  }

  lemma RemainingStep(x: Execution, rows: seq<JournalEntry>, files: Files, list: seq<JournalEntry>, n: nat)
    requires n > 0 && Remaining(x, rows, files, list, n)
    ensures var row := list[n - 1];
      && RestoreRow(row, files).Some?
      && Perform(RowInverse(row).value, files).0 == Done(if row.kind.Create? then None else row.beforeHash)
      && Remaining(x, rows, RestoreRow(row, files).value, list, n - 1)
  {
    var row := list[n - 1];
    assert IsApplied(x, rows, files, row);
    RestoredIsRecoverable(x, rows, files, row.seqNo);
    var after := RestoreRow(row, files).value;
    forall t | 0 <= t < n - 1
      ensures IsApplied(x, rows, after, list[t])
    {
      assert IsApplied(x, rows, files, list[t]);
    }
    assert list[..n] == list[..n - 1] + [row];
  }

  lemma RemainingMore(
    x: Execution, rows: seq<JournalEntry>, files: Files, list: seq<JournalEntry>, n: nat, audit: JournalEntry)
    requires Remaining(x, rows, files, list, n) && audit.kind.Undo?
    ensures Remaining(x, rows + [audit], files, list, n)
  {
    forall t | 0 <= t < n
      ensures IsApplied(x, rows + [audit], files, list[t])
    {
      assert IsApplied(x, rows, files, list[t]);
    }
  }

  lemma RemainingNone(x: Execution, rows: seq<JournalEntry>, files: Files, list: seq<JournalEntry>)
    requires Remaining(x, rows, files, list, 0)
    ensures files == x.init
  {
    NothingApplied(x, rows, files);
  }
}
