/** Journaled steps, their journal rows and their inverses, as functions on an undisturbed vault. */
module Transactions {
  import opened Base
  import opened Vault
  import Base64

  datatype Kind = Create | Update | Move | Undo

  /** One step of a job. An empty `source` is a missing one. */
  datatype Operation = Operation(
    kind: Kind, path: Path, beforeExists: bool, beforeBytes: Option<Bytes>, beforeHash: Option<Digest>,
    afterBytes: Option<Bytes>, afterHash: Option<Digest>, targetPath: Path, source: Path)

  datatype RowState = Pending | Applied | RolledBack

  datatype JournalEntry = JournalEntry(
    seqNo: nat, kind: Kind, path: Path, beforeExists: bool, beforeBase64: Option<string>, beforeHash: Option<Digest>,
    afterExists: bool, afterHash: Option<Digest>, inverseSource: Path, state: RowState)

  // ----- from steps to calls -----

  /** The vault call that applies a step; None where the executor refuses to build one. */
  function Command(op: Operation): Option<Call> {
    match op.kind
    case Create => if op.afterBytes.None? then None else Some(CreateBytes(op.path, op.afterBytes.value))
    case Update => if op.afterBytes.None? then None else Some(WriteBytes(op.path, op.afterBytes.value, op.beforeHash))
    case Move => if op.source == "" then None else Some(MoveFile(op.source, op.path, op.beforeHash))
    case Undo => None
  }

  /** The vault call that takes an executed step back, guarded by the digest the step left behind. */
  function Inverse(op: Operation, after: Digest): Option<Call> {
    match op.kind
    case Create => Some(DeleteFile(op.path, Some(after)))
    case Update => if op.beforeBytes.None? then None else Some(WriteBytes(op.path, op.beforeBytes.value, Some(after)))
    case Move => if op.source == "" then None else Some(MoveFile(op.path, op.source, Some(after)))
    case Undo => None
  }

  function MakeEntry(seqNo: nat, op: Operation): JournalEntry {
    JournalEntry(
      seqNo, op.kind, if op.targetPath != "" then op.targetPath else op.path, op.beforeExists,
      if op.beforeBytes.Some? then Some(Base64.Encode(op.beforeBytes.value)) else None,
      op.beforeHash, true,
      if op.afterHash.Some? then op.afterHash
      else if op.afterBytes.Some? then Some(Sha256(op.afterBytes.value)) else None,
      if op.kind.Move? then op.source else "", Pending)
  }

  /** Before-bytes of a row; an absent or empty text stands for no bytes. */
  function Before(row: JournalEntry): Option<Bytes> {
    if row.beforeBase64.None? || row.beforeBase64.value == "" then Some([]) else Base64.Decode(row.beforeBase64.value)
  }

  /** The call that restores a row's before-state from the row alone. */
  function RowInverse(row: JournalEntry): Option<Call> {
    match row.kind
    case Create => Some(DeleteFile(row.path, row.afterHash))
    case Update =>
      var before := Before(row);
      if before.None? then None else Some(WriteBytes(row.path, before.value, row.afterHash))
    case Move => if row.inverseSource == "" then None else Some(MoveFile(row.path, row.inverseSource, row.afterHash))
    case Undo => None
  }

  // ----- whole runs -----

  function Step(op: Operation, files: Files): Option<Files> {
    match Command(op)
    case None => None
    case Some(call) => var (reply, after) := Perform(call, files); if reply.Done? then Some(after) else None
  }

  function Run(ops: seq<Operation>, files: Files): Option<Files> {
    if ops == [] then Some(files)
    else
      match Run(ops[..|ops| - 1], files)
      case None => None
      case Some(mid) => Step(ops[|ops| - 1], mid)
  }

  function RestoreRow(row: JournalEntry, files: Files): Option<Files> {
    match RowInverse(row)
    case None => None
    case Some(call) => var (reply, after) := Perform(call, files); if reply.Done? then Some(after) else None
  }

  /** Rows restored last to first. */
  function RestoreAll(rows: seq<JournalEntry>, files: Files): Option<Files> {
    if rows == [] then Some(files)
    else
      match RestoreRow(rows[|rows| - 1], files)
      case None => None
      case Some(mid) => RestoreAll(rows[..|rows| - 1], mid)
  }

  function Entries(ops: seq<Operation>): (rows: seq<JournalEntry>)
    ensures |rows| == |ops| && forall i :: 0 <= i < |ops| ==> rows[i] == MakeEntry(i, ops[i])
  {
    seq(|ops|, i requires 0 <= i < |ops| => MakeEntry(i, ops[i]))
  }

  function Marked(rows: seq<JournalEntry>, state: RowState): (marked: seq<JournalEntry>)
    ensures |marked| == |rows| && forall i :: 0 <= i < |rows| ==> marked[i] == rows[i].(state := state)
  {
    seq(|rows|, i requires 0 <= i < |rows| => rows[i].(state := state))
  }

  // ----- what the planner guarantees about a step -----

  /** The step's own fields agree with each other, as every planned step's do. */
  ghost predicate WellFormed(op: Operation) {
    && !op.kind.Undo?
    && op.targetPath == ""
    && op.afterBytes.Some?
    && (op.afterHash.None? || op.afterHash == Some(Sha256(op.afterBytes.value)))
    && (op.kind.Update? || op.kind.Move? ==>
          op.beforeBytes.Some? && op.beforeHash == Some(Sha256(op.beforeBytes.value)))
    && (op.kind.Move? ==> op.source != "" && op.afterBytes == op.beforeBytes)
  }

  ghost predicate AllWellFormed(ops: seq<Operation>) {
    forall i :: 0 <= i < |ops| ==> WellFormed(ops[i])
  }

  function Touched(op: Operation): set<Path> {
    if op.kind.Move? then {op.source, op.path} else {op.path}
  }

  /** Paths reported after taking steps back last to first: each step's path, and a move's source once. */
  function Reported(ops: seq<Operation>): seq<Path> {
    if ops == [] then []
    else
      var paths := Reported(ops[1..]) + [ops[0].path];
      if ops[0].kind.Move? && ops[0].source != "" && ops[0].source !in paths then paths + [ops[0].source] else paths
  }

  lemma {:induction false} ReportedAreTouched(ops: seq<Operation>, path: Path)
    requires AllWellFormed(ops)
    ensures path in Reported(ops) <==> exists k :: 0 <= k < |ops| && path in Touched(ops[k])
  {
    if ops != [] {
      ReportedAreTouched(ops[1..], path);
      assert path in Touched(ops[0]) || path in Reported(ops[1..]) <==> path in Reported(ops);
      assert forall k :: 0 < k < |ops| ==> ops[k] == ops[1..][k - 1];
    }
  }

  /** The step was planned against these files. */
  ghost predicate PlannedFor(op: Operation, files: Files) {
    && WellFormed(op)
    && match op.kind
       case Create => op.path !in files
       case Update => At(files, op.path) == op.beforeBytes
       case Move => At(files, op.source) == op.beforeBytes && op.path !in files
       case Undo => false
  }

  ghost predicate AllPlanned(ops: seq<Operation>, files: Files) {
    forall i :: 0 <= i < |ops| ==> PlannedFor(ops[i], files)
  }

  ghost predicate Disjoint(ops: seq<Operation>) {
    forall i, j :: 0 <= i < j < |ops| ==> Touched(ops[i]) !! Touched(ops[j])
  }

  // ----- inverses -----

  lemma BeforeDecodes(seqNo: nat, op: Operation)
    requires op.beforeBytes.Some?
    ensures Before(MakeEntry(seqNo, op)) == op.beforeBytes
  {
    Base64.RoundTrip(op.beforeBytes.value);
  }

  lemma CallsInvert(path: Path, source: Path, was: Bytes, now: Bytes, files: Files)
    ensures path !in files ==> Perform(DeleteFile(path, Some(Sha256(now))), files[path := now]) == (Done(None), files)
    ensures At(files, path) == Some(was) ==>
      Perform(WriteBytes(path, was, Some(Sha256(now))), files[path := now]) == (Done(Some(Sha256(was))), files)
    ensures path !in files && At(files, source) == Some(was) ==>
      Perform(MoveFile(path, source, Some(Sha256(was))), (files - {source})[path := was]) ==
        (Done(Some(Sha256(was))), files)
  {
    if path !in files {
      assert files[path := now] - {path} == files;
    }
    if At(files, path) == Some(was) {
      assert files[path := now][path := was] == files;
    }
    if path !in files && At(files, source) == Some(was) {
      assert ((files - {source})[path := was] - {path})[source := was] == files;
    }
  }

  /** Taking an applied step back gives the files before it, whether from the step or from its row. */
  lemma InverseUndoesStep(seqNo: nat, op: Operation, state: RowState, files: Files)
    requires WellFormed(op) && Step(op, files).Some?
    ensures RestoreRow(MakeEntry(seqNo, op).(state := state), Step(op, files).value) == Some(files)
    ensures var reply := Perform(Command(op).value, files).0;
      && reply == Done(MakeEntry(seqNo, op).afterHash)
      && MakeEntry(seqNo, op).afterHash.Some?
      && Inverse(op, reply.sha256.value) == RowInverse(MakeEntry(seqNo, op).(state := state))
  {
    if op.beforeBytes.Some? {
      BeforeDecodes(seqNo, op);
    }
    CallsInvert(op.path, op.source, op.beforeBytes.GetOr([]), op.afterBytes.value, files);
  }

  lemma RunPrefix(ops: seq<Operation>, k: nat, files: Files)
    requires k < |ops|
    ensures Run(ops[..k + 1], files) == match Run(ops[..k], files) case None => None case Some(mid) => Step(ops[k], mid)
  {
    assert ops[..k + 1][..k] == ops[..k];
  }

  lemma {:induction false} RunFailsAfter(ops: seq<Operation>, k: nat, files: Files)
    requires k <= |ops| && Run(ops[..k], files).None?
    ensures Run(ops, files).None?
    decreases |ops| - k
  {
    if k < |ops| {
      RunPrefix(ops, k, files);
      RunFailsAfter(ops, k + 1, files);
    } else {
      assert ops[..k] == ops;
    }
  }

  /**
    Undo inverts commit: restoring the journal rows of a whole run, last to first, from the rows
    alone, gives the files before the run. Steps may share paths.
  */
  lemma {:induction false} RestoreAllInvertsRun(ops: seq<Operation>, state: RowState, files: Files)
    requires AllWellFormed(ops) && Run(ops, files).Some?
    ensures RestoreAll(Marked(Entries(ops), state), Run(ops, files).value) == Some(files)
  {
    hide Step, RestoreRow, WellFormed, MakeEntry, Entries, Marked;
    if ops != [] {
      var n := |ops| - 1;
      var rows := Marked(Entries(ops), state);
      assert ops[..n] + [ops[n]] == ops;
      InverseUndoesStep(n, ops[n], state, Run(ops[..n], files).value);
      assert rows[..n] == Marked(Entries(ops[..n]), state);
      RestoreAllInvertsRun(ops[..n], state, files);
    }
  }
}
