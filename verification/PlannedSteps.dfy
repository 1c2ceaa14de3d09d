/** One planned step on a vault: the files before it, the files after it, and everything it leaves alone. */
module PlannedSteps {
  import opened Base
  import opened Vault
  import opened Transactions

  ghost predicate InBefore(op: Operation, init: Files, files: Files) {
    forall path :: path in Touched(op) ==> At(files, path) == At(init, path)
  }

  ghost predicate InAfter(op: Operation, files: Files) {
    At(files, op.path) == op.afterBytes && (op.kind.Move? ==> op.source !in files)
  }

  ghost predicate SameElsewhere(op: Operation, files: Files, after: Files) {
    forall path :: path !in Touched(op) ==> At(after, path) == At(files, path)
  }

  lemma PlannedStep(op: Operation, init: Files, files: Files)
    requires PlannedFor(op, init) && InBefore(op, init, files)
    ensures Step(op, files).Some? && InAfter(op, Step(op, files).value)
      && SameElsewhere(op, files, Step(op, files).value)
  {
    assert op.path in Touched(op) && (op.kind.Move? ==> op.source in Touched(op));
  }

  lemma RestoredStep(seqNo: nat, op: Operation, state: RowState, init: Files, files: Files)
    requires PlannedFor(op, init) && InAfter(op, files)
    ensures var row := MakeEntry(seqNo, op).(state := state); var after := RestoreRow(row, files);
      && after.Some? && InBefore(op, init, after.value) && SameElsewhere(op, files, after.value)
      && Perform(RowInverse(row).value, files).0 == Done(if op.kind.Create? then None else op.beforeHash)
  {
    if op.beforeBytes.Some? {
      BeforeDecodes(seqNo, op);
    }
  }

  ghost predicate Untouched(ops: seq<Operation>, path: Path) {
    forall i :: 0 <= i < |ops| ==> path !in Touched(ops[i])
  }

  lemma PlannedMoves(op: Operation, a: Files, b: Files)
    requires PlannedFor(op, a) && forall path :: path in Touched(op) ==> At(a, path) == At(b, path)
    ensures PlannedFor(op, b)
  {
    assert op.path in Touched(op) && (op.kind.Move? ==> op.source in Touched(op));
  }

  lemma SameAt(a: Files, b: Files)
    requires forall path :: At(a, path) == At(b, path)
    ensures a == b
  {
    assert forall path :: path in a <==> At(a, path).Some?;
    assert forall path :: path in b <==> At(b, path).Some?;
    assert forall path | path in a :: At(a, path) == Some(a[path]);
  }

  /** The files before a step that is applied. */
  ghost function TakenBack(op: Operation, files: Files): Files {
    match op.kind
    case Create => files - {op.path}
    case Update => if op.beforeBytes.Some? then files[op.path := op.beforeBytes.value] else files
    case Move => if op.beforeBytes.Some? then (files - {op.path})[op.source := op.beforeBytes.value] else files
    case Undo => files
  }

  lemma TakenBackStep(op: Operation, init: Files, files: Files)
    requires PlannedFor(op, init) && InAfter(op, files)
    ensures Step(op, TakenBack(op, files)) == Some(files)
    ensures InBefore(op, init, TakenBack(op, files)) && SameElsewhere(op, files, TakenBack(op, files))
  {
    var before := TakenBack(op, files);
    assert op.path in files && files[op.path] == op.afterBytes.value;
    match op.kind
    case Create => assert before[op.path := op.afterBytes.value] == files;
    case Update => assert before[op.path := op.afterBytes.value] == files;
    case Move => assert (before - {op.source})[op.path := op.afterBytes.value] == files;
    case Undo =>
  }

  /** What happens at one step's paths leaves a step of other paths as it is. */
  lemma KeptElsewhere(other: Operation, op: Operation, init: Files, files: Files, after: Files)
    requires Touched(other) !! Touched(op) && SameElsewhere(op, files, after)
    ensures InAfter(other, files) ==> InAfter(other, after)
    ensures InBefore(other, init, files) ==> InBefore(other, init, after)
  {
    assert forall path :: path in Touched(other) ==> At(after, path) == At(files, path);
    assert other.path in Touched(other) && (other.kind.Move? ==> other.source in Touched(other));
  }

  /** An edit that changes no byte. */
  predicate Idle(op: Operation) {
    op.kind.Update? && op.afterBytes == op.beforeBytes
  }

  /** Two steps that do not disturb each other: they touch different paths, or change nothing. */
  ghost predicate Apart(a: Operation, b: Operation) {
    Touched(a) !! Touched(b) || (Idle(a) && Idle(b))
  }

  ghost predicate AllApart(ops: seq<Operation>) {
    forall i, j :: 0 <= i < j < |ops| ==> Apart(ops[i], ops[j])
  }

  /** An idle step restored leaves the files as they are. */
  lemma IdleRestores(seqNo: nat, op: Operation, state: RowState, files: Files)
    requires WellFormed(op) && Idle(op) && InAfter(op, files)
    ensures RestoreRow(MakeEntry(seqNo, op).(state := state), files) == Some(files)
  {
    BeforeDecodes(seqNo, op);
    assert files[op.path := op.beforeBytes.value] == files;
  }
}
