/** The journaled executor: write-ahead rows, hash-guarded steps, reverse rollback. */
module Executor {
  import opened Base
  import opened Vault
  import opened Transactions
  import opened HistoryStore
  import opened PlannedSteps
  import opened Executions

  /** The rows one execution stores, under a byte cap. */
  class RecoveryJournal {
    const store: Store
    const job: JobId
    const maxBytes: nat
    var bytes: nat
    var pending: seq<JournalEntry>

    constructor (store: Store, job: JobId, maxBytes: nat)
      ensures this.store == store && this.job == job && this.maxBytes == maxBytes
      ensures bytes == 0 && pending == []
    {
      this.store, this.job, this.maxBytes := store, job, maxBytes;
      bytes, pending := 0, [];
    }

    /** The journal has stored the first k rows of an execution. */
    ghost predicate Holds(x: Execution, k: nat)
      reads this
    {
      && job == x.job && maxBytes == x.cap && k <= |x.ops|
      && pending == Entries(x.ops)[..k] && bytes == Stored(pending)
    }

    /** Stores the row unless the before-texts of this job would exceed the cap. */
    method Record(entry: JournalEntry) returns (stored: bool)
      requires entry.seqNo == |pending| && |pending| <= |store.Rows(job)|
      requires bytes == Stored(pending)
      modifies this, store`journals, store`states
      ensures stored == (Stored(old(pending) + [entry]) <= maxBytes)
      ensures stored ==>
        && pending == old(pending) + [entry] && bytes == Stored(pending)
        && var rows := old(store.Rows(job));
           store.Rows(job) == if entry.seqNo < |rows| then rows[entry.seqNo := entry] else rows + [entry]
      ensures store.journals - {job} == old(store.journals) - {job}
      ensures stored ==> store.states == old(store.states) + [store.Now()]
      ensures !stored ==> store.journals == old(store.journals) && store.states == old(store.states)
      ensures !stored ==> pending == old(pending)
    {
      assert (pending + [entry])[..|pending|] == pending;
      bytes := bytes + |entry.beforeBase64.GetOr("")|;
      if bytes > maxBytes {
        return false;
      }
      store.AddJournal(job, entry);
      pending := pending + [entry];
      return true;
    }
  }

  // ----- taking steps back -----

  lemma InverseReply(op: Operation, after: Digest, before: Files)
    requires WellFormed(op) && Step(op, before).Some? && MakeEntry(0, op).afterHash == Some(after)
    ensures Inverse(op, after).Some?
    ensures Perform(Inverse(op, after).value, Step(op, before).value) ==
      (Done(if op.kind.Create? then None else op.beforeHash), before)
  {
    InverseUndoesStep(0, op, Pending, before);
  }

  lemma InverseGuard(op: Operation, after: Digest)
    requires Inverse(op, after).Some?
    ensures var call := Inverse(op, after).value;
      && (call.WriteBytes? || call.DeleteFile? || call.MoveFile?)
      && call.path == op.path && call.expected == Some(after)
  {
  }

  /** A guarded call that works on two vaults keeps them apart. */
  lemma PerformKeepsApart(call: Call, a: Files, b: Files)
    requires call.WriteBytes? || call.DeleteFile? || call.MoveFile?
    requires Perform(call, a).0.Done? && Perform(call, b).0.Done? && a != b
    ensures Perform(call, a).1 != Perform(call, b).1
  {
    var a', b' := Perform(call, a).1, Perform(call, b).1;
    assert a[call.path] == b[call.path];
    match call
    case WriteBytes(path, data, _) =>
      assert a == a'[path := a[path]] && b == b'[path := b[path]];
    case DeleteFile(path, _) =>
      assert a == a'[path := a[path]] && b == b'[path := b[path]];
    case MoveFile(path, destination, _) =>
      assert a == (a' - {destination})[path := a[path]] && b == (b' - {destination})[path := b[path]];
  }

  /** Takes one executed step back; `before` are the files it was applied to. */
  method UndoOne(store: Store, op: Operation, after: Digest, ghost before: Files) returns (ok: bool)
    modifies store`files, store`calls, store`states, store`lost, store`writes
    ensures Grown(old(store.lost), store.lost) && Grown(old(store.states), store.states)
    ensures old(store.calls) <= store.calls
    ensures LostOnlyAt(|old(store.lost)|, store.lost, op.path, Some(after))
    ensures ok ==> store.NoFaults(old(store.calls), store.calls)
    ensures store.Quiet() && store.faults(old(store.calls)).EarlyFault? ==> !ok && store.files == old(store.files)
    ensures store.Quiet() && ok ==>
      Inverse(op, after).Some? && Perform(Inverse(op, after).value, old(store.files)).0.Done?
      && store.files == Perform(Inverse(op, after).value, old(store.files)).1
    ensures
      store.Quiet() && WellFormed(op) && Step(op, before) == Some(old(store.files))
      && MakeEntry(0, op).afterHash == Some(after) ==>
        && FilesAmong(store.states, |old(store.states)|, store.Now(), before, old(store.files))
        && (ok ==> store.files == before)
        && (!ok ==> !store.NoFaults(old(store.calls), store.calls))
        && (store.files == before || store.files == old(store.files))
  {
    if WellFormed(op) && Step(op, before) == Some(store.files) && MakeEntry(0, op).afterHash == Some(after) {
      InverseReply(op, after, before);
    }
    var call := Inverse(op, after);
    ok := false;
    if call.Some? {
      InverseGuard(op, after);
      var reply := store.Revert(call.value);
      ok := reply.Done? &&
        (op.kind.Create? || reply.sha256 == op.beforeHash || (op.kind.Move? && op.beforeHash.None?));
    }
  }

  /** The executed steps in order, each with a digest it owns; on a quiet vault, the digest it left. */
  ghost predicate ExecutedAre(executed: seq<(Operation, Digest)>, ops: seq<Operation>, quiet: bool) {
    && |executed| <= |ops|
    && forall i :: 0 <= i < |executed| ==>
         && executed[i].0 == ops[i] && OwnContent(ops[i], ops[i].path, executed[i].1)
         && (quiet ==> MakeEntry(0, ops[i]).afterHash == Some(executed[i].1))
  }

  lemma OneStepLost(x: Execution, since: nat, lost: seq<Loss>, k: nat)
    requires k < |x.ops|
    requires forall i :: since <= i < |lost| ==> OwnContent(x.ops[k], lost[i].path, Sha256(lost[i].bytes))
    ensures OnlyOwnLost(since, lost, x.ops)
  {
    forall i | since <= i < |lost|
      ensures Owned(x.ops, lost[i])
    {
      assert OwnContent(x.ops[k], lost[i].path, Sha256(lost[i].bytes));
    }
  }

  /** States that are `s` up to the files of two neighbouring prefixes of the run. */
  lemma StatesPass(x: Execution, states: seq<Durable>, from: nat, s: Durable, m: nat, r: nat)
    requires m + 1 <= r && x.PassesAt(s, m + 1, r) && Run(x.ops[..m], x.init).Some?
    requires FilesAmong(states, from, s, Run(x.ops[..m], x.init).value, s.files)
    ensures x.AllPass(states, from, |states|)
  {
    forall i | from <= i < |states|
      ensures x.Passes(states[i])
    {
      assert x.PassesAt(states[i], if states[i] == s then m + 1 else m, r);
    }
  }

  /**
    What is known of a rollback. `Clean`: nobody else writes, and the executed steps are exactly what is
    applied. `Dirty`: nobody else writes, and something more is applied than the executed steps.
  */
  datatype Mode = Disturbed | Clean | Dirty

  /** The files with the first n steps applied, or in a dirty rollback some other files. */
  ghost predicate RollsBack(x: Execution, s: Durable, n: nat, r: nat, mode: Mode) {
    match mode
    case Disturbed => true
    case Clean => x.PassesAt(s, n, r)
    case Dirty =>
      && n <= |x.ops| && Run(x.ops[..n], x.init).Some? && Run(x.ops[..n], x.init) != Some(s.files)
      && (Independent(x) ==> Spread(x, s, n, r))
  }

  ghost predicate Undisturbed(store: Store, x: Execution, mode: Mode) {
    mode.Disturbed? || (store.Quiet() && AllWellFormed(x.ops))
  }

  /** Where a rollback stopped. */
  ghost predicate StoppedAt(x: Execution, s: Durable, r: nat) {
    exists m: nat :: x.PassesAt(s, m, r)
  }

  lemma DirtyStep(x: Execution, i: nat, op: Operation, after: Digest, files: Files, files': Files)
    requires i < |x.ops| && op == x.ops[i] && AllWellFormed(x.ops) && MakeEntry(0, op).afterHash == Some(after)
    requires Run(x.ops[..i + 1], x.init).Some? && Run(x.ops[..i + 1], x.init) != Some(files)
    requires Inverse(op, after).Some? && Perform(Inverse(op, after).value, files).0.Done?
    requires files' == Perform(Inverse(op, after).value, files).1
    ensures Run(x.ops[..i], x.init).Some? && Run(x.ops[..i], x.init) != Some(files')
  {
    RunPrefix(x.ops, i, x.init);
    InverseReply(op, after, Run(x.ops[..i], x.init).value);
    InverseGuard(op, after);
    PerformKeepsApart(Inverse(op, after).value, Run(x.ops[..i + 1], x.init).value, files);
  }

  lemma AmongScattered(x: Execution, states: seq<Durable>, from: nat, s: Durable, files: Files, r: nat)
    requires x.ScatteredAt(s, r) && x.ScatteredAt(s.(files := files), r)
    requires from <= |states| && FilesAmong(states, from, s, files, s.files)
    ensures x.AllScattered(states, from, |states|)
  {
    assert s.(files := s.files) == s;
    forall i | from <= i < |states|
      ensures x.Scattered(states[i])
    {
      assert x.ScatteredAt(states[i], r);
    }
  }

  /** Takes back step i of an execution whose first i + 1 steps are applied. */
  method TakeBack(
    store: Store, op: Operation, after: Digest, ghost x: Execution, ghost i: nat, ghost r: nat, ghost mode: Mode)
    returns (ok: bool)
    requires i < |x.ops| && op == x.ops[i] && OwnContent(op, op.path, after)
    requires Undisturbed(store, x, mode) && RollsBack(x, store.Now(), i + 1, r, mode)
    requires !mode.Disturbed? ==> MakeEntry(0, op).afterHash == Some(after)
    modifies store`files, store`calls, store`states, store`lost, store`writes
    ensures x.Sound(old(store.Log()), store.Log(), mode.Clean?)
    ensures ok ==> RollsBack(x, store.Now(), i, r, mode) && store.NoFaults(old(store.calls), store.calls)
    ensures store.Quiet() && store.faults(old(store.calls)).EarlyFault? ==> !ok && store.files == old(store.files)
    ensures mode.Clean? && !ok ==> !store.NoFaults(old(store.calls), store.calls) && StoppedAt(x, store.Now(), r)
    ensures mode.Dirty? && Independent(x) ==>
      x.AllScattered(store.states, |old(store.states)|, |store.states|) && x.ScatteredAt(store.Now(), r)
  {
    ghost var before := Run(x.ops[..i], x.init).GetOr(map[]);
    if !mode.Disturbed? {
      RunPrefix(x.ops, i, x.init);
    }
    if mode.Dirty? && Independent(x) {
      before := TakenBack(op, store.files);
      SpreadBack(x, store.Now(), i, r);
    }
    ok := UndoOne(store, op, after, before);
    OneStepLost(x, |old(store.lost)|, store.lost, i);
    if mode.Clean? {
      StatesPass(x, store.states, |old(store.states)|, old(store.Now()), i, r);
      assert x.PassesAt(store.Now(), if store.files == before then i else i + 1, r);
    } else if mode.Dirty? && ok {
      DirtyStep(x, i, op, after, old(store.files), store.files);
    }
    if mode.Dirty? && Independent(x) {
      AmongScattered(x, store.states, |old(store.states)|, old(store.Now()), before, r);
    }
  }

  lemma DirtyScattered(x: Execution, s: Durable, n: nat, r: nat)
    requires RollsBack(x, s, n, r, Dirty) && Independent(x)
    ensures x.ScatteredAt(s, r)
  {
  }

  lemma ScatteredJoins(x: Execution, states: seq<Durable>, from: nat, mid: seq<Durable>)
    requires from <= |mid| && Grown(mid, states)
    requires x.AllScattered(mid, from, |mid|) && x.AllScattered(states, |mid|, |states|)
    ensures x.AllScattered(states, from, |states|)
  {
    hide Execution.Scattered;
    forall i | from <= i < |states|
      ensures x.Scattered(states[i])
    {
      assert i < |mid| ==> states[i] == mid[i];
    }
  }

  method Rollback(
    store: Store, executed: seq<(Operation, Digest)>, ghost x: Execution, ghost r: nat, ghost mode: Mode)
    returns (result: RecoveryResult)
    requires ExecutedAre(executed, x.ops, !mode.Disturbed?)
    requires Undisturbed(store, x, mode) && RollsBack(x, store.Now(), |executed|, r, mode)
    modifies store`files, store`calls, store`states, store`lost, store`writes
    ensures x.Sound(old(store.Log()), store.Log(), mode.Clean?)
    ensures result.status == RolledBackJob || result.status == RollbackFailed
    ensures result.status == RolledBackJob ==>
      && result.restored == Reported(x.ops[..|executed|]) && RollsBack(x, store.Now(), 0, r, mode)
      && store.NoFaults(old(store.calls), store.calls)
    ensures store.Quiet() && executed != [] && store.faults(old(store.calls)).EarlyFault? ==>
      result.status == RollbackFailed && store.files == old(store.files)
    ensures mode.Clean? && result.status == RollbackFailed ==>
      !store.NoFaults(old(store.calls), store.calls) && StoppedAt(x, store.Now(), r)
    ensures mode.Dirty? && Independent(x) ==>
      x.AllScattered(store.states, |old(store.states)|, |store.states|) && x.ScatteredAt(store.Now(), r)
  {
    hide RollsBack, StoppedAt, OwnContent, Execution.ScatteredAt, Independent;
    if mode.Dirty? && Independent(x) {
      DirtyScattered(x, store.Now(), |executed|, r);
    }
    var restored: seq<Path> := [];
    var i: nat := |executed|;
    x.SoundNothing(store.Log(), mode.Clean?);
    while i > 0
      invariant i <= |executed| && restored == Reported(x.ops[i..|executed|])
      invariant x.Sound(old(store.Log()), store.Log(), mode.Clean?)
      invariant RollsBack(x, store.Now(), i, r, mode) && store.NoFaults(old(store.calls), store.calls)
      invariant store.Quiet() && store.faults(old(store.calls)).EarlyFault? ==>
        i == |executed| && store.calls == old(store.calls) && store.files == old(store.files)
      invariant mode.Dirty? && Independent(x) ==>
        x.AllScattered(store.states, |old(store.states)|, |store.states|) && x.ScatteredAt(store.Now(), r)
    {
      i := i - 1;
      var (op, after) := executed[i];
      label L:
      var ok := TakeBack(store, op, after, x, i, r, mode);
      x.SoundTransitive(old(store.Log()), old@L(store.Log()), store.Log(), mode.Clean?);
      if mode.Dirty? && Independent(x) {
        ScatteredJoins(x, store.states, |old(store.states)|, old@L(store.states));
      }
      if !ok {
        return RecoveryResult(RollbackFailed, restored, [op.path]);
      }
      assert x.ops[i..|executed|][1..] == x.ops[i + 1..|executed|];
      restored := restored + [op.path];
      if op.kind.Move? && op.source != "" && op.source !in restored {
        restored := restored + [op.source];
      }
    }
    return RecoveryResult(RolledBackJob, restored, []);
  }

  // ----- applying steps -----

  lemma CommandOwns(op: Operation, files: Files)
    requires Command(op).Some?
    ensures var (reply, after) := Perform(Command(op).value, files);
      && (reply.Done? ==> reply.sha256.Some? && OwnContent(op, op.path, reply.sha256.value))
      && (reply.Done? && WellFormed(op) ==> MakeEntry(0, op).afterHash == reply.sha256)
    ensures forall i :: 0 <= i < |LossOf(Command(op).value, files)| ==>
      var loss := LossOf(Command(op).value, files)[i]; OwnContent(op, loss.path, Sha256(loss.bytes))
  {
    if op.kind.Update? || op.kind.Move? {
      LossIsGuarded(Command(op).value, files);
    }
    if WellFormed(op) && Step(op, files).Some? {
      InverseUndoesStep(0, op, Pending, files);
    }
  }

  lemma {:induction false} StoredGrows(rows: seq<JournalEntry>, k: nat)
    requires k <= |rows|
    ensures Stored(rows[..k]) <= Stored(rows)
    decreases |rows| - k
  {
    if k < |rows| {
      assert rows[..k + 1][..k] == rows[..k];
      StoredGrows(rows, k + 1);
    } else {
      assert rows[..k] == rows;
    }
  }

  lemma StopsShort(x: Execution, k: nat)
    requires k < |x.ops|
    requires Stored(Entries(x.ops)[..k + 1]) > x.cap || Run(x.ops[..k + 1], x.init).None?
    ensures !x.Succeeds()
  {
    if Stored(Entries(x.ops)[..k + 1]) > x.cap {
      StoredGrows(Entries(x.ops), k + 1);
    } else {
      RunFailsAfter(x.ops, k + 1, x.init);
    }
  }

  lemma FreshPasses(x: Execution, s: Durable, m: nat, r: nat)
    requires m <= r && x.Fresh(s.Rows(x.job), r) && Run(x.ops[..m], x.init) == Some(s.files) && s.records == x.records
    ensures x.PassesAt(s, m, r) && x.Passes(s)
  {
    assert x.PassesAt(s, m, r);
  }

  lemma RowsKept(x: Execution, rows: seq<JournalEntry>, r: nat)
    requires x.RowsAt(rows, r)
    ensures |rows| == (if r < |x.rows| then |x.rows| else r) && r <= |x.ops|
    ensures forall i :: r <= i < |rows| ==> rows[i].kind == x.rows[i].kind
    ensures forall i :: 0 <= i < r ==> rows[i].kind == x.ops[i].kind
  {
  }

  lemma FreshMore(x: Execution, rows: seq<JournalEntry>, more: seq<JournalEntry>, k: nat)
    requires k < |x.ops| && x.Fresh(rows, k) && Stored(Entries(x.ops)[..k + 1]) <= x.cap
    requires more == if k < |rows| then rows[k := MakeEntry(k, x.ops[k])] else rows + [MakeEntry(k, x.ops[k])]
    ensures x.Fresh(more, k + 1)
  {
    hide Stored, MakeEntry;
    EntriesMore(x.ops, k);
  }

  lemma FreshRows(x: Execution, rows: seq<JournalEntry>, r: nat)
    requires x.Fresh(rows, r)
    ensures x.RowsAt(rows, r)
  {
  }

  lemma FreshAtStart(x: Execution)
    ensures x.Fresh(x.rows, 0) && Run(x.ops[..0], x.init) == Some(x.init)
  {
  }

  lemma EntriesMore(ops: seq<Operation>, k: nat)
    requires k < |ops|
    ensures Entries(ops)[..k + 1] == Entries(ops)[..k] + [MakeEntry(k, ops[k])]
    ensures MakeEntry(k, ops[k]).seqNo == k && MakeEntry(k, ops[k]).state == Pending
  {
  }

  /** Journals step k ahead of its write. */
  method RecordNext(
    store: Store, journal: RecoveryJournal, k: nat, entry: JournalEntry, ghost x: Execution, ghost quiet: bool)
    returns (stored: bool)
    requires k < |x.ops| && entry == MakeEntry(k, x.ops[k])
    requires journal.store == store && journal.Holds(x, k) && x.Fresh(store.Rows(x.job), k)
    requires quiet ==> Run(x.ops[..k], x.init) == Some(store.files) && store.records == x.records
    modifies journal, store`states, store`journals
    ensures stored == (Stored(Entries(x.ops)[..k + 1]) <= x.cap)
    ensures store.journals - {x.job} == old(store.journals) - {x.job}
    ensures x.Sound(old(store.Log()), store.Log(), quiet)
    ensures stored ==> journal.Holds(x, k + 1)
    ensures x.Fresh(store.Rows(x.job), if stored then k + 1 else k)
  {
    hide Stored, MakeEntry, Entries, Owned, Run;
    EntriesMore(x.ops, k);
    x.SoundNothing(store.Log(), quiet);
    stored := journal.Record(entry);
    if stored {
      FreshMore(x, old(store.Rows(x.job)), store.Rows(x.job), k);
      if quiet {
        FreshPasses(x, store.Now(), k, k + 1);
      }
    }
  }

  /** Applies a journaled step and answers the digest it left. */
  method Apply(store: Store, op: Operation) returns (digest: Option<Digest>)
    modifies store`files, store`calls, store`states, store`lost, store`writes
    ensures Grown(old(store.lost), store.lost)
    ensures forall i :: |old(store.lost)| <= i < |store.lost| ==>
      OwnContent(op, store.lost[i].path, Sha256(store.lost[i].bytes))
    ensures Grown(old(store.states), store.states) && old(store.calls) <= store.calls
    ensures digest.Some? ==> OwnContent(op, op.path, digest.value)
    ensures store.Quiet() ==>
      && FilesAmong(store.states, |old(store.states)|, store.Now(), old(store.files), store.files)
      && (digest.Some? ==> Step(op, old(store.files)) == Some(store.files))
      && (digest.Some? && WellFormed(op) ==> MakeEntry(0, op).afterHash == digest)
      && (digest.None? && store.files != old(store.files) ==>
            Step(op, old(store.files)) == Some(store.files)
            && store.calls > old(store.calls) && store.faults(store.calls - 1).LateFault?)
      && (digest.None? && store.NoFaults(old(store.calls), store.calls) ==> Step(op, store.files).None?)
      && (Step(op, old(store.files)).Some?
          && store.calls > old(store.calls) && store.faults(store.calls - 1).LateFault? ==>
            Step(op, old(store.files)) == Some(store.files))
    ensures store.calls == old(store.calls) + if Command(op).Some? then 1 else 0
    ensures digest.Some? ==> store.NoFaults(old(store.calls), store.calls)
  {
    var command := Command(op);
    digest := None;
    if command.Some? {
      CommandOwns(op, store.edits(store.calls, store.files));
      var reply := store.Do(command.value);
      if reply.Done? {
        digest := reply.sha256;
      }
    }
  }

  /** The states a journaled step goes through: its row is stored, then it is applied or it is not. */
  lemma StepPasses(x: Execution, states: seq<Durable>, from: nat, s: Durable, before: Files, k: nat)
    requires k < |x.ops| && x.Fresh(s.Rows(x.job), k + 1) && Run(x.ops[..k], x.init) == Some(before)
    requires s.records == x.records
    requires s.files == before || Step(x.ops[k], before) == Some(s.files)
    requires from <= |states|
    requires FilesAmong(states, from, s, before, s.files)
    ensures x.AllPass(states, from, |states|)
  {
    RunPrefix(x.ops, k, x.init);
    forall i | from <= i < |states|
      ensures x.Passes(states[i])
    {
      FreshPasses(x, states[i], if states[i].files == before then k else k + 1, k + 1);
    }
  }

  /** The last call failed after its effect, which was the step behind the first n. */
  ghost predicate TornNow(store: Store, x: Execution, from: nat, n: nat)
    reads store
  {
    x.Torn(n, store.files) && store.calls > from && store.faults(store.calls - 1).LateFault?
  }

  /** The first n steps are applied, or moreover the one behind them, torn. */
  ghost predicate AppliedOrTorn(store: Store, x: Execution, from: nat, n: nat)
    requires n <= |x.ops|
    reads store
  {
    Run(x.ops[..n], x.init) == Some(store.files) || TornNow(store, x, from, n)
  }

  /** If the last call failed after its effect, the step behind the first n was applied if it could be. */
  ghost predicate EffectStays(store: Store, x: Execution, from: nat, n: nat)
    requires n < |x.ops|
    reads store
  {
    store.calls > from && store.faults(store.calls - 1).LateFault? && Run(x.ops[..n + 1], x.init).Some? ==>
      Run(x.ops[..n + 1], x.init) == Some(store.files)
  }

  /** Whether the row of step n fits the cap. */
  ghost predicate RowFits(x: Execution, n: nat)
    requires n < |x.ops|
  {
    Stored(Entries(x.ops)[..n + 1]) <= x.cap
  }

  /** The calls of a forward run that stops behind the first n steps: one for each, and one that failed. */
  ghost function CallsMade(x: Execution, n: nat): nat
    requires n <= |x.ops|
  {
    n + if n < |x.ops| && RowFits(x, n) then 1 else 0
  }

  /** Step n cannot be executed by call `at`: its row is refused, the call fails, or the step does not apply. */
  ghost predicate BlockedAt(store: Store, x: Execution, at: nat, n: nat)
    requires n < |x.ops|
  {
    !RowFits(x, n) || !store.faults(at).NoFault? || Run(x.ops[..n + 1], x.init).None?
  }

  /** The same, with one call for each step before it. */
  ghost predicate Blocked(store: Store, x: Execution, from: nat, n: nat)
    requires n < |x.ops|
  {
    BlockedAt(store, x, from + n, n)
  }

  /** Step n is the first one that is blocked, or none is. */
  ghost predicate BlocksFirst(store: Store, x: Execution, from: nat, n: nat)
    requires n <= |x.ops|
  {
    && (forall i :: 0 <= i < n ==> !Blocked(store, x, from, i))
    && (n < |x.ops| ==> Blocked(store, x, from, n))
  }

  /** How step k ends that is not executed, its call being the `at`-th; r rows are stored then. */
  ghost predicate StepEnds(store: Store, x: Execution, at: nat, k: nat, r: nat)
    requires k < |x.ops|
    reads store
  {
    && BlockedAt(store, x, at, k)
    && AppliedOrTorn(store, x, at, k) && EffectStays(store, x, at, k)
    && (r == k ==> Run(x.ops[..k], x.init) == Some(store.files))
    && r == k + (if RowFits(x, k) then 1 else 0)
    && (at <= store.calls && store.NoFaults(at, store.calls) ==> !x.Succeeds())
    && store.calls == at + if RowFits(x, k) then 1 else 0
  }

  /** How a forward run ends behind n executed steps. */
  ghost predicate ForwardEnds(store: Store, x: Execution, from: nat, n: nat, r: nat)
    requires n <= |x.ops|
    reads store
  {
    && BlocksFirst(store, x, from, n)
    && AppliedOrTorn(store, x, from, n) && (n < |x.ops| ==> EffectStays(store, x, from, n))
    && (r == n ==> Run(x.ops[..n], x.init) == Some(store.files)) && r == CallsMade(x, n)
    && (n < |x.ops| && store.NoFaults(from, store.calls) ==> !x.Succeeds())
    && store.calls == from + CallsMade(x, n)
  }

  lemma StepEndsRun(store: Store, x: Execution, from: nat, n: nat, r: nat)
    requires n < |x.ops| && StepEnds(store, x, from + n, n, r) && store.NoFaults(from, from + n)
    requires forall i :: 0 <= i < n ==> !Blocked(store, x, from, i)
    ensures ForwardEnds(store, x, from, n, r)
  {
    hide Run, Stored, Entries;
  }

  lemma LastStepEndsRun(store: Store, x: Execution, from: nat)
    requires forall i :: 0 <= i < |x.ops| ==> !Blocked(store, x, from, i)
    requires Run(x.ops[..|x.ops|], x.init) == Some(store.files) && store.calls == from + |x.ops|
    ensures ForwardEnds(store, x, from, |x.ops|, |x.ops|)
  {
    hide Run, Stored, Entries;
  }

  /** Nobody else writes, and the first n steps are applied. */
  ghost predicate Ready(store: Store, x: Execution, n: nat)
    requires n <= |x.ops|
    reads store
  {
    && store.Quiet() && AllWellFormed(x.ops) && store.records == x.records
    && Run(x.ops[..n], x.init) == Some(store.files)
  }

  /** Applies step k, whose row is stored. */
  method ApplyJournaled(store: Store, k: nat, op: Operation, ghost x: Execution, ghost quiet: bool)
    returns (digest: Option<Digest>)
    requires k < |x.ops| && op == x.ops[k] && x.Fresh(store.Rows(x.job), k + 1)
    requires quiet ==> Ready(store, x, k)
    modifies store`files, store`calls, store`states, store`lost, store`writes
    ensures x.Sound(old(store.Log()), store.Log(), quiet)
    ensures digest.Some? ==> OwnContent(op, op.path, digest.value)
    ensures digest.Some? && quiet ==>
      MakeEntry(0, op).afterHash == digest && Run(x.ops[..k + 1], x.init) == Some(store.files)
    ensures digest.None? && quiet ==> AppliedOrTorn(store, x, old(store.calls), k)
    ensures digest.None? && quiet && store.NoFaults(old(store.calls), store.calls) ==> Run(x.ops[..k + 1], x.init).None?
    ensures quiet ==> store.calls == old(store.calls) + 1 && EffectStays(store, x, old(store.calls), k)
    ensures digest.Some? ==> store.NoFaults(old(store.calls), store.calls)
  {
    hide Stored, Entries, MakeEntry, OwnContent, Step, Run;
    RunPrefix(x.ops, k, x.init);
    digest := Apply(store, op);
    OneStepLost(x, |old(store.lost)|, store.lost, k);
    if quiet {
      StepPasses(x, store.states, |old(store.states)|, store.Now(), old(store.files), k);
    }
  }

  /** One round of the forward loop: the row, then the write; None when either fails. */
  method ForwardStep(
    store: Store, journal: RecoveryJournal, k: nat, op: Operation, ghost x: Execution, ghost quiet: bool)
    returns (digest: Option<Digest>, ghost r: nat)
    requires k < |x.ops| && op == x.ops[k]
    requires journal.store == store && journal.Holds(x, k) && x.Fresh(store.Rows(x.job), k)
    requires quiet ==> Ready(store, x, k)
    modifies journal, store`files, store`calls, store`states, store`lost, store`writes, store`journals
    ensures x.Sound(old(store.Log()), store.Log(), quiet)
    ensures store.journals - {x.job} == old(store.journals) - {x.job}
    ensures k <= r <= k + 1 && x.Fresh(store.Rows(x.job), r)
    ensures digest.Some? ==> r == k + 1 && journal.Holds(x, k + 1) && OwnContent(op, op.path, digest.value)
    ensures digest.Some? && quiet ==>
      MakeEntry(0, op).afterHash == digest && Run(x.ops[..k + 1], x.init) == Some(store.files)
    ensures digest.None? && quiet ==> StepEnds(store, x, old(store.calls), k, r)
    ensures digest.Some? && quiet ==>
      store.calls == old(store.calls) + 1 && !BlockedAt(store, x, old(store.calls), k)
    ensures digest.Some? ==> store.NoFaults(old(store.calls), store.calls)
  {
    hide WellFormed, MakeEntry, OwnContent, Entries, Stored, Owned, OnlyOwnLost, Execution.AllPass, StepEnds, Run;
    digest, r := None, k;
    var stored := RecordNext(store, journal, k, MakeEntry(k, op), x, quiet);
    if stored {
      r := k + 1;
      label L:
      digest := ApplyJournaled(store, k, op, x, quiet);
      x.SoundTransitive(old(store.Log()), old@L(store.Log()), store.Log(), quiet);
    }
    if quiet && digest.None? {
      FailedEnds(store, x, old(store.calls), k);
    }
  }

  lemma FailedEnds(store: Store, x: Execution, at: nat, k: nat)
    requires k < |x.ops| && AppliedOrTorn(store, x, at, k) && EffectStays(store, x, at, k)
    requires store.calls == at + if RowFits(x, k) then 1 else 0
    requires RowFits(x, k) && store.NoFaults(at, store.calls) ==> Run(x.ops[..k + 1], x.init).None?
    ensures StepEnds(store, x, at, k, if RowFits(x, k) then k + 1 else k)
  {
    hide Run, Stored, Entries;
    if store.NoFaults(at, store.calls) {
      StopsShort(x, k);
    }
  }

  lemma ExecutedMore(executed: seq<(Operation, Digest)>, ops: seq<Operation>, quiet: bool, digest: Digest)
    requires ExecutedAre(executed, ops, quiet) && |executed| < |ops|
    requires OwnContent(ops[|executed|], ops[|executed|].path, digest)
    requires quiet ==> MakeEntry(0, ops[|executed|]).afterHash == Some(digest)
    ensures ExecutedAre(executed + [(ops[|executed|], digest)], ops, quiet)
  {
  }

  /** Applies steps until one fails; answers the executed ones with the digests they left. */
  method Forward(store: Store, journal: RecoveryJournal, ops: seq<Operation>, ghost x: Execution, ghost quiet: bool)
    returns (executed: seq<(Operation, Digest)>, ghost r: nat)
    requires ops == x.ops && x.init == store.files && x.rows == store.Rows(x.job) && x.records == store.records
    requires journal.store == store && journal.Holds(x, 0)
    requires quiet ==> store.Quiet() && AllWellFormed(ops)
    modifies journal, store`files, store`calls, store`states, store`lost, store`writes, store`journals
    ensures x.Sound(old(store.Log()), store.Log(), quiet)
    ensures store.journals - {x.job} == old(store.journals) - {x.job}
    ensures ExecutedAre(executed, ops, quiet) && |executed| <= r <= |ops| && x.Fresh(store.Rows(x.job), r)
    ensures quiet ==> ForwardEnds(store, x, old(store.calls), |executed|, r)
    ensures |executed| == |ops| ==> store.NoFaults(old(store.calls), store.calls)
  {
    hide OwnContent, WellFormed, RowFits, Stored, MakeEntry, Owned, BlockedAt, StepEnds, ForwardEnds,
      OnlyOwnLost, Execution.AllPass, Execution.Fresh, Entries, Run;
    FreshAtStart(x);
    x.SoundNothing(store.Log(), quiet);
    executed, r := [], 0;
    while |executed| < |ops|
      invariant ExecutedAre(executed, ops, quiet) && r == |executed|
      invariant journal.Holds(x, |executed|) && x.Fresh(store.Rows(x.job), |executed|)
      invariant x.Sound(old(store.Log()), store.Log(), quiet)
      invariant store.journals - {x.job} == old(store.journals) - {x.job}
      invariant quiet ==> Run(ops[..|executed|], x.init) == Some(store.files)
      invariant quiet ==> store.calls == old(store.calls) + |executed|
      invariant quiet ==> forall i :: 0 <= i < |executed| ==> !Blocked(store, x, old(store.calls), i)
      invariant store.NoFaults(old(store.calls), store.calls)
    {
      label L:
      var digest;
      digest, r := ForwardStep(store, journal, |executed|, ops[|executed|], x, quiet);
      x.SoundTransitive(old(store.Log()), old@L(store.Log()), store.Log(), quiet);
      if digest.None? {
        if quiet {
          StepEndsRun(store, x, old(store.calls), |executed|, r);
        }
        return;
      }
      ExecutedMore(executed, ops, quiet, digest.value);
      executed := executed + [(ops[|executed|], digest.value)];
    }
    if quiet {
      LastStepEndsRun(store, x, old(store.calls));
    }
  }

  // ----- ending -----

  lemma MarkedRows(x: Execution, rows: seq<JournalEntry>, r: nat, state: RowState)
    requires x.RowsAt(rows, r)
    ensures x.RowsAt(Marked(rows, state), r)
  {
  }

  lemma MarkedStands(x: Execution, s: Durable, s': Durable, m: nat, r: nat, state: RowState)
    requires x.StandsAt(s, m, r) && s'.records == s.records
    requires s'.files == s.files && s'.Rows(x.job) == Marked(s.Rows(x.job), state)
    ensures x.StandsAt(s', m, r) && x.Stands(s')
    ensures state == RolledBack ==> m == 0 ==> x.Passes(s')
    ensures state != RolledBack ==> x.Passes(s')
    ensures m == 0 ==> s.files == x.init
    ensures m == |x.ops| ==> Run(x.ops, x.init) == Some(s.files) && x.Succeeds()
  {
    assert x.ops[..|x.ops|] == x.ops && x.ops[..0] == [];
    assert m == |x.ops| ==> Entries(x.ops)[..r] == Entries(x.ops);
    assert x.StandsAt(s', m, r);
    if state != RolledBack || m == 0 {
      assert x.PassesAt(s', m, r);
    }
  }

  /** Marks this execution's rows, with the first m steps applied. */
  method Mark(store: Store, job: JobId, state: RowState, ghost x: Execution, ghost m: nat, ghost r: nat)
    requires job == x.job && x.RowsAt(store.Rows(job), r)
    modifies store`journals, store`states
    ensures store.states == old(store.states) + [store.Now()]
    ensures store.journals - {job} == old(store.journals) - {job}
    ensures r == |x.ops| && state == Applied ==> x.Finished(store.Rows(job))
    ensures store.Rows(job) == Marked(old(store.Rows(job)), state)
    ensures x.StandsAt(old(store.Now()), m, r) ==>
      && x.Stands(store.Now())
      && (state != RolledBack || m == 0 ==> x.Passes(store.Now()))
      && (m == 0 ==> store.files == x.init)
      && (m == |x.ops| ==> Run(x.ops, x.init) == Some(store.files) && x.Succeeds())
  {
    ghost var s := store.Now();
    MarkedRows(x, s.Rows(job), r, state);
    store.SetJournalState(job, state);
    if x.StandsAt(s, m, r) {
      MarkedStands(x, s, store.Now(), m, r, state);
    }
  }

  /** A rollback whose first call fails before its effect stops right there. */
  predicate StopsEarly(fails: bool, result: RecoveryResult, before: Files, after: Files) {
    fails ==> result.status == RollbackFailed && after == before
  }

  ghost predicate FailsEarly(store: Store, from: nat, rollsBack: bool) {
    store.Quiet() && rollsBack && store.faults(from).EarlyFault?
  }

  /** Decides how a run ends, rolling back when some steps ran and others did not. */
  method Settle(
    store: Store, executed: seq<(Operation, Digest)>, ops: seq<Operation>, ghost x: Execution, ghost r: nat,
    ghost mode: Mode)
    returns (result: RecoveryResult, state: RowState, ghost m: nat)
    requires ops == x.ops && ExecutedAre(executed, ops, !mode.Disturbed?)
    requires |executed| <= r && x.Fresh(store.Rows(x.job), r)
    requires Undisturbed(store, x, mode) && RollsBack(x, store.Now(), |executed|, r, mode)
    modifies store`files, store`calls, store`states, store`lost, store`writes
    ensures x.Sound(old(store.Log()), store.Log(), mode.Clean?)
    ensures |executed| == |ops| ==> store.calls == old(store.calls)
    ensures if |executed| == |ops| then result.status == Committed && state == Applied && m == |ops|
            else if executed == [] then result.status == Conflict && state == Pending && m == 0
            else (result.status == RolledBackJob || result.status == RollbackFailed) && state == RolledBack
    ensures result.status == RolledBackJob ==> m == 0 && result.restored == Reported(ops[..|executed|])
    ensures mode.Clean? ==> x.StandsAt(store.Now(), m, r)
    ensures mode.Clean? && result.status == RollbackFailed ==> !store.NoFaults(old(store.calls), store.calls)
    ensures mode.Dirty? && (result.status == RolledBackJob || result.status == Conflict) ==> store.files != x.init
    ensures executed == [] ==> store.files == old(store.files)
    ensures result.status == RolledBackJob ==> store.NoFaults(old(store.calls), store.calls)
    ensures StopsEarly(
      FailsEarly(store, old(store.calls), 0 < |executed| < |ops|), result, old(store.files), store.files)
    ensures mode.Dirty? && Independent(x) ==>
      x.AllScattered(store.states, |old(store.states)|, |store.states|) && x.ScatteredAt(store.Now(), r)
  {
    hide OwnContent, WellFormed, Independent, Execution.ScatteredAt;
    if mode.Dirty? && Independent(x) {
      DirtyScattered(x, store.Now(), |executed|, r);
    }
    assert x.ops[..0] == [];
    m := |executed|;
    if |executed| == |ops| {
      result, state := RecoveryResult(Committed, [], []), Applied;
    } else if executed == [] {
      result, state := RecoveryResult(Conflict, [], []), Pending;
    } else {
      result := Rollback(store, executed, x, r, mode);
      state := RolledBack;
      m := 0;
      if mode.Clean? && result.status == RollbackFailed {
        m :| x.PassesAt(store.Now(), m, r);
      }
    }
  }

  /**
    What an execution went through: how many steps were executed, where its rollback began, whether the call
    before that failed after its effect, and up to where the logged states are journaled prefixes of the run.
  */
  datatype Trace = Trace(x: Execution, done: nat, rollbackFrom: nat, torn: bool, to: nat) {
    /** The call behind the executed steps failed after an effect that changed the vault. */
    ghost predicate FailedAfterEffect(store: Store, from: nat) {
      && rollbackFrom > from && store.faults(rollbackFrom - 1).LateFault?
      && done < |x.ops| && Run(x.ops[..done + 1], x.init).Some?
      && Run(x.ops[..done + 1], x.init) != Run(x.ops[..done], x.init)
    }
  }

  ghost function ModeOf(x: Execution, files: Files, n: nat, quiet: bool): Mode {
    if !quiet then Disturbed else if x.Torn(n, files) then Dirty else Clean
  }

  lemma TornSpreads(x: Execution, s: Durable, n: nat, r: nat)
    requires Independent(x) && x.Torn(n, s.files) && n < r && x.Fresh(s.Rows(x.job), r) && s.records == x.records
    ensures Spread(x, s, n, r)
  {
    FreshPasses(x, s, n + 1, r);
    StandsScattered(x, s, n + 1, r);
    PrefixOfDisjoint(x, n + 1);
  }

  /** What a rollback starts from. */
  lemma ModeRollsBack(store: Store, x: Execution, from: nat, n: nat, r: nat, quiet: bool)
    requires n <= r <= |x.ops| && x.Fresh(store.Rows(x.job), r) && store.records == x.records
    requires quiet ==> AppliedOrTorn(store, x, from, n)
    requires quiet && r == n ==> Run(x.ops[..n], x.init) == Some(store.files)
    ensures RollsBack(x, store.Now(), n, r, ModeOf(x, store.files, n, quiet))
    ensures ModeOf(x, store.files, n, quiet).Dirty? ==> store.calls > from && store.faults(store.calls - 1).LateFault?
    ensures quiet && !ModeOf(x, store.files, n, quiet).Dirty? ==> Run(x.ops[..n], x.init) == Some(store.files)
    ensures ModeOf(x, store.files, n, quiet).Dirty? ==> x.Torn(n, store.files)
  {
    hide Stored, MakeEntry, WellFormed, Entries, Independent, Spread;
    if quiet && !x.Torn(n, store.files) {
      FreshPasses(x, store.Now(), n, r);
    } else if quiet && Independent(x) {
      TornSpreads(x, store.Now(), n, r);
    }
  }

  lemma SoundGrows(x: Execution, was: Log, log: Log, quiet: bool)
    requires x.Sound(was, log, quiet)
    ensures |was.states| <= |log.states| && was.calls <= log.calls
  {
  }

  lemma OneMoreScattered(x: Execution, states: seq<Durable>, from: nat, last: Durable)
    requires from <= |states| && x.AllScattered(states, from, |states|) && x.Scattered(last)
    ensures x.AllScattered(states + [last], from, |states| + 1)
  {
  }

  lemma AppendPasses(x: Execution, was: Log, log: Log, now: Log, last: Durable, quiet: bool)
    requires x.Sound(was, log, quiet) && now.states == log.states + [last]
    requires now.lost == log.lost && now.calls == log.calls
    ensures x.Sound(was, now, false) && |was.states| < |now.states|
    ensures quiet ==> x.AllPass(now.states, |was.states|, |log.states|)
    ensures quiet && x.Passes(last) ==> x.AllPass(now.states, |was.states|, |now.states|)
  {
    if quiet {
      assert forall i :: |was.states| <= i < |log.states| ==> x.Passes(log.states[i]);
    }
  }

  /** The log of a settled run with the marks. */
  lemma MarkLogged(
    x: Execution, was: Log, log: Log, now: Log, settled: Durable, last: Durable, r: nat, state: RowState, mode: Mode)
    requires x.Sound(was, log, mode.Clean?) && now == LogOf(log.states + [last], log.lost, log.calls)
    requires last.records == settled.records && last.files == settled.files
    requires last.Rows(x.job) == Marked(settled.Rows(x.job), state)
    requires mode.Dirty? && Independent(x) ==>
      x.AllScattered(log.states, |was.states|, |log.states|) && x.ScatteredAt(settled, r)
    ensures x.Sound(was, now, false) && |was.states| < |now.states|
    ensures mode.Clean? ==> x.AllPass(now.states, |was.states|, |log.states|)
    ensures mode.Clean? && x.Passes(last) ==> x.AllPass(now.states, |was.states|, |now.states|)
    ensures mode.Dirty? && Independent(x) ==> x.AllScattered(now.states, |was.states|, |now.states|)
  {
    hide Independent, Execution.ScatteredAt, Execution.Scattered, Execution.Passes, OnlyOwnLost;
    AppendPasses(x, was, log, now, last, mode.Clean?);
    if mode.Dirty? && Independent(x) {
      MarkedScattered(x, settled, last, r, state);
      OneMoreScattered(x, log.states, |was.states|, last);
    }
  }

  /** A run up to `mid` and an ending that passes up to state `to`. */
  lemma EndingJoins(x: Execution, was: Log, mid: Log, now: Log, to: nat, quiet: bool)
    requires x.Sound(was, mid, quiet) && x.Sound(mid, now, false) && |mid.states| <= to <= |now.states|
    requires quiet ==> x.AllPass(now.states, |mid.states|, to)
    ensures x.Sound(was, now, false)
    ensures quiet ==> x.AllPass(now.states, |was.states|, to)
  {
    hide Owned, Execution.Passes;
    x.SoundTransitive(was, mid, now, false);
    if quiet {
      assert forall i :: |was.states| <= i < |mid.states| ==> now.states[i] == mid.states[i];
    }
  }

  /** The states of a whole run: prefixes up to `to`; behind that a rollback of other files, or the last mark. */
  lemma EndingScattered(x: Execution, states: seq<Durable>, from: nat, mid: nat, to: nat, mode: Mode)
    requires Independent(x) && from <= mid <= to <= |states| && x.AllPass(states, from, to)
    requires mode.Dirty? ==> to == mid && x.AllScattered(states, mid, |states|)
    requires mode.Clean? ==> |states| - 1 <= to && states != [] && x.Stands(states[|states| - 1])
    requires !mode.Disturbed?
    ensures x.AllScattered(states, from, |states|)
  {
    hide Independent, Execution.StandsAt, Execution.Scattered, Execution.Passes;
    PassingIsScattered(x, states, from, to);
    if mode.Clean? {
      var m: nat, r: nat :| x.StandsAt(states[|states| - 1], m, r);
      StandsScattered(x, states[|states| - 1], m, r);
    }
  }

  lemma IndependentIsWellFormed(x: Execution)
    ensures Independent(x) ==> AllWellFormed(x.ops)
  {
  }

  /** A fresh journal, and the steps until one fails. */
  method Start(store: Store, job: JobId, ops: seq<Operation>, cap: nat, ghost x: Execution, ghost quiet: bool)
    returns (executed: seq<(Operation, Digest)>, ghost r: nat)
    requires x == Execution(job, ops, store.files, store.Rows(job), store.records, cap)
    requires quiet ==> store.Quiet() && AllWellFormed(ops)
    modifies store`files, store`calls, store`states, store`lost, store`writes, store`journals
    ensures x.Sound(old(store.Log()), store.Log(), quiet)
    ensures store.journals - {job} == old(store.journals) - {job}
    ensures ExecutedAre(executed, ops, quiet) && |executed| <= r <= |ops| && x.Fresh(store.Rows(job), r)
    ensures quiet ==> ForwardEnds(store, x, old(store.calls), |executed|, r)
    ensures |executed| == |ops| ==> store.NoFaults(old(store.calls), store.calls)
  {
    var journal := new RecoveryJournal(store, job, cap);
    executed, r := Forward(store, journal, ops, x, quiet);
  }

  predicate AllIn(rows: seq<JournalEntry>, state: RowState) {
    forall i :: 0 <= i < |rows| ==> rows[i].state == state
  }

  /** The mark that all rows of the job get at the end of a run. */
  function EndState(status: JobStatus): RowState {
    match status
    case Committed => Applied
    case Conflict => Pending
    case _ => RolledBack
  }

  lemma MarkedAllIn(rows: seq<JournalEntry>, state: RowState)
    ensures AllIn(Marked(rows, state), state)
  {
  }

  /** How a run ends behind n executed steps, from the files it stopped with and the call its rollback starts at. */
  ghost predicate Concludes(
    store: Store, x: Execution, n: nat, mode: Mode, from: nat, files: Files, result: RecoveryResult)
    requires n <= |x.ops|
    reads store
  {
    && store.states != [] && store.states[|store.states| - 1] == store.Now() && from <= store.calls
    && (if n == |x.ops| then result.status == Committed && store.calls == from && x.Finished(store.Rows(x.job))
        else if n == 0 then result.status == Conflict && store.files == files
        else result.status == RolledBackJob || result.status == RollbackFailed)
    && (result.status == RolledBackJob ==> store.NoFaults(from, store.calls))
    && StopsEarly(FailsEarly(store, from, 0 < n < |x.ops|), result, files, store.files)
    && AllIn(store.Rows(x.job), EndState(result.status))
    && (mode.Dirty? && (result.status == RolledBackJob || result.status == Conflict) ==> store.files != x.init)
    && (mode.Clean? ==>
          && x.Stands(store.Now())
          && (result.status == Committed ==> Run(x.ops, x.init) == Some(store.files) && x.Succeeds())
          && (result.status == RolledBackJob || result.status == Conflict ==> store.files == x.init)
          && (result.status == RollbackFailed ==> !store.NoFaults(from, store.calls)))
  }

  /** What the marks leave is the end of the run, with the first m steps applied. */
  lemma MarksConclude(
    store: Store, x: Execution, n: nat, m: nat, mode: Mode, from: nat, files: Files, result: RecoveryResult,
    state: RowState)
    requires n <= |x.ops| && from <= store.calls
    requires store.states != [] && store.states[|store.states| - 1] == store.Now()
    requires if n == |x.ops| then result.status == Committed && state == Applied && m == n
             else if n == 0 then result.status == Conflict && state == Pending && m == 0
             else (result.status == RolledBackJob || result.status == RollbackFailed) && state == RolledBack
    requires n == |x.ops| ==> store.calls == from && x.Finished(store.Rows(x.job))
    requires n == 0 ==> store.files == files
    requires result.status == RolledBackJob ==> m == 0 && store.NoFaults(from, store.calls)
    requires StopsEarly(FailsEarly(store, from, 0 < n < |x.ops|), result, files, store.files)
    requires AllIn(store.Rows(x.job), state)
    requires mode.Dirty? && (result.status == RolledBackJob || result.status == Conflict) ==> store.files != x.init
    requires mode.Clean? ==>
      && x.Stands(store.Now())
      && (m == 0 ==> store.files == x.init)
      && (m == |x.ops| ==> Run(x.ops, x.init) == Some(store.files) && x.Succeeds())
      && (result.status == RollbackFailed ==> !store.NoFaults(from, store.calls))
    ensures Concludes(store, x, n, mode, from, files, result)
  {
    hide Execution.Stands, Execution.Finished, Execution.Succeeds, StopsEarly, FailsEarly, AllIn, Run;
  }

  /** The end of a run and the final marks. */
  method Finish(
    store: Store, job: JobId, executed: seq<(Operation, Digest)>, ops: seq<Operation>, ghost x: Execution,
    ghost r: nat, ghost mode: Mode)
    returns (result: RecoveryResult)
    requires job == x.job && ops == x.ops && ExecutedAre(executed, ops, !mode.Disturbed?)
    requires |executed| <= r <= |ops| && x.Fresh(store.Rows(job), r)
    requires Undisturbed(store, x, mode) && RollsBack(x, store.Now(), |executed|, r, mode)
    modifies store`files, store`calls, store`states, store`lost, store`writes, store`journals
    ensures x.Sound(old(store.Log()), store.Log(), false) && |old(store.states)| < |store.states|
    ensures store.journals - {job} == old(store.journals) - {job} && x.RowsAt(store.Rows(job), r)
    ensures Concludes(store, x, |executed|, mode, old(store.calls), old(store.files), result)
    ensures mode.Dirty? && Independent(x) ==> x.AllScattered(store.states, |old(store.states)|, |store.states|)
    ensures mode.Clean? ==>
      x.AllPass(store.states, |old(store.states)|, |store.states| - if result.status == RollbackFailed then 1 else 0)
  {
    hide OwnContent, WellFormed, Stored, OnlyOwnLost, Independent, Execution.ScatteredAt, Execution.Scattered,
      RollsBack, ExecutedAre, Run, Execution.Passes, Execution.StandsAt, Execution.RowsAt, Entries, AllIn,
      StopsEarly, FailsEarly, Execution.Sound, Execution.AllPass, Execution.AllScattered, Concludes,
      Execution.Stands, Execution.Finished, Execution.Succeeds, Execution.Fresh, Reported, Undisturbed;
    FreshRows(x, store.Rows(job), r);
    var state;
    ghost var m;
    result, state, m := Settle(store, executed, ops, x, r, mode);
    ghost var log, settled := store.Log(), store.Now();
    SoundGrows(x, old(store.Log()), log, mode.Clean?);
    Mark(store, job, state, x, m, r);
    MarkedRows(x, settled.Rows(job), r, state);
    MarkedAllIn(settled.Rows(job), state);
    MarksConclude(store, x, |executed|, m, mode, old(store.calls), old(store.files), result, state);
    MarkLogged(x, old(store.Log()), log, store.Log(), settled, store.Now(), r, state, mode);
  }

  /** The end of a run whose log starts with `was`: up to state `to` the states are journaled prefixes. */
  method Conclude(
    store: Store, job: JobId, executed: seq<(Operation, Digest)>, ops: seq<Operation>, ghost x: Execution,
    ghost r: nat, ghost mode: Mode, ghost was: Log)
    returns (result: RecoveryResult, ghost to: nat)
    requires job == x.job && ops == x.ops && ExecutedAre(executed, ops, !mode.Disturbed?)
    requires |executed| <= r <= |ops| && x.Fresh(store.Rows(job), r)
    requires Undisturbed(store, x, mode) && RollsBack(x, store.Now(), |executed|, r, mode)
    requires x.Sound(was, store.Log(), !mode.Disturbed?)
    modifies store`files, store`calls, store`states, store`lost, store`writes, store`journals
    ensures x.Sound(was, store.Log(), false) && |was.states| <= to <= |store.states|
    ensures store.journals - {job} == old(store.journals) - {job} && x.RowsAt(store.Rows(job), r)
    ensures Concludes(store, x, |executed|, mode, old(store.calls), old(store.files), result)
    ensures !mode.Disturbed? ==> x.AllPass(store.states, |was.states|, to)
    ensures !mode.Disturbed? && Independent(x) ==> x.AllScattered(store.states, |was.states|, |store.states|)
    ensures mode.Clean? ==>
      to == |store.states| - (if result.status == RollbackFailed then 1 else 0) && |was.states| < |store.states|
  {
    hide ExecutedAre, RollsBack, Independent, Execution.Fresh, Execution.Scattered, Execution.Passes, OnlyOwnLost,
      Execution.Finished, Execution.RowsAt, Run, StopsEarly, FailsEarly, AllIn, EndState;
    ghost var mid := store.Log();
    result := Finish(store, job, executed, ops, x, r, mode);
    to := if mode.Dirty? then |mid.states| else |store.states| - (if result.status == RollbackFailed then 1 else 0);
    EndingJoins(x, was, mid, store.Log(), to, !mode.Disturbed?);
    if !mode.Disturbed? && Independent(x) {
      EndingScattered(x, store.states, |was.states|, |mid.states|, to, mode);
    }
  }

  /**
    Runs the steps of one job. Without other writers: COMMITTED means the fold of all steps, CONFLICT and
    ROLLED_BACK mean the initial files exactly if no forward call failed after its effect, ROLLBACK_FAILED
    takes such a call or a failing call after the rollback began. Up to `trace.to` every durable state on the way
    is a journaled prefix of the run, and of independent steps each is applied or not in every state. With other
    writers, only the steps' own content is ever replaced or removed.
  */
  method Execute(store: Store, job: JobId, ops: seq<Operation>, cap: nat)
    returns (result: RecoveryResult, ghost trace: Trace)
    modifies store`files, store`calls, store`states, store`lost, store`writes, store`journals
    ensures trace.x == Execution(job, ops, old(store.files), old(store.Rows(job)), store.records, cap)
    ensures old(store.calls) <= trace.rollbackFrom <= store.calls
    ensures store.journals - {job} == old(store.journals) - {job}
    ensures |store.states| > 0 && store.states[|store.states| - 1] == store.Now()
    ensures result.status.Committed? || result.status.Conflict? || result.status.RolledBackJob?
      || result.status.RollbackFailed?
    ensures trace.x.Sound(old(store.Log()), store.Log(), false)
    ensures trace.done <= |ops|
    ensures result.status == Committed <==> trace.done == |ops|
    ensures result.status == Conflict <==> trace.done == 0 < |ops|
    ensures result.status == Committed ==> store.NoFaults(old(store.calls), store.calls)
    ensures result.status == RolledBackJob ==> store.NoFaults(trace.rollbackFrom, store.calls)
    ensures store.Quiet() && AllWellFormed(ops) ==>
      && trace.rollbackFrom == old(store.calls) + CallsMade(trace.x, trace.done)
      && BlocksFirst(store, trace.x, old(store.calls), trace.done)
      && trace.x.RowsAt(store.Rows(job), CallsMade(trace.x, trace.done))
      && (trace.torn <==> trace.FailedAfterEffect(store, old(store.calls)))
    ensures store.Quiet() && AllWellFormed(ops) ==>
      && (result.status == Committed ==> Run(ops, old(store.files)) == Some(store.files))
      && (result.status == Conflict || result.status == RolledBackJob ==>
            (store.files == old(store.files) <==> !trace.torn))
      && (result.status == Conflict && trace.torn ==> Run(ops[..1], old(store.files)) == Some(store.files))
      && (result.status == RollbackFailed ==> trace.torn || !store.NoFaults(trace.rollbackFrom, store.calls))
      && (0 < trace.done < |ops| && !trace.torn && store.faults(trace.rollbackFrom).EarlyFault? ==>
            result.status == RollbackFailed && Run(ops[..trace.done], old(store.files)) == Some(store.files))
      && (store.NoFaults(old(store.calls), store.calls) ==> (result.status == Committed <==> trace.x.Succeeds()))
      && |old(store.states)| <= trace.to <= |store.states|
      && trace.x.AllPass(store.states, |old(store.states)|, trace.to)
      && (!trace.torn ==>
            && |old(store.states)| < |store.states|
            && trace.to == |store.states| - (if result.status == RollbackFailed then 1 else 0)
            && trace.x.Stands(store.Now()))
    ensures result.status == Committed ==> trace.x.Finished(store.Rows(job))
    ensures AllIn(store.Rows(job), EndState(result.status))
    ensures store.Quiet() && Independent(trace.x) ==>
      trace.x.AllScattered(store.states, |old(store.states)|, |store.states|)
  {
    hide OwnContent, WellFormed, Stored, OnlyOwnLost, RollsBack, ExecutedAre, AppliedOrTorn, Owned, Run, Entries,
      Execution.Passes, Execution.Stands, Execution.Fresh, Execution.Scattered, Execution.AllScattered,
      Execution.Finished, Execution.RowsAt, Independent, BlocksFirst, RowFits, AllIn, EndState;
    ghost var x := Execution(job, ops, store.files, store.Rows(job), store.records, cap);
    ghost var quiet := store.Quiet() && AllWellFormed(ops);
    IndependentIsWellFormed(x);
    var executed;
    ghost var r, to;
    executed, r := Start(store, job, ops, cap, x, quiet);
    ghost var rollbackFrom := store.calls;
    ghost var mode := ModeOf(x, store.files, |executed|, quiet);
    ModeRollsBack(store, x, old(store.calls), |executed|, r, quiet);
    result, to := Conclude(store, job, executed, ops, x, r, mode, old(store.Log()));
    trace := Trace(x, |executed|, rollbackFrom, mode.Dirty?, to);
  }

  const ONE_NOTE := Operation(Create, "note.md", false, None, None, Some([7]), None, "", "")

  /** A create whose call fails after its effect: the job reports a conflict before any write, and the note is there. */
  method TornStepStays() returns (result: RecoveryResult, files: Files)
    ensures result.status == Conflict && files != map[]
  {
    var ops := [ONE_NOTE];
    var store := new Store(Durable(map[], map[], map[]), (n, f) => f, n => if n == 0 then LateFault else NoFault);
    ghost var trace;
    hide Run, Stored, Entries, RowFits, WellFormed;
    ghost var x := Execution("job", ops, map[], [], map[], 0);
    OneNoteRuns(x);
    result, trace := Execute(store, "job", ops, 0);
    files := store.files;
    assert store.faults(0).LateFault?;
    assert trace.x == x && trace.done == 0 && trace.rollbackFrom == 1;
    assert trace.FailedAfterEffect(store, 0);
  }

  lemma OneNoteRuns(x: Execution)
    requires x == Execution("job", [ONE_NOTE], map[], [], x.records, 0)
    ensures AllWellFormed(x.ops) && RowFits(x, 0)
    ensures Run(x.ops[..0], x.init) == Some(map[]) && Run(x.ops[..1], x.init) == Some(map["note.md" := [7]])
    ensures Run(x.ops[..0], x.init) != Run(x.ops[..1], x.init)
  {
    assert "note.md" !in x.init;
    assert x.ops[..1] == [ONE_NOTE] && [ONE_NOTE][..0] == [] && x.ops[..0] == [];
    assert Entries(x.ops)[..1] == [MakeEntry(0, ONE_NOTE)] && [MakeEntry(0, ONE_NOTE)][..0] == [];
  }
}
