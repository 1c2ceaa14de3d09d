/** The service that runs one job, with its cached record and its durable history. */
module JobService {
  import opened Base
  import opened Vault
  import opened Transactions
  import opened HistoryStore
  import opened Executions
  import opened Executor
  import opened Recovery
  import opened CrashRecovery
  import UndoJob
  import opened Policy
  import opened JobProgress
  import opened JobStanding
  import opened AgentJobs
  import opened AcceptReplies

  datatype JobCall = Accept(confirm: bool, ids: seq<ActionId>) | Reject | UndoCall(confirm: bool)

  /** The chosen actions, preflighted, checked against the preview and put to the policy. */
  method CheckSelection(
    store: Store, chosen: seq<Action>, hashes: map<Path, Option<Digest>>, rules: OtherRules, maxActions: nat,
    ghost actions: seq<Action>, ghost init: Files)
    returns (reply: JobReply, ops: seq<Operation>)
    requires store.Quiet() && forall i :: 0 <= i < |chosen| ==> chosen[i].file != ""
    requires PlannedSet(actions, init) && Recorded(actions, init, hashes) && PickedFrom(chosen, actions)
    modifies store`files, store`calls, store`states
    ensures store.files == old(store.files) && Repeats(old(store.states), store.states, store.Now())
    ensures old(store.calls) <= store.calls
    ensures forall i :: 0 <= i < |chosen| ==> StepOf(chosen[i], init).Some?
    ensures reply == Ok || reply == InvalidAction || reply == JobStateConflict
    ensures reply == Ok ==> ops == StepsOf(chosen, init) && ops != []
    ensures reply == Ok && store.NoFaults(old(store.calls), store.calls) ==> AllPlanned(ops, store.files)
    ensures store.NoFaults(old(store.calls), store.calls) && PairwiseDisjoint(chosen) ==>
      reply == Checked(chosen, init, store.files, rules, maxActions)
  {
    hide Checked, IsStale, Unsupported, Forbidden, FactsOf, StateDenies, Recorded, Fresh, PairwiseDisjoint, PlannedSet,
      Faithful, PreflightOf, PlannedFor;
    PickedHaveSteps(chosen, actions, init);
    ops := [];
    var valid, facts, planned := Preflight(store, chosen);
    if !valid {
      if store.NoFaults(old(store.calls), store.calls) {
        CheckedInTurn(chosen, init, store.files, rules, maxActions, false, false, false);
      }
      return InvalidAction, ops;
    }
    var current := AssertPreviewHashes(store, chosen, hashes);
    FreshIsNotStale(actions, init, hashes, chosen, store.files);
    if !current {
      if store.NoFaults(old(store.calls), store.calls) {
        CheckedInTurn(chosen, init, store.files, rules, maxActions, true, false, false);
      }
      return JobStateConflict, ops;
    }
    var denied := EvaluateSet(chosen, facts, rules, maxActions);
    if store.NoFaults(old(store.calls), store.calls) {
      DeniedIsForbidden(chosen, store.files, facts);
      if PairwiseDisjoint(chosen) {
        CheckedInTurn(chosen, init, store.files, rules, maxActions, true, true, denied);
      }
    }
    if denied {
      return JobStateConflict, ops;
    }
    ops := Present(planned);
    PassedHaveSteps(chosen, store.files, facts, planned);
    PresentAll(planned);
    forall i | 0 <= i < |chosen|
      ensures ops[i] == StepOf(chosen[i], init).value
    {
      FreshStep(actions, init, hashes, store.files, chosen, i);
    }
    if store.NoFaults(old(store.calls), store.calls) {
      CheckedArePlanned(chosen, store.files, facts, planned);
    }
    reply := if ops == [] then JobStateConflict else Ok;
  }

  lemma PassedHaveSteps(chosen: seq<Action>, files: Files, facts: seq<Facts>, planned: seq<Option<Operation>>)
    requires |facts| == |chosen| == |planned|
    requires forall i :: 0 <= i < |chosen| ==>
      PreflightOf(chosen[i], files, facts[i], planned[i]) && !StateDenies(chosen[i], facts[i])
    ensures forall i :: 0 <= i < |chosen| ==> planned[i].Some? && planned[i] == StepOf(chosen[i], files)
  {
  }

  lemma FreshIsNotStale(
    actions: seq<Action>, init: Files, hashes: map<Path, Option<Digest>>, chosen: seq<Action>, files: Files)
    requires Recorded(actions, init, hashes) && PickedFrom(chosen, actions)
    ensures Fresh(chosen, hashes, files) <==> forall i :: 0 <= i < |chosen| ==> !IsStale(chosen[i], init, files)
  {
    forall i | 0 <= i < |chosen|
      ensures IsStale(chosen[i], init, files) <==>
        && chosen[i].file in hashes && hashes[chosen[i].file].Some?
        && !(chosen[i].file in files && hashes[chosen[i].file] == Some(Sha256(files[chosen[i].file])))
    {
      assert chosen[i] in actions;
    }
    if Fresh(chosen, hashes, files) {
      assert forall i :: 0 <= i < |chosen| ==> chosen[i] in chosen;
    }
  }

  lemma DeniedIsForbidden(chosen: seq<Action>, files: Files, facts: seq<Facts>)
    requires |facts| == |chosen| && forall i :: 0 <= i < |chosen| ==> facts[i] == FactsOf(chosen[i], files)
    ensures forall i :: 0 <= i < |chosen| ==> (StateDenies(chosen[i], facts[i]) <==> Forbidden(chosen[i], files))
    ensures seq(|chosen|, i requires 0 <= i < |chosen| => (chosen[i], facts[i]))
      == seq(|chosen|, i requires 0 <= i < |chosen| => (chosen[i], FactsOf(chosen[i], files)))
  {
  }

  /** On the files it is planned on a set cannot be stale: it is planned exactly if the checks let it through. */
  lemma AllowedIsChecked(
    actions: seq<Action>, files: Files, facts: seq<Facts>, rules: OtherRules, maxActions: nat, denied: bool)
    requires |facts| == |actions| && forall i :: 0 <= i < |actions| ==> facts[i] == FactsOf(actions[i], files)
    requires forall i :: 0 <= i < |actions| ==> !Unsupported(actions[i], files)
    requires denied <==>
      || actions == [] || |actions| > maxActions || !PairwiseDisjoint(actions)
      || rules(seq(|actions|, i requires 0 <= i < |actions| => (actions[i], facts[i])))
      || exists i :: 0 <= i < |actions| && StateDenies(actions[i], facts[i])
    ensures !denied <==> PairwiseDisjoint(actions) && Checked(actions, files, files, rules, maxActions) == Ok
  {
    hide Checked, Unsupported, FactsOf, StateDenies, PairwiseDisjoint;
    DeniedIsForbidden(actions, files, facts);
    assert forall i :: 0 <= i < |actions| && IsStale(actions[i], files, files) ==> Forbidden(actions[i], files);
    if PairwiseDisjoint(actions) {
      CheckedInTurn(
        actions, files, files, rules, maxActions, true,
        forall i :: 0 <= i < |actions| ==> !IsStale(actions[i], files, files), denied);
    }
  }

  lemma InvalidIsChecked(actions: seq<Action>, files: Files, rules: OtherRules, maxActions: nat)
    requires exists i :: 0 <= i < |actions| && Unsupported(actions[i], files)
    ensures Checked(actions, files, files, rules, maxActions) != Ok
  {
    hide Unsupported, IsStale, Forbidden, FactsOf;
  }

  /** A step that policy did not deny on faithful facts is planned on the files there are. */
  lemma CheckedArePlanned(
    chosen: seq<Action>, files: Files, facts: seq<Facts>, planned: seq<Option<Operation>>)
    requires |facts| == |chosen| == |planned| && forall i :: 0 <= i < |chosen| ==> chosen[i].file != ""
    requires forall i :: 0 <= i < |chosen| ==>
      && PreflightOf(chosen[i], files, facts[i], planned[i]) && Faithful(chosen[i], files, facts[i])
      && !StateDenies(chosen[i], facts[i])
    ensures forall i :: 0 <= i < |chosen| ==> planned[i].Some? && PlannedFor(planned[i].value, files)
  {
  }

  lemma StepsWellFormed(chosen: seq<Action>, init: Files)
    requires forall i :: 0 <= i < |chosen| ==> StepOf(chosen[i], init).Some?
    ensures AllWellFormed(StepsOf(chosen, init))
  {
    forall i | 0 <= i < |chosen|
      ensures WellFormed(StepsOf(chosen, init)[i])
    {
      StepOfTouches(chosen[i], init);
    }
  }

  /** An attempt to undo either restores the plan-time files or leaves the job as it was, or spent. */
  lemma UndoAttempt(
    record: HistoryRecord, rows: seq<JournalEntry>, init: Files, files: Files, at: Standing,
    rows': seq<JournalEntry>, files': Files, undone: bool)
    requires JobHolds(record, rows, init, files, at) && record.status == JobStatus.Committed
    requires UndoJob.Attempted(rows, files, rows', files', undone)
    requires undone ==> forall row :: row in rows ==> !row.kind.Undo?
    requires undone && UndoJob.Committed(Whole(record.proposed, init), rows, |record.proposed|, files) ==>
      files' == init
    ensures undone ==> files' == init
    ensures !undone ==> JobHolds(record, rows', init, files', at.(tried := true))
  {
    var x := Whole(record.proposed, init);
    if !undone && rows' == rows && files' != files {
      var n := |record.proposed|;
      if UndoJob.Committed(x, rows, n, files) && !Spent(rows, files) {
        RestoredOnce(x, rows, files);
      }
    }
  }

  lemma TriedHolds(record: HistoryRecord, rows: seq<JournalEntry>, init: Files, files: Files, at: Standing)
    requires JobHolds(record, rows, init, files, at) && record.status == JobStatus.Committed
    ensures JobHolds(record, rows, init, files, at.(tried := true))
  {
  }

  lemma UndoneHolds(
    record: HistoryRecord, rows: seq<JournalEntry>, rows': seq<JournalEntry>, init: Files, files: Files, at: Standing)
    requires JobHolds(record, rows, init, files, at) && record.status == JobStatus.Committed
    ensures JobHolds(record.(status := Undone), rows', init, init, at)
  {
  }

  /** A committed step's row restores at most once, unless restoring changes nothing. */
  lemma RestoredOnce(x: Execution, rows: seq<JournalEntry>, files: Files)
    requires rows != [] && UndoJob.Committed(x, rows, |rows|, files)
    requires RestoreRow(rows[|rows| - 1], files).Some?
    ensures var after := RestoreRow(rows[|rows| - 1], files).value;
      after == files || RestoreRow(rows[|rows| - 1], after).None?
  {
    var n := |rows| - 1;
    var op := x.ops[n];
    assert rows[n] == MakeEntry(n, op).(state := rows[n].state);
    if op.beforeBytes.Some? {
      BeforeDecodes(n, op);
    }
  }

  /** Some of the proposed actions, each once, in their order. */
  ghost predicate Selection(chosen: seq<Action>, proposed: seq<Action>) {
    && DistinctIds(chosen) && PickedFrom(chosen, proposed) && |chosen| <= |proposed|
    && (|chosen| == |proposed| ==> chosen == proposed)
  }

  /** Marks the job executing and runs the steps. After a conflict the first of them may be applied, by a torn call. */
  method RunOperations(store: Store, job: JobId, record: HistoryRecord, ops: seq<Operation>, cap: nat)
    returns (status: JobStatus, ghost x: Execution, ghost r: nat, ghost torn: bool)
    requires store.Quiet() && AllWellFormed(ops)
    modifies store
    ensures status.Committed? || status.Conflict? || status.RolledBackJob? || status.RollbackFailed?
    ensures store.records == old(store.records)[job := record.(status := Executing)]
    ensures x == Execution(job, ops, old(store.files), old(store.Rows(job)), store.records, cap)
    ensures status.Committed? ==> Run(ops, x.init) == Some(store.files) && x.Finished(store.Rows(job))
    ensures status.Conflict? ==>
      && |ops| > 0 && (if torn then Run(ops[..1], x.init) == Some(store.files) else store.files == x.init)
      && x.RowsAt(store.Rows(job), r) && r <= 1
    ensures torn ==> !store.NoLateFaults(old(store.calls), store.calls)
    ensures |old(store.states)| < |store.states| && store.states[|store.states| - 1] == store.Now()
    ensures Grown(old(store.states), store.states) && old(store.calls) <= store.calls
    ensures Independent(x) ==> x.AllScattered(store.states, |old(store.states)|, |store.states|)
    ensures Independent(x) && store.NoFaults(old(store.calls), store.calls) ==>
      && (status.Committed? <==> Stored(Entries(ops)) <= cap)
      && (status.Conflict? <==> ops != [] && Stored(Entries(ops)[..1]) > cap)
      && !status.RollbackFailed?
  {
    hide Run, Independent, Execution.RowsAt, Execution.Scattered, Execution.Stands, Execution.Passes, BlocksFirst,
      Execution.Finished, WellFormed, OnlyOwnLost, Execution.Succeeds, RowFits;
    store.Save(job, record.(status := Executing));
    var result;
    ghost var trace;
    StartScattered(Execution(job, ops, store.files, store.Rows(job), store.records, cap), store.Now());
    result, trace := Execute(store, job, ops, cap);
    x, status, r, torn := trace.x, result.status, CallsMade(trace.x, trace.done), trace.torn;
    if Independent(x) {
      FirstScattered(x, store.states, |old(store.states)|);
      if store.NoFaults(old(store.calls), store.calls) {
        EndWithoutFaults(store, x, old(store.calls), trace.done);
      }
    }
  }

  lemma EndWithoutFaults(store: Store, x: Execution, from: nat, done: nat)
    requires Independent(x) && done <= |x.ops| && BlocksFirst(store, x, from, done)
    requires store.NoFaults(from, store.calls) && from + CallsMade(x, done) <= store.calls
    ensures done == |x.ops| <==> Stored(Entries(x.ops)) <= x.cap
    ensures done == 0 < |x.ops| <==> x.ops != [] && Stored(Entries(x.ops)[..1]) > x.cap
  {
    hide Independent, Run, Stored, Entries;
    WithoutFaults(store, x, from, done);
  }

  lemma StartScattered(x: Execution, s: Durable)
    requires s.files == x.init && s.Rows(x.job) == x.rows && s.records == x.records
    ensures Independent(x) ==> x.Scattered(s)
  {
    if Independent(x) {
      assert x.ops[..0] == [];
      StandsScattered(x, s, 0, 0);
    }
  }

  lemma FirstScattered(x: Execution, states: seq<Durable>, from: nat)
    requires from < |states| && x.Scattered(states[from]) && x.AllScattered(states, from + 1, |states|)
    ensures x.AllScattered(states, from, |states|)
  {
  }

  lemma SelectionHolds(proposed: seq<Action>, wanted: set<ActionId>)
    requires DistinctIds(proposed)
    ensures Selection(Select(proposed, wanted), proposed)
  {
    SelectMembers(proposed, wanted);
    SelectDistinct(proposed, wanted);
    assert forall i :: 0 <= i < |Select(proposed, wanted)| ==> Select(proposed, wanted)[i] in Select(proposed, wanted);
  }

  /** The before-hash of every previewed file. */
  method BeforeHashes(actions: seq<Action>, ops: seq<Option<Operation>>) returns (hashes: map<Path, Option<Digest>>)
    requires |ops| == |actions|
    ensures PairwiseDisjoint(actions) ==>
      forall i :: 0 <= i < |actions| && ops[i].Some? ==>
        actions[i].file in hashes && hashes[actions[i].file] == ops[i].value.beforeHash
  {
    hashes := map[];
    for i := 0 to |actions|
      invariant PairwiseDisjoint(actions) ==>
        forall k :: 0 <= k < i && ops[k].Some? ==>
          actions[k].file in hashes && hashes[actions[k].file] == ops[k].value.beforeHash
    {
      if PairwiseDisjoint(actions) {
        forall k | 0 <= k < i
          ensures actions[k].file != actions[i].file
        {
          assert actions[k].file in MutatedPaths(actions[k]) && actions[i].file in MutatedPaths(actions[i]);
        }
      }
      if ops[i].Some? {
        hashes := hashes[actions[i].file := ops[i].value.beforeHash];
      }
    }
  }

  const NOTHING_YET := Standing({}, [], false, false)

  /** A set that policy did not deny on faithful facts is planned on the current files, step by step. */
  lemma PlanIsSound(
    actions: seq<Action>, files: Files, facts: seq<Facts>, ops: seq<Option<Operation>>,
    hashes: map<Path, Option<Digest>>)
    requires |facts| == |actions| == |ops| && actions != []
    requires DistinctIds(actions) && PairwiseDisjoint(actions)
    requires forall i :: 0 <= i < |actions| ==> actions[i].file != ""
    requires forall i :: 0 <= i < |actions| ==>
      && PreflightOf(actions[i], files, facts[i], ops[i]) && Faithful(actions[i], files, facts[i])
      && !StateDenies(actions[i], facts[i])
    requires forall i :: 0 <= i < |actions| && ops[i].Some? ==>
      actions[i].file in hashes && hashes[actions[i].file] == ops[i].value.beforeHash
    ensures JobHolds(HistoryRecord(AwaitingConfirmation, actions, [], hashes), [], files, files, NOTHING_YET)
  {
    CheckedArePlanned(actions, files, facts, ops);
    var record := HistoryRecord(AwaitingConfirmation, actions, [], hashes);
    assert ExecutedIds(record) == {};
  }

  function UndoReply(answer: UndoJob.Answer): JobReply {
    match answer
    case Escaped => VaultFailure
    case Answered(result) =>
      if result.status == Undone then Ok
      else if result.status == UndoUnavailable then UndoUnavailableError
      else UndoConflict
  }

  /**
    What an undo of a committed job is answered: there is nothing to undo, or a file has changed where it stops, or
    a vault call failed there.
  */
  ghost predicate RepliesToUndo(
    faults: nat -> Fault, rows: seq<JournalEntry>, files: Files, at: nat, reply: JobReply)
  {
    if rows == [] || exists row :: row in rows && row.kind.Undo? then reply == UndoUnavailableError
    else
      var (left, mid, call) := UndoJob.StopsAt(faults, rows, files, at);
      if left == 0 || left > |rows| then reply == Ok
      else if UndoJob.IsConflict(faults, rows[left - 1], mid, call) then reply == UndoConflict
      else reply == VaultFailure
  }

  lemma UndoIsReplied(
    faults: nat -> Fault, rows: seq<JournalEntry>, files: Files, at: nat, answer: UndoJob.Answer, files': Files)
    requires UndoReply(answer) == UndoUnavailableError <==> rows == [] || exists row :: row in rows && row.kind.Undo?
    requires rows != [] && (forall row :: row in rows ==> !row.kind.Undo?) ==>
      UndoJob.UndoSays(faults, rows, files, at, answer, files')
    ensures RepliesToUndo(faults, rows, files, at, UndoReply(answer))
  {
    hide UndoJob.StopsAt, UndoJob.IsConflict, UndoJob.TurnsBack;
  }

  /** Without a list of ids every proposed action is wanted. */
  function Wanted(proposed: seq<Action>, ids: seq<ActionId>): set<ActionId> {
    if ids == [] then IdSet(proposed) else set id | id in ids
  }

  /** A job commits exactly when no proposed action was left out. */
  lemma EverythingSelected(proposed: seq<Action>, ids: seq<ActionId>)
    requires DistinctIds(proposed)
    ensures Select(proposed, Wanted(proposed, ids)) == proposed <==>
      forall action :: action in proposed ==> ids == [] || action.id in ids
  {
    var wanted := Wanted(proposed, ids);
    SelectMembers(proposed, wanted);
    if forall action :: action in proposed ==> action.id in wanted {
      SelectAll(proposed, wanted);
    }
    forall action | action in proposed
      ensures ids == [] ==> action.id in wanted
    {
      var i :| 0 <= i < |proposed| && proposed[i] == action;
    }
  }

  lemma {:induction false} SelectAll(proposed: seq<Action>, wanted: set<ActionId>)
    requires forall action :: action in proposed ==> action.id in wanted
    ensures Select(proposed, wanted) == proposed
  {
    if proposed != [] {
      assert proposed == proposed[..|proposed| - 1] + [proposed[|proposed| - 1]];
      SelectAll(proposed[..|proposed| - 1], wanted);
    }
  }

  // ----- a crash during an accept -----

  /**
    An accept of a planned job may crash in any state it logs, a failed rollback included, and its calls may fail:
    explicit recovery on what the crash left gives back the files before the accept exactly if each row whose file
    shows a change is live when it is the accept's own, and not live when an earlier accept left it.
  */
  method RecoverCrashedAccept(
    store: Store, crash: Durable, job: JobId, ops: seq<Operation>, cap: nat, ghost a: Ongoing)
    returns (files: Files, ghost r: nat, ghost x: Execution)
    requires store.Quiet()
    requires a.Starts(Execution(job, ops, store.files, store.Rows(job), store.records, cap))
    requires job in store.records && store.records[job].status == Executing
    modifies store`files, store`calls, store`states, store`lost, store`writes, store`journals
    ensures x == Execution(job, ops, old(store.files), old(store.Rows(job)), old(store.records), cap)
    ensures |old(store.states)| <= |store.states|
    ensures Logged(store, old(store.Now()), |old(store.states)|, crash) ==> RecoversTo(x, a.Past(), crash, r, files)
  {
    hide Ongoing.Starts, StartsAfter, RecoversTo;
    AcceptStartsAfter(a, Execution(job, ops, store.files, store.Rows(job), store.records, cap));
    files, r, x := ExecuteCrashRecover(store, crash, job, ops, cap, a.Past());
  }

  /** The states of an accept's execution are sheltered. */
  lemma RunIsSheltered(a: Ongoing, x: Execution, states: seq<Durable>, from: nat)
    requires a.Starts(x) && from <= |states| && x.AllScattered(states, from, |states|)
    ensures AllSheltered(a.actions, a.plan, x.job, states, from)
  {
    hide Ongoing.Starts, Execution.Scattered;
    forall i | from <= i < |states|
      ensures Sheltered(a.actions, a.plan, x.job, states[i])
    {
      assert Shelters(a, x, x.job, states[i]);
    }
  }

  lemma ShelteredJoins(
    actions: seq<Action>, plan: Files, job: JobId, was: seq<Durable>, mid: seq<Durable>, now: seq<Durable>)
    requires Grown(was, mid) && Grown(mid, now)
    requires AllSheltered(actions, plan, job, mid, |was|) && AllSheltered(actions, plan, job, now, |mid|)
    ensures AllSheltered(actions, plan, job, now, |was|) && Grown(was, now)
  {
    hide Sheltered;
    forall i | |was| <= i < |now|
      ensures Sheltered(actions, plan, job, now[i])
    {
      assert i < |mid| ==> now[i] == mid[i];
    }
  }

  /** What a check before the accept, not misled, makes sure of. */
  lemma OngoingStarts(
    record: HistoryRecord, rows: seq<JournalEntry>, init: Files, at: Standing, chosen: seq<Action>, x: Execution)
    requires JobHolds(record, rows, init, x.init, at) && record.status == AwaitingConfirmation && !at.misled
    requires Selection(chosen, record.proposed) && x.rows == rows
    requires forall i :: 0 <= i < |chosen| ==> StepOf(chosen[i], init).Some?
    requires x.ops == StepsOf(chosen, init) && AllPlanned(x.ops, x.init)
    ensures Ongoing(record.proposed, init, at, chosen).Starts(x) && Independent(x)
  {
    hide PlannedSet, Progress, RowsTell, StepOf, PlannedFor, StartsAfter;
    var a := Ongoing(record.proposed, init, at, chosen);
    AcceptStartsAfter(a, x);
    StartsIndependent(x, a.Past());
  }

  ghost predicate AllCarriedOut(actions: seq<Action>, plan: Files, files: Files) {
    forall i :: 0 <= i < |actions| ==> CarriedOut(actions[i], plan, files)
  }

  /** What an accept is answered when no call fails. */
  ghost function AcceptReply(
    confirm: bool, ids: seq<ActionId>, record: HistoryRecord, plan: Files, files: Files, rules: OtherRules, caps: Caps)
    : JobReply
  {
    if !confirm then ConfirmationRequired
    else if record.status != AwaitingConfirmation then JobStateConflict
    else if exists id :: id in ids && id !in IdSet(record.proposed) then InvalidAction
    else Verdict(Select(record.proposed, Wanted(record.proposed, ids)), plan, files, rules, caps)
  }

  /** Once an accept has succeeded, each of the chosen actions is carried out. */
  lemma AcceptFulfils(
    record: HistoryRecord, rows: seq<JournalEntry>, init: Files, files: Files, at: Standing, chosen: seq<Action>)
    requires JobHolds(record, rows, init, files, at) && Selection(chosen, record.proposed)
    requires record.status == AwaitingConfirmation || (record.status == JobStatus.Committed && !at.tried)
    requires forall i :: 0 <= i < |chosen| ==> chosen[i].id in record.executed
    ensures AllCarriedOut(chosen, init, files) && NothingElse(record.proposed, init, files)
  {
    HoldsFulfilled(record, rows, init, files, at);
    forall i | 0 <= i < |chosen|
      ensures CarriedOut(chosen[i], init, files)
    {
      var k :| 0 <= k < |record.proposed| && record.proposed[k] == chosen[i];
    }
  }

  lemma ChosenDisjoint(actions: seq<Action>, init: Files, chosen: seq<Action>)
    requires PlannedSet(actions, init) && Selection(chosen, actions)
    ensures PairwiseDisjoint(chosen)
  {
    forall i, j | 0 <= i < j < |chosen|
      ensures MutatedPaths(chosen[i]) !! MutatedPaths(chosen[j])
    {
      var a :| 0 <= a < |actions| && actions[a] == chosen[i];
      var b :| 0 <= b < |actions| && actions[b] == chosen[j];
      assert chosen[i].id != chosen[j].id;
      assert MutatedPaths(actions[if a < b then a else b]) !! MutatedPaths(actions[if a < b then b else a]);
    }
  }

  lemma ChosenIndependent(
    record: HistoryRecord, rows: seq<JournalEntry>, init: Files, files: Files, at: Standing, chosen: seq<Action>,
    x: Execution)
    requires JobHolds(record, rows, init, files, at) && Selection(chosen, record.proposed)
    requires forall i :: 0 <= i < |chosen| ==> StepOf(chosen[i], init).Some?
    requires x.ops == StepsOf(chosen, init) && x.init == files && AllPlanned(x.ops, files)
    ensures Independent(x)
  {
    AcceptedIsIndependent(record.proposed, init, chosen, x.(init := init));
  }

  lemma EndOfSteps(chosen: seq<Action>, plan: Files, cap: nat)
    requires forall i :: 0 <= i < |chosen| ==> StepOf(chosen[i], plan).Some?
    ensures var rows := Entries(StepsOf(chosen, plan));
      EndOfRun(chosen, plan, cap) ==
        if Stored(rows) <= cap then Ok
        else if rows == [] || Stored(rows[..1]) > cap then JobStateConflict
        else TransactionFailed
  {
    StoredOfSteps(chosen, plan);
    if chosen != [] {
      assert Entries(StepsOf(chosen, plan))[..1] == Entries(StepsOf(chosen[..1], plan));
      StoredOfSteps(chosen[..1], plan);
    }
  }

  lemma StartsIndependent(x: Execution, past: Past)
    requires StartsAfter(x, past)
    ensures Independent(x)
  {
  }

  lemma HoldsPlan(record: HistoryRecord, rows: seq<JournalEntry>, init: Files, files: Files, at: Standing)
    requires JobHolds(record, rows, init, files, at)
    ensures PlanHolds(record, init) && (record.status == AwaitingConfirmation ==> !at.tried)
  {
  }

  lemma TerminalHolds(
    record: HistoryRecord, rows: seq<JournalEntry>, init: Files, files: Files, at: Standing, status: JobStatus,
    rows': seq<JournalEntry>, files': Files)
    requires JobHolds(record, rows, init, files, at) && Terminal(status)
    ensures JobHolds(record.(status := status), rows', init, files', at)
  {
  }

  lemma MisledHolds(
    record: HistoryRecord, rows: seq<JournalEntry>, init: Files, files: Files, at: Standing, later: Standing)
    requires JobHolds(record, rows, init, files, at) && (at.misled ==> later.misled)
    requires later.applied == at.applied && later.journaled == at.journaled && later.tried == at.tried
    ensures JobHolds(record, rows, init, files, later)
  {
    hide Progress, PlannedSet, StepOf;
  }

  class AgentJobService {
    const store: Store
    const job: JobId
    const rules: OtherRules
    const maxActions: nat
    const maxJournalBytes: nat
    const journalCap: nat
    var cached: Option<HistoryRecord>
    ghost var init: Files
    ghost var at: Standing

    constructor (store: Store, job: JobId, rules: OtherRules, maxActions: nat, maxJournalBytes: nat, journalCap: nat)
      ensures this.store == store && this.job == job && this.rules == rules && cached == None
      ensures this.maxActions == maxActions && this.maxJournalBytes == maxJournalBytes && this.journalCap == journalCap
    {
      this.store, this.job, this.rules := store, job, rules;
      this.maxActions, this.maxJournalBytes, this.journalCap := maxActions, maxJournalBytes, journalCap;
      cached, init, at := None, map[], NOTHING_YET;
    }

    /** A planned job on a vault nobody else writes to; when it is flagged, recovery knows about it. */
    ghost predicate Valid()
      reads this, store
    {
      && store.Quiet() && cached.Some? && JobHolds(cached.value, store.Rows(job), init, store.files, at)
      && (cached.value.status != AwaitingConfirmation ==> !IsFlagged(store.Now()))
      && (!at.misled ==> Sheltered(cached.value.proposed, init, job, store.Now()))
    }

    ghost predicate IsFlagged(s: Durable) {
      job in s.records && Flagged(s.records[job].status)
    }

    /** The states logged since `was` are sheltered, unless a check was misled. */
    ghost predicate Sheltering(was: seq<Durable>)
      reads this, store
    {
      && Grown(was, store.states) && cached.Some?
      && (!at.misled ==> AllSheltered(cached.value.proposed, init, job, store.states, |was|))
    }

    /** Ends a call by saving and caching a record. */
    method Keep(record: HistoryRecord)
      requires !Flagged(record.status)
      modifies this`cached, store`records, store`states
      ensures cached == Some(record) && store.records == old(store.records)[job := record]
      ensures !IsFlagged(store.Now()) && Sheltering(old(store.states))
    {
      store.Save(job, record);
      cached := Some(record);
    }

    /** The chosen steps were applied: record them, and wait for the rest if there is any. */
    method Commit(record: HistoryRecord, chosen: seq<Action>, ghost x: Execution, ghost rows: seq<JournalEntry>)
      requires JobHolds(record, rows, init, x.init, at) && record.status == AwaitingConfirmation
      requires cached == Some(record) && store.Quiet()
      requires Selection(chosen, record.proposed)
      requires forall i :: 0 <= i < |chosen| ==> StepOf(chosen[i], init).Some?
      requires x.ops == StepsOf(chosen, init) && x.rows == rows && Run(x.ops, x.init) == Some(store.files)
      requires x.Finished(store.Rows(job))
      requires !at.misled ==> Ongoing(record.proposed, init, at, chosen).Starts(x)
      modifies this`cached, this`at, store`records, store`states
      ensures Valid() && cached.value.proposed == record.proposed && at.misled == old(at.misled)
      ensures cached.value.executed == record.executed + Ids(chosen)
      ensures cached.value.status == if chosen == record.proposed then JobStatus.Committed else AwaitingConfirmation
      ensures Sheltering(old(store.states)) && at.tried == old(at.tried)
    {
      hide Ongoing.Starts, StepOf, DistinctIds, Execution.Finished, Run, JobHolds;
      var all := |chosen| == |record.proposed|;
      var more := record.(
        status := if all then JobStatus.Committed else AwaitingConfirmation, executed := record.executed + Ids(chosen));
      if all {
        FullAccept(record, rows, init, x.init, at, more, x, store.Rows(job), store.files);
      } else {
        PartialAccept(record, rows, init, x.init, at, chosen, more, x, store.Rows(job), store.files);
        at := Next(Ongoing(record.proposed, init, at, chosen), |chosen|, at.applied + IdSet(chosen));
      }
      Keep(more);
    }

    /** Runs the chosen steps and records how the run ended. */
    method RunSteps(record: HistoryRecord, chosen: seq<Action>, ops: seq<Operation>) returns (reply: JobReply)
      requires Valid() && cached == Some(record) && record.status == AwaitingConfirmation
      requires Selection(chosen, record.proposed)
      requires forall i :: 0 <= i < |chosen| ==> StepOf(chosen[i], init).Some?
      requires ops == StepsOf(chosen, init) && (!at.misled ==> AllPlanned(ops, store.files))
      modifies this`cached, this`at, store
      ensures Valid() && cached.value.proposed == record.proposed && at.misled == old(at.misled)
      ensures at.tried == old(at.tried) && old(store.calls) <= store.calls
      ensures AllPlanned(ops, old(store.files)) && store.NoFaults(old(store.calls), store.calls) ==>
        reply == EndOfRun(chosen, init, journalCap)
      ensures reply == Ok ==>
        && cached.value.executed == record.executed + Ids(chosen)
        && cached.value.status == if chosen == record.proposed then JobStatus.Committed else AwaitingConfirmation
      ensures reply != Ok ==>
        cached.value.executed == record.executed &&
        (cached.value.status == AwaitingConfirmation || Terminal(cached.value.status))
      ensures reply == TransactionFailed <==> cached.value.status == RolledBackJob
      ensures reply == RollbackError <==> cached.value.status == JobStatus.RollbackFailed
      ensures reply != Ok && cached.value.status == AwaitingConfirmation ==>
        store.files == old(store.files) || !store.NoLateFaults(old(store.calls), store.calls)
      ensures Sheltering(old(store.states))
    {
      hide StepOf, DistinctIds, Stored, Entries, Ongoing.Starts, Shelters, Run, Execution.Finished, Execution.RowsAt,
        Execution.Scattered, Independent, JobHolds;
      HoldsPlan(record, store.Rows(job), init, store.files, at);
      StepsWellFormed(chosen, init);
      ghost var rows, files, a := store.Rows(job), store.files, Ongoing(record.proposed, init, at, chosen);
      var status;
      ghost var x, r, torn;
      status, x, r, torn := RunOperations(store, job, record, ops, journalCap);
      if !at.misled {
        OngoingStarts(record, rows, init, at, chosen, x);
        RunIsSheltered(a, x, store.states, |old(store.states)|);
      }
      if AllPlanned(ops, files) {
        ChosenIndependent(record, rows, init, files, at, chosen, x);
        EndOfSteps(chosen, init, journalCap);
      }
      label L:
      if status == JobStatus.Committed {
        Commit(record, chosen, x, rows);
        reply := Ok;
      } else if status == RolledBackJob {
        TerminalHolds(record, rows, init, files, at, RolledBackJob, store.Rows(job), store.files);
        Keep(record.(status := RolledBackJob));
        reply := TransactionFailed;
      } else if status == JobStatus.RollbackFailed {
        TerminalHolds(record, rows, init, files, at, JobStatus.RollbackFailed, store.Rows(job), store.files);
        Keep(record.(status := JobStatus.RollbackFailed));
        reply := RollbackError;
      } else {
        ConflictHolds(record, rows, init, at, chosen, x, store.Rows(job), r, store.files, torn);
        at := Next(a, r, at.applied + if torn then {chosen[0].id} else {});
        reply := JobStateConflict;
        assert !at.misled ==> Sheltered(record.proposed, init, job, store.states[|store.states| - 1]);
      }
      if !at.misled {
        ShelteredJoins(record.proposed, init, job, old(store.states), old@L(store.states), store.states);
      }
    }

    /** Plans a job: preflight, policy, and a record that waits for confirmation. */
    method Plan(actions: seq<Action>) returns (planned: bool)
      requires store.Quiet() && cached == None && store.Rows(job) == []
      requires DistinctIds(actions) && forall i :: 0 <= i < |actions| ==> actions[i].file != ""
      modifies this`cached, this`init, this`at, store
      ensures store.files == old(store.files)
      ensures planned && store.NoFaults(old(store.calls), store.calls) ==>
        && Valid() && init == store.files && !at.misled
        && cached.value.proposed == actions && cached.value.executed == []
          && cached.value.status == AwaitingConfirmation
      ensures !planned ==> cached.Some? ==> cached.value.status == FailedJob
      ensures store.NoFaults(old(store.calls), store.calls) ==>
        && (planned <==>
              PairwiseDisjoint(actions) && Checked(actions, store.files, store.files, rules, maxActions) == Ok)
        && (cached.None? <==> exists i :: 0 <= i < |actions| && Unsupported(actions[i], store.files))
    {
      hide Checked, Unsupported, FactsOf, StateDenies, PlannedSet;
      planned := false;
      var valid, facts, ops := Preflight(store, actions);
      if !valid {
        if store.NoFaults(old(store.calls), store.calls) {
          InvalidIsChecked(actions, store.files, rules, maxActions);
        }
      } else {
        var denied := EvaluateSet(actions, facts, rules, maxActions);
        if store.NoFaults(old(store.calls), store.calls) {
          AllowedIsChecked(actions, store.files, facts, rules, maxActions, denied);
        }
        if denied {
          Keep(HistoryRecord(FailedJob, actions, [], map[]));
        } else {
          var before := BeforeHashes(actions, ops);
          if store.NoFaults(old(store.calls), store.calls) {
            PlanIsSound(actions, store.files, facts, ops, before);
          }
          init, at := store.files, NOTHING_YET;
          Keep(HistoryRecord(AwaitingConfirmation, actions, [], before));
          planned := true;
        }
      }
    }

    /** Checks the chosen actions once more and runs them; the check ends with call `checked`. */
    method ExecuteChosen(record: HistoryRecord, chosen: seq<Action>) returns (reply: JobReply, ghost checked: nat)
      requires Valid() && cached == Some(record) && record.status == AwaitingConfirmation
      requires Selection(chosen, record.proposed)
      modifies this`cached, this`at, store
      ensures Valid() && cached.value.proposed == record.proposed
      ensures at.misled ==> old(at.misled) || !store.NoFaults(old(store.calls), checked)
      ensures (old(at.misled) ==> at.misled) && at.tried == old(at.tried)
      ensures store.NoFaults(old(store.calls), store.calls) ==>
        reply == Verdict(chosen, init, old(store.files), rules, Caps(maxActions, maxJournalBytes, journalCap))
      ensures reply == Ok ==>
        && cached.value.executed == record.executed + Ids(chosen)
        && cached.value.status == if chosen == record.proposed then JobStatus.Committed else AwaitingConfirmation
      ensures reply != Ok ==>
        cached.value.executed == record.executed &&
        (cached.value.status == AwaitingConfirmation || Terminal(cached.value.status))
      ensures reply == TransactionFailed <==> cached.value.status == RolledBackJob
      ensures reply == RollbackError <==> cached.value.status == JobStatus.RollbackFailed
      ensures reply != Ok && cached.value.status == AwaitingConfirmation ==>
        store.files == old(store.files) || !store.NoLateFaults(old(store.calls), store.calls)
      ensures Sheltering(old(store.states))
    {
      hide Sheltered, StepOf, JobHolds, Checked, EndOfRun, Stored, Entries;
      HoldsPlan(record, store.Rows(job), init, store.files, at);
      assert forall i :: 0 <= i < |chosen| ==> chosen[i] in record.proposed;
      var ops;
      reply, ops := CheckSelection(store, chosen, record.beforeHash, rules, maxActions, record.proposed, init);
      checked := store.calls;
      ChosenDisjoint(record.proposed, init, chosen);
      BytesOfSteps(chosen, init);
      at := at.(misled := at.misled || (reply == Ok && !store.NoFaults(old(store.calls), checked)));
      MisledHolds(record, store.Rows(job), init, store.files, old(at), at);
      if reply == Ok {
        if BeforeBytes(ops) > maxJournalBytes {
          reply := HistoryLimitExceeded;
        } else {
          label L:
          reply := RunSteps(record, chosen, ops);
          if !at.misled {
            ShelteredJoins(record.proposed, init, job, old(store.states), old@L(store.states), store.states);
          }
        }
      }
    }

    /**
      Accepts all proposed actions, or the ones named. Only a job that waits for confirmation changes; it
      commits exactly when everything was selected, and a refused call leaves the vault alone unless the
      job ends rolled back or a call of it raised behind its effect.
    */
    method AcceptActions(confirm: bool, ids: seq<ActionId>) returns (reply: JobReply, ghost checked: nat)
      requires Valid()
      modifies this`cached, this`at, store
      ensures Valid() && cached.value.proposed == old(cached.value.proposed)
      ensures at.misled ==> old(at.misled) || !store.NoFaults(old(store.calls), checked)
      ensures (old(at.misled) ==> at.misled) && at.tried == old(at.tried)
      ensures store.NoFaults(old(store.calls), store.calls) ==>
        reply ==
          AcceptReply(
            confirm, ids, old(cached.value), init, old(store.files), rules,
            Caps(maxActions, maxJournalBytes, journalCap))
      ensures reply == Ok ==>
        && AllCarriedOut(Select(cached.value.proposed, Wanted(cached.value.proposed, ids)), init, store.files)
        && NothingElse(cached.value.proposed, init, store.files)
      ensures old(cached.value.status) != AwaitingConfirmation || !confirm ==>
        reply != Ok && cached == old(cached) && store.Now() == old(store.Now())
      ensures reply == Ok ==>
        var chosen := Select(cached.value.proposed, Wanted(cached.value.proposed, ids));
        && cached.value.executed == old(cached.value.executed) + Ids(chosen)
        && cached.value.status == if chosen == cached.value.proposed then JobStatus.Committed else AwaitingConfirmation
      ensures reply != Ok ==> cached.value.executed == old(cached.value.executed)
      ensures old(cached.value.status) == AwaitingConfirmation ==>
        && (reply == TransactionFailed <==> cached.value.status == RolledBackJob)
        && (reply == RollbackError <==> cached.value.status == JobStatus.RollbackFailed)
      ensures reply != Ok && old(cached.value.status) == AwaitingConfirmation ==>
        Terminal(cached.value.status)
          || (cached.value.status == AwaitingConfirmation &&
               (store.files == old(store.files) || !store.NoLateFaults(old(store.calls), store.calls)))
      ensures Sheltering(old(store.states))
    {
      hide JobHolds, Sheltered, Verdict, AllCarriedOut, NothingElse, Wanted, Select;
      checked := store.calls;
      var record := cached.value;
      if !confirm {
        return ConfirmationRequired, checked;
      }
      if record.status != AwaitingConfirmation {
        return JobStateConflict, checked;
      }
      if exists id :: id in ids && id !in IdSet(record.proposed) {
        return InvalidAction, checked;
      }
      var chosen := Select(record.proposed, Wanted(record.proposed, ids));
      HoldsPlan(record, store.Rows(job), init, store.files, at);
      SelectionHolds(record.proposed, Wanted(record.proposed, ids));
      reply, checked := ExecuteChosen(record, chosen);
      if reply == Ok {
        AcceptFulfils(cached.value, store.Rows(job), init, store.files, at, chosen);
      }
    }

    method RejectJob() returns (reply: JobReply)
      requires Valid()
      modifies this`cached, store`records, store`states
      ensures Valid() && cached.value.proposed == old(cached.value.proposed)
      ensures reply ==
        if old(cached.value.status) == AwaitingConfirmation && old(cached.value.executed) == [] then Ok
        else JobStateConflict
      ensures cached == if reply == Ok then Some(old(cached.value).(status := Rejected)) else old(cached)
      ensures Sheltering(old(store.states))
    {
      var record := cached.value;
      if record.status != AwaitingConfirmation || record.executed != [] {
        return JobStateConflict;
      }
      Keep(record.(status := Rejected));
      return Ok;
    }

    /** Takes the committed steps back from the journal; the record stays. */
    method UndoSteps(record: HistoryRecord) returns (answer: UndoJob.Answer)
      requires Valid() && cached == Some(record) && record.status == JobStatus.Committed
      modifies store
      ensures store.Quiet() && store.records == old(store.records)
      ensures UndoJob.IsUndone(answer) ==> store.files == init
      ensures !UndoJob.IsUndone(answer) ==> JobHolds(record, store.Rows(job), init, store.files, at.(tried := true))
      ensures UndoReply(answer) == UndoUnavailableError <==>
        old(store.Rows(job)) == [] || exists row :: row in old(store.Rows(job)) && row.kind.Undo?
      ensures old(store.Rows(job)) != [] && (forall row :: row in old(store.Rows(job)) ==> !row.kind.Undo?) ==>
        UndoJob.UndoSays(
          store.faults, old(store.Rows(job)), old(store.files), old(store.calls), answer, store.files)
      ensures store.NoFaults(old(store.calls), store.calls) ==>
        UndoJob.Committed(Whole(record.proposed, init), old(store.Rows(job)), |record.proposed|, old(store.files)) ==>
          UndoJob.IsUndone(answer)
      ensures KeepsRecords(old(store.states), store.states, store.records)
    {
      ghost var rows, files := store.Rows(job), store.files;
      answer := UndoJob.UndoFromJournal(store, job, Whole(record.proposed, init));
      UndoAttempt(record, rows, init, files, at, store.Rows(job), store.files, UndoJob.IsUndone(answer));
    }

    /** Undo of a committed job; a failed undo leaves its record committed. */
    method UndoCommitted(confirm: bool) returns (reply: JobReply)
      requires Valid()
      modifies this`cached, this`at, store
      ensures Valid() && cached.value.proposed == old(cached.value.proposed)
      ensures at == old(at).(tried := at.tried)
      ensures at.tried == (old(at.tried) || (confirm && old(cached.value.status) == JobStatus.Committed))
      ensures !confirm ==> reply == ConfirmationRequired
      ensures confirm && old(cached.value.status) != JobStatus.Committed ==> reply == UndoUnavailableError
      ensures confirm && old(cached.value.status) == JobStatus.Committed ==>
        RepliesToUndo(store.faults, old(store.Rows(job)), old(store.files), old(store.calls), reply)
      ensures reply == Ok ==> confirm && old(cached.value.status) == JobStatus.Committed && store.files == init
      ensures cached == if reply == Ok then Some(old(cached.value).(status := Undone)) else old(cached)
      ensures Sheltering(old(store.states))
    {
      hide JobHolds, UndoJob.Committed, RepliesToUndo, UndoJob.UndoSays, Shelters;
      var record := cached.value;
      if !confirm {
        return ConfirmationRequired;
      }
      if record.status != JobStatus.Committed {
        return UndoUnavailableError;
      }
      ghost var rows, files := store.Rows(job), store.files;
      at := at.(tried := true);
      TriedHolds(record, rows, init, files, old(at));
      var answer := UndoSteps(record);
      reply := UndoReply(answer);
      UndoIsReplied(store.faults, rows, files, old(store.calls), answer, store.files);
      if reply == Ok {
        UndoneHolds(record, rows, store.Rows(job), init, files, at);
        Keep(record.(status := Undone));
      }
    }

    /**
      Any sequence of calls on a planned job, with no other writer but with any calls failing: each byte-changing
      action is executed at most once, the job commits only by an accept of every proposed action, when it is
      undone the vault is the plan-time vault, and a crash at any moment finds what recovery knows about.
    */
    method Serve(calls: seq<JobCall>)
      requires Valid()
      modifies this`cached, this`at, store
      ensures Valid() && cached.value.proposed == old(cached.value.proposed)
      ensures AtMostOnce(cached.value.proposed, init, cached.value.executed)
      ensures cached.value.status == JobStatus.Committed || cached.value.status == Undone ==>
        FullyAccepted(cached.value)
      ensures cached.value.status == Undone ==> store.files == init
      ensures
        cached.value.status == AwaitingConfirmation || (cached.value.status == JobStatus.Committed && !at.tried) ==>
        Fulfilled(cached.value.proposed, init, ExecutedIds(cached.value), store.files)
      ensures at.tried ==> old(at.tried) || exists i :: 0 <= i < |calls| && calls[i] == UndoCall(true)
      ensures Sheltering(old(store.states))
    {
      hide Sheltered;
      for i := 0 to |calls|
        invariant Valid() && cached.value.proposed == old(cached.value.proposed)
        invariant Sheltering(old(store.states)) && (old(at.misled) ==> at.misled)
        invariant at.tried ==> old(at.tried) || exists k :: 0 <= k < i && calls[k] == UndoCall(true)
      {
        label L:
        match calls[i] {
          case Accept(confirm, ids) =>
            var reply;
            ghost var checked;
            reply, checked := AcceptActions(confirm, ids);
          case Reject => var _ := RejectJob();
          case UndoCall(confirm) => var _ := UndoCommitted(confirm);
        }
        if !at.misled {
          ShelteredJoins(
            cached.value.proposed, init, job, old(store.states), old@L(store.states), store.states);
        }
      }
      if cached.value.status == AwaitingConfirmation || (cached.value.status == JobStatus.Committed && !at.tried) {
        HoldsFulfilled(cached.value, store.Rows(job), init, store.files, at);
      }
    }
  }

  /**
    Any sequence of calls, a crash in any state on the way, and recovery. Where a flagged job is found, the files
    before the accept it was in are back exactly if each row whose file shows a change is live when it is that
    accept's own, and not live when an earlier one left it; where none is found, recovery touches nothing.
  */
  method ServeCrashRecover(service: AgentJobService, calls: seq<JobCall>, crash: Durable)
    returns (files: Files, ghost a: Ongoing, ghost x: Execution, ghost r: nat)
    requires service.Valid()
    modifies service`cached, service`at, service.store
    ensures service.Valid()
    ensures !service.IsFlagged(crash) ==> files == crash.files
    ensures
      !service.at.misled && service.IsFlagged(crash)
      && (exists i :: |old(service.store.states)| <= i < |service.store.states| && service.store.states[i] == crash) ==>
        && a.Starts(x) && a.actions == service.cached.value.proposed && a.plan == service.init
        && RecoversTo(x, a.Past(), crash, r, files)
  {
    hide Ongoing.Starts, RecoversTo, StartsAfter, JobHolds, Execution.Scattered;
    service.Serve(calls);
    a, x, r := Ongoing([], map[], NOTHING_YET, []), Execution("", [], map[], [], map[], 0), 0;
    ghost var past := Past([], map[]);
    if !service.at.misled && service.IsFlagged(crash)
      && exists i :: |old(service.store.states)| <= i < |service.store.states| && service.store.states[i] == crash
    {
      assert Sheltered(service.cached.value.proposed, service.init, service.job, crash);
      a, x :| a.actions == service.cached.value.proposed && a.plan == service.init
        && Shelters(a, x, service.job, crash);
      AcceptStartsAfter(a, x);
      ShelterRecords(a, x, service.job, crash);
      past := a.Past();
    }
    files, r := RecoverCrash(crash, service.job, x, past);
  }
}
