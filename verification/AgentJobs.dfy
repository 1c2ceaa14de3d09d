/** One controlled job: plan, accept sets of its actions, reject, undo. */
module AgentJobs {
  import opened Base
  import opened Vault
  import opened Transactions
  import opened HistoryStore
  import opened Executions
  import UndoJob
  import opened Policy
  import opened JobProgress
  import opened JobStanding

  // ----- selecting -----

  /** The proposed actions with a wanted id, in their order. */
  function Select(proposed: seq<Action>, wanted: set<ActionId>): seq<Action> {
    if proposed == [] then []
    else
      Select(proposed[..|proposed| - 1], wanted) +
      if proposed[|proposed| - 1].id in wanted then [proposed[|proposed| - 1]] else []
  }

  lemma {:induction false} SelectMembers(proposed: seq<Action>, wanted: set<ActionId>)
    ensures forall action :: action in Select(proposed, wanted) <==> action in proposed && action.id in wanted
  {
    if proposed != [] {
      var n := |proposed| - 1;
      SelectMembers(proposed[..n], wanted);
      assert proposed == proposed[..n] + [proposed[n]];
    }
  }

  lemma {:induction false} SelectAvoids(proposed: seq<Action>, wanted: set<ActionId>, id: ActionId)
    requires forall i :: 0 <= i < |proposed| ==> proposed[i].id != id
    ensures forall i :: 0 <= i < |Select(proposed, wanted)| ==> Select(proposed, wanted)[i].id != id
  {
    if proposed != [] {
      SelectAvoids(proposed[..|proposed| - 1], wanted, id);
    }
  }

  lemma {:induction false} SelectDistinct(proposed: seq<Action>, wanted: set<ActionId>)
    requires DistinctIds(proposed)
    ensures DistinctIds(Select(proposed, wanted)) && |Select(proposed, wanted)| <= |proposed|
    ensures |Select(proposed, wanted)| == |proposed| ==> Select(proposed, wanted) == proposed
  {
    if proposed != [] {
      var n := |proposed| - 1;
      SelectDistinct(proposed[..n], wanted);
      SelectAvoids(proposed[..n], wanted, proposed[n].id);
      DistinctMore(Select(proposed[..n], wanted), proposed[n]);
      assert proposed[..n] + [proposed[n]] == proposed;
    }
  }

  lemma DistinctMore(actions: seq<Action>, action: Action)
    requires DistinctIds(actions) && forall i :: 0 <= i < |actions| ==> actions[i].id != action.id
    ensures DistinctIds(actions + [action])
  {
  }

  // ----- preflight -----

  /** A planned step is the action's step on these files; no step means that policy denies the action. */
  ghost predicate PreflightOf(action: Action, files: Files, facts: Facts, op: Option<Operation>) {
    if op.Some? then StepOf(action, files) == op else StateDenies(action, facts)
  }

  /** The facts are what the vault holds. */
  ghost predicate Faithful(action: Action, files: Files, facts: Facts) {
    && facts.existing == (action.file in files)
    && (action.MoveNote? && action.target != "" ==> facts.targetExists == (action.target in files))
    && (action.EditNote? && action.file in files ==>
          facts.before == Some(files[action.file]) && facts.after == action.change(files[action.file]))
  }

  /** What preflight sees of an action on files that can be read. */
  ghost function FactsOf(action: Action, files: Files): Facts {
    var existing := action.file in files;
    match action
    case CreateNote(_, _, _) => Facts(existing, false, None, None)
    case MoveNote(_, _, target) => Facts(existing, target != "" && target in files, None, None)
    case EditNote(_, file, change) =>
      if existing then Facts(true, false, Some(files[file]), change(files[file])) else Facts(false, false, None, None)
  }

  /** The action asks for an edit that its text does not admit. */
  ghost predicate Unsupported(action: Action, files: Files) {
    action.EditNote? && action.file in files && action.change(files[action.file]).None?
  }

  method PreflightOne(store: Store, action: Action) returns (valid: bool, facts: Facts, op: Option<Operation>)
    requires store.Quiet() && action.file != ""
    modifies store`files, store`calls, store`states
    ensures store.files == old(store.files) && old(store.calls) <= store.calls
    ensures Repeats(old(store.states), store.states, store.Now())
    ensures valid ==> PreflightOf(action, store.files, facts, op)
    ensures valid && store.NoFaults(old(store.calls), store.calls) ==> Faithful(action, store.files, facts)
    ensures store.NoFaults(old(store.calls), store.calls) ==>
      facts == FactsOf(action, store.files) && (valid <==> !Unsupported(action, store.files))
  {
    var data, digest := store.TryRead(action.file);
    valid, facts, op := true, Facts(digest.Some?, false, None, None), None;
    match action
    case CreateNote(_, file, content) =>
      if !facts.existing {
        op := Some(Operation(Create, file, false, None, None, Some(content), None, "", ""));
      }
    case MoveNote(_, file, target) =>
      if target != "" {
        var _, targetDigest := store.TryRead(target);
        facts := facts.(targetExists := targetDigest.Some?);
        if facts.existing && !facts.targetExists {
          op := Some(Operation(Move, target, true, Some(data), digest, Some(data), digest, "", file));
        }
      }
    case EditNote(_, file, change) =>
      if facts.existing {
        var after := change(data);
        valid := after.Some?;
        facts := facts.(before := Some(data), after := after);
        op := Some(Operation(Update, file, true, Some(data), digest, after, None, "", ""));
      }
  }

  method Preflight(store: Store, actions: seq<Action>)
    returns (valid: bool, facts: seq<Facts>, ops: seq<Option<Operation>>)
    requires store.Quiet() && forall i :: 0 <= i < |actions| ==> actions[i].file != ""
    modifies store`files, store`calls, store`states
    ensures store.files == old(store.files) && old(store.calls) <= store.calls
    ensures Repeats(old(store.states), store.states, store.Now())
    ensures valid ==> |facts| == |actions| == |ops|
    ensures valid ==> forall i :: 0 <= i < |actions| ==> PreflightOf(actions[i], store.files, facts[i], ops[i])
    ensures valid && store.NoFaults(old(store.calls), store.calls) ==>
      forall i :: 0 <= i < |actions| ==> Faithful(actions[i], store.files, facts[i])
    ensures store.NoFaults(old(store.calls), store.calls) ==>
      && (valid <==> forall i :: 0 <= i < |actions| ==> !Unsupported(actions[i], store.files))
      && (valid ==> forall i :: 0 <= i < |actions| ==> facts[i] == FactsOf(actions[i], store.files))
  {
    valid, facts, ops := true, [], [];
    var i := 0;
    while i < |actions| && valid
      invariant i <= |actions| && store.files == old(store.files) && old(store.calls) <= store.calls
      invariant Repeats(old(store.states), store.states, store.Now())
      invariant valid ==> |facts| == i == |ops|
      invariant valid ==> forall k :: 0 <= k < i ==> PreflightOf(actions[k], store.files, facts[k], ops[k])
      invariant valid && store.NoFaults(old(store.calls), store.calls) ==>
        forall k :: 0 <= k < i ==> Faithful(actions[k], store.files, facts[k])
      invariant store.NoFaults(old(store.calls), store.calls) ==>
        && (valid ==> forall k :: 0 <= k < i ==>
              facts[k] == FactsOf(actions[k], store.files) && !Unsupported(actions[k], store.files))
        && (!valid ==> i < |actions| && Unsupported(actions[i], store.files))
      decreases |actions| - i, valid
    {
      var fact, op;
      valid, fact, op := PreflightOne(store, actions[i]);
      if valid {
        facts, ops, i := facts + [fact], ops + [op], i + 1;
      }
    }
  }

  /** The operations that were planned. */
  function Present(ops: seq<Option<Operation>>): seq<Operation> {
    if ops == [] then []
    else Present(ops[..|ops| - 1]) + if ops[|ops| - 1].Some? then [ops[|ops| - 1].value] else []
  }

  lemma {:induction false} PresentAll(ops: seq<Option<Operation>>)
    requires forall i :: 0 <= i < |ops| ==> ops[i].Some?
    ensures |Present(ops)| == |ops| && forall i :: 0 <= i < |ops| ==> Present(ops)[i] == ops[i].value
  {
    if ops != [] {
      PresentAll(ops[..|ops| - 1]);
    }
  }

  // ----- stale previews -----

  /** The before-hashes the preview recorded: none for a new note, the content's digest otherwise. */
  ghost predicate Recorded(actions: seq<Action>, init: Files, hashes: map<Path, Option<Digest>>) {
    forall action :: action in actions ==>
      action.file in hashes &&
      (if action.CreateNote? then hashes[action.file].None?
       else action.file in init && hashes[action.file] == Some(Sha256(init[action.file])))
  }

  /** Every previewed file still has its previewed content. */
  ghost predicate Fresh(actions: seq<Action>, hashes: map<Path, Option<Digest>>, files: Files) {
    forall action :: action in actions && action.file in hashes && hashes[action.file].Some? ==>
      action.file in files && hashes[action.file] == Some(Sha256(files[action.file]))
  }

  method AssertPreviewHashes(store: Store, actions: seq<Action>, hashes: map<Path, Option<Digest>>)
    returns (current: bool)
    requires store.Quiet()
    modifies store`files, store`calls, store`states
    ensures store.files == old(store.files) && old(store.calls) <= store.calls
    ensures Repeats(old(store.states), store.states, store.Now())
    ensures current ==> Fresh(actions, hashes, store.files)
    ensures store.NoFaults(old(store.calls), store.calls) ==> (current <==> Fresh(actions, hashes, store.files))
  {
    current := true;
    var i := 0;
    while i < |actions| && current
      invariant i <= |actions| && store.files == old(store.files) && old(store.calls) <= store.calls
      invariant Repeats(old(store.states), store.states, store.Now())
      invariant current ==> Fresh(actions[..i], hashes, store.files)
      invariant store.NoFaults(old(store.calls), store.calls) && !current ==> !Fresh(actions, hashes, store.files)
    {
      var action := actions[i];
      assert actions[..i + 1] == actions[..i] + [action];
      if action.file in hashes && hashes[action.file].Some? {
        var _, digest := store.TryRead(action.file);
        if digest != hashes[action.file] {
          current := false;
        }
      }
      i := i + 1;
    }
    assert actions[..|actions|] == actions;
  }

  /** On a fresh preview an action still asks for exactly the step it was planned with. */
  lemma FreshStep(
    actions: seq<Action>, init: Files, hashes: map<Path, Option<Digest>>, files: Files, chosen: seq<Action>, k: nat)
    requires Recorded(actions, init, hashes) && PickedFrom(chosen, actions) && Fresh(chosen, hashes, files)
      && k < |chosen|
    ensures StepOf(chosen[k], files) == StepOf(chosen[k], init)
  {
    assert chosen[k] in actions && chosen[k] in chosen;
  }

  // ----- what holds of a job between calls -----

  ghost function Times(ids: seq<ActionId>, id: ActionId): nat {
    multiset(ids)[id]
  }

  /** Each byte-changing action has been applied at most once. */
  ghost predicate AtMostOnce(actions: seq<Action>, init: Files, executed: seq<ActionId>)
    requires PlannedSet(actions, init)
  {
    forall i :: 0 <= i < |actions| && Changes(StepOf(actions[i], init).value) ==> Times(executed, actions[i].id) <= 1
  }

  /** The last accept executed every proposed action. */
  ghost predicate FullyAccepted(record: HistoryRecord) {
    |record.proposed| <= |record.executed|
    && record.executed[|record.executed| - |record.proposed|..] == Ids(record.proposed)
  }

  ghost function Whole(actions: seq<Action>, init: Files): Execution
    requires PlannedSet(actions, init)
  {
    Execution("", StepsOf(actions, init), init, [], map[], 0)
  }

  /** No undo can succeed any more. */
  ghost predicate Spent(rows: seq<JournalEntry>, files: Files) {
    || (exists row :: row in rows && row.kind.Undo?)
    || rows == []
    || RestoreRow(rows[|rows| - 1], files).None?
  }

  ghost predicate NoAudits(rows: seq<JournalEntry>) {
    forall i :: 0 <= i < |rows| ==> !rows[i].kind.Undo?
  }

  predicate Terminal(status: JobStatus) {
    status.Rejected? || status.RolledBackJob? || status.RollbackFailed?
  }

  function ExecutedIds(record: HistoryRecord): set<ActionId> {
    set id | id in record.executed
  }

  /** The plan, which calls never change. */
  ghost predicate PlanHolds(record: HistoryRecord, init: Files) {
    && PlannedSet(record.proposed, init)
    && Recorded(record.proposed, init, record.beforeHash)
    && (forall i :: 0 <= i < |record.proposed| ==> record.proposed[i].file != "")
    && record.proposed != []
  }

  /** What holds between calls; `at` is where the job stands while it waits. */
  ghost predicate JobHolds(
    record: HistoryRecord, rows: seq<JournalEntry>, init: Files, files: Files, at: Standing)
  {
    && PlanHolds(record, init)
    && AtMostOnce(record.proposed, init, record.executed)
    && match record.status
       case AwaitingConfirmation =>
         && ExecutedIds(record) <= at.applied && Progress(record.proposed, init, at.applied, files)
         && RowsTell(record.proposed, init, rows, at) && !at.tried
       case Committed =>
         && FullyAccepted(record)
         && (UndoJob.Committed(Whole(record.proposed, init), rows, |record.proposed|, files)
             || (at.tried && Spent(rows, files)))
       case Undone => FullyAccepted(record) && files == init
       case _ => Terminal(record.status)
  }

  /** What the job has executed is there, while it waits, and once it is committed until an undo is tried. */
  lemma HoldsFulfilled(record: HistoryRecord, rows: seq<JournalEntry>, init: Files, files: Files, at: Standing)
    requires JobHolds(record, rows, init, files, at)
    requires record.status == AwaitingConfirmation || (record.status == JobStatus.Committed && !at.tried)
    ensures Fulfilled(record.proposed, init, ExecutedIds(record), files)
  {
    if record.status == AwaitingConfirmation {
      ProgressFulfils(record.proposed, init, at.applied, files, ExecutedIds(record));
    } else {
      var ops := StepsOf(record.proposed, init);
      assert ops[..|ops|] == ops;
      RunFulfils(record.proposed, init, files);
      FewerFulfilled(record.proposed, init, IdSet(record.proposed), files, ExecutedIds(record));
    }
  }

  lemma RunFulfils(actions: seq<Action>, init: Files, files: Files)
    requires PlannedSet(actions, init) && Run(StepsOf(actions, init), init) == Some(files)
    ensures Fulfilled(actions, init, IdSet(actions), files)
  {
    assert PickedFrom(actions, actions);
    NothingDone(actions, init);
    ApplyMany(actions, init, {}, init, actions);
    ProgressFulfils(actions, init, {} + IdSet(actions), files, IdSet(actions));
  }

  lemma NothingDone(actions: seq<Action>, init: Files)
    requires PlannedSet(actions, init)
    ensures Progress(actions, init, {}, init)
  {
  }

  /** Every action is among the executed ones. */
  lemma FewerFulfilled(actions: seq<Action>, init: Files, ids: set<ActionId>, files: Files, others: set<ActionId>)
    requires Fulfilled(actions, init, ids, files) && forall i :: 0 <= i < |actions| ==> actions[i].id in ids
    ensures Fulfilled(actions, init, others, files)
  {
  }

  lemma IdsDistinct(chosen: seq<Action>, id: ActionId)
    requires DistinctIds(chosen)
    ensures Times(Ids(chosen), id) <= 1
    ensures id !in IdSet(chosen) ==> Times(Ids(chosen), id) == 0
    decreases |chosen|
  {
    if chosen != [] {
      var n := |chosen| - 1;
      assert Ids(chosen) == Ids(chosen[..n]) + [chosen[n].id];
      IdsDistinct(chosen[..n], id);
      if id == chosen[n].id {
        assert id !in IdSet(chosen[..n]);
      } else if id !in IdSet(chosen) {
        assert id !in IdSet(chosen[..n]) by {
          assert forall i :: 0 <= i < n ==> chosen[..n][i] == chosen[i];
        }
      }
    }
  }

  /** An accepted list joins the executed ones; what changes bytes was not among them. */
  lemma AcceptKeepsOnce(record: HistoryRecord, init: Files, chosen: seq<Action>)
    requires PlannedSet(record.proposed, init) && AtMostOnce(record.proposed, init, record.executed)
    requires DistinctIds(chosen) && PickedFrom(chosen, record.proposed)
    requires forall i :: 0 <= i < |chosen| ==> StepOf(chosen[i], init).Some?
    requires FirstTime(chosen, |chosen|, init, ExecutedIds(record))
    ensures AtMostOnce(record.proposed, init, record.executed + Ids(chosen))
  {
    var executed: seq<ActionId> := record.executed + Ids(chosen);
    forall i | 0 <= i < |record.proposed| && Changes(StepOf(record.proposed[i], init).value)
      ensures Times(executed, record.proposed[i].id) <= 1
    {
      var id := record.proposed[i].id;
      IdsDistinct(chosen, id);
      assert Times(executed, id) == Times(record.executed, id) + Times(Ids(chosen), id);
      if id in IdSet(chosen) {
        var k :| 0 <= k < |chosen| && chosen[k].id == id;
        SameIdSameAction(record.proposed, i, chosen, k);
        assert id !in ExecutedIds(record);
        assert id !in record.executed;
      }
    }
  }

  lemma SameIdSameAction(actions: seq<Action>, i: nat, chosen: seq<Action>, k: nat)
    requires DistinctIds(actions) && PickedFrom(chosen, actions) && i < |actions| && k < |chosen|
    requires actions[i].id == chosen[k].id
    ensures actions[i] == chosen[k]
  {
    assert chosen[k] in actions;
    var j :| 0 <= j < |actions| && actions[j] == chosen[k];
    assert j == i;
  }

  lemma FewerFirstTime(chosen: seq<Action>, n: nat, init: Files, done: set<ActionId>, fewer: set<ActionId>)
    requires n <= |chosen| && forall i :: 0 <= i < |chosen| ==> StepOf(chosen[i], init).Some?
    requires FirstTime(chosen, n, init, done) && fewer <= done
    ensures FirstTime(chosen, n, init, fewer)
  {
  }

  lemma ExecutedMore(record: HistoryRecord, chosen: seq<Action>)
    ensures ExecutedIds(record.(executed := record.executed + Ids(chosen))) == ExecutedIds(record) + IdSet(chosen)
  {
    assert forall id :: id in Ids(chosen) <==> id in IdSet(chosen);
  }

  /** A committed accept of some of the actions leaves the job waiting for the rest. */
  lemma PartialAccept(
    record: HistoryRecord, rows: seq<JournalEntry>, init: Files, files: Files, at: Standing, chosen: seq<Action>,
    more: HistoryRecord, x: Execution, rows': seq<JournalEntry>, files': Files)
    requires JobHolds(record, rows, init, files, at) && record.status == AwaitingConfirmation
    requires DistinctIds(chosen) && Picked(chosen, record.proposed, init) && |chosen| <= |record.proposed|
    requires x.ops == StepsOf(chosen, init) && x.rows == rows && x.init == files && x.Finished(rows')
    requires Run(x.ops, files) == Some(files')
    requires !at.misled ==> Ongoing(record.proposed, init, at, chosen).Starts(x)
    requires more == record.(status := AwaitingConfirmation, executed := record.executed + Ids(chosen))
    ensures var a := Ongoing(record.proposed, init, at, chosen);
      JobHolds(more, rows', init, files', Next(a, |chosen|, at.applied + IdSet(chosen)))
  {
    hide Progress, StepOf, AtMostOnce, FirstTime, RowsTell, Next, Ongoing.Starts;
    var a := Ongoing(record.proposed, init, at, chosen);
    ApplyMany(record.proposed, init, at.applied, files, chosen);
    FewerFirstTime(chosen, |chosen|, init, at.applied, ExecutedIds(record));
    AcceptKeepsOnce(record, init, chosen);
    ExecutedMore(record, chosen);
    RowsTellNext(a, x, rows', |chosen|, at.applied + IdSet(chosen));
    NextApplied(a, |chosen|, at.applied + IdSet(chosen));
  }

  lemma NextApplied(a: Ongoing, r: nat, applied: set<ActionId>)
    requires r <= |a.chosen|
    ensures Next(a, r, applied).applied == applied && Next(a, r, applied).tried == a.at.tried
  {
  }

  /** A committed accept of all actions starts from the plan-time files. */
  lemma FullStartsAtPlan(record: HistoryRecord, init: Files, files: Files, applied: set<ActionId>)
    requires PlanHolds(record, init) && AtMostOnce(record.proposed, init, record.executed)
    requires ExecutedIds(record) <= applied && Progress(record.proposed, init, applied, files)
    requires Run(StepsOf(record.proposed, init), files).Some?
    ensures files == init && AtMostOnce(record.proposed, init, record.executed + Ids(record.proposed))
  {
    assert PickedFrom(record.proposed, record.proposed);
    ApplyMany(record.proposed, init, applied, files, record.proposed);
    NothingChanged(record.proposed, init, applied, files);
    FewerFirstTime(record.proposed, |record.proposed|, init, applied, ExecutedIds(record));
    AcceptKeepsOnce(record, init, record.proposed);
  }

  /** It commits the whole plan. */
  lemma FullAccept(
    record: HistoryRecord, rows: seq<JournalEntry>, init: Files, files: Files, at: Standing, more: HistoryRecord,
    x: Execution, rows': seq<JournalEntry>, files': Files)
    requires JobHolds(record, rows, init, files, at) && record.status == AwaitingConfirmation
    requires x.ops == StepsOf(record.proposed, init) && x.rows == rows && x.Finished(rows')
    requires Run(StepsOf(record.proposed, init), files) == Some(files')
    requires more == record.(status := JobStatus.Committed, executed := record.executed + Ids(record.proposed))
    ensures JobHolds(more, rows', init, files', at)
  {
    FullStartsAtPlan(record, init, files, at.applied);
    assert more.executed[|more.executed| - |more.proposed|..] == Ids(more.proposed);
    WholeCommits(record.proposed, init, x, rows', files');
  }

  /**
    An accept that conflicts leaves the job waiting: nothing was executed, but its first step may be applied by a
    call that raised behind its effect, and its first row may have replaced an earlier one.
  */
  lemma ConflictHolds(
    record: HistoryRecord, rows: seq<JournalEntry>, init: Files, at: Standing, chosen: seq<Action>, x: Execution,
    rows': seq<JournalEntry>, r: nat, files': Files, torn: bool)
    requires JobHolds(record, rows, init, x.init, at) && record.status == AwaitingConfirmation
    requires DistinctIds(chosen) && Picked(chosen, record.proposed, init) && 0 < |chosen| <= |record.proposed|
    requires x.ops == StepsOf(chosen, init) && x.rows == rows && x.RowsAt(rows', r) && r <= 1
    requires if torn then Run(x.ops[..1], x.init) == Some(files') else files' == x.init
    requires !at.misled ==> Ongoing(record.proposed, init, at, chosen).Starts(x)
    ensures var a := Ongoing(record.proposed, init, at, chosen);
      JobHolds(record, rows', init, files', Next(a, r, at.applied + if torn then {chosen[0].id} else {}))
  {
    hide Progress, StepOf, AtMostOnce, FirstTime, RowsTell, Ongoing.Starts, Execution.RowsAt;
    var a := Ongoing(record.proposed, init, at, chosen);
    RowsTellNext(a, x, rows', r, at.applied + if torn then {chosen[0].id} else {});
    if torn {
      assert x.ops[..1][..0] == [] && x.ops[..1] == [x.ops[0]];
      assert Run([], x.init) == Some(x.init) && Run(x.ops[..1], x.init) == Step(x.ops[0], x.init);
      ApplyNext(record.proposed, init, at.applied, x.init, chosen[0]);
    } else {
      assert at.applied + {} == at.applied;
    }
  }

  lemma WholeCommits(actions: seq<Action>, init: Files, x: Execution, rows': seq<JournalEntry>, files': Files)
    requires PlannedSet(actions, init) && x.ops == StepsOf(actions, init) && |x.rows| <= |x.ops| && x.Finished(rows')
    requires Run(x.ops, init) == Some(files')
    ensures UndoJob.Committed(Whole(actions, init), rows', |actions|, files')
  {
    assert x.ops[..|x.ops|] == x.ops;
    forall i | 0 <= i < |x.ops|
      ensures WellFormed(x.ops[i])
    {
      StepOfTouches(actions[i], init);
    }
  }
}
