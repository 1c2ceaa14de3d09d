/** Where a planned job stands between its accepts, and what an accept that crashes leaves to recovery. */
module JobStanding {
  import opened Vault
  import opened Transactions
  import opened HistoryStore
  import opened PlannedSteps
  import opened Executions
  import opened Recovery
  import opened CrashRecovery
  import opened Policy
  import opened JobProgress

  /**
    Which actions are applied, those of a call that raised behind its effect included, and whose rows are in the
    journal. `misled` says that some accept passed its check although a read in it failed, so that a step may have
    been planned on files that are not there; `tried` says that an undo of the committed job has been tried.
  */
  datatype Standing = Standing(applied: set<ActionId>, journaled: seq<Action>, misled: bool, tried: bool)

  ghost predicate Picked(some: seq<Action>, actions: seq<Action>, plan: Files) {
    PickedFrom(some, actions) && forall i :: 0 <= i < |some| ==> StepOf(some[i], plan).Some?
  }

  ghost predicate RowsOf(rows: seq<JournalEntry>, steps: seq<Operation>) {
    |rows| == |steps| && forall i :: 0 <= i < |rows| ==> rows[i] == MakeEntry(i, steps[i]).(state := rows[i].state)
  }

  /** The rows are those of accepted actions; behind the first row they are applied. */
  ghost predicate RowsTell(actions: seq<Action>, plan: Files, rows: seq<JournalEntry>, at: Standing) {
    && |rows| <= |actions| && Picked(at.journaled, actions, plan)
    && RowsOf(rows, StepsOf(at.journaled, plan))
    && (forall i :: 1 <= i < |at.journaled| ==> at.journaled[i].id in at.applied)
    && (!at.misled ==> AllApart(StepsOf(at.journaled, plan)))
  }

  /** Audit rows are none of these. */
  lemma RowsAreSteps(actions: seq<Action>, plan: Files, rows: seq<JournalEntry>, at: Standing)
    requires RowsTell(actions, plan, rows, at)
    ensures forall i :: 0 <= i < |rows| ==> !rows[i].kind.Undo?
  {
    forall i | 0 <= i < |rows|
      ensures !rows[i].kind.Undo?
    {
      StepOfTouches(at.journaled[i], plan);
    }
  }

  // ----- steps of a planned set -----

  lemma StepsOfApart(actions: seq<Action>, plan: Files, a: Action, b: Action)
    requires PlannedSet(actions, plan) && a in actions && b in actions && a.id != b.id
    ensures StepOf(a, plan).Some? && StepOf(b, plan).Some?
    ensures Touched(StepOf(a, plan).value) !! Touched(StepOf(b, plan).value)
  {
    var i :| 0 <= i < |actions| && actions[i] == a;
    var j :| 0 <= j < |actions| && actions[j] == b;
    assert MutatedPaths(actions[if i < j then i else j]) !! MutatedPaths(actions[if i < j then j else i]);
    StepOfTouches(a, plan);
    StepOfTouches(b, plan);
  }

  /** The steps of accepted actions of a planned set are what recovery relies on: planned, and disjoint. */
  lemma AcceptedIsIndependent(actions: seq<Action>, init: Files, chosen: seq<Action>, x: Execution)
    requires PlannedSet(actions, init) && PickedFrom(chosen, actions) && DistinctIds(chosen)
    requires forall i :: 0 <= i < |chosen| ==> StepOf(chosen[i], init).Some?
    requires x.ops == StepsOf(chosen, init) && x.init == init
    ensures Independent(x)
  {
    PickedHaveSteps(chosen, actions, init);
    forall i, j | 0 <= i < j < |chosen|
      ensures Touched(x.ops[i]) !! Touched(x.ops[j])
    {
      StepsOfApart(actions, init, chosen[i], chosen[j]);
    }
  }

  /** An action of a planned set between its accepts: its step is applied, or still to be applied as planned. */
  lemma StepInProgress(actions: seq<Action>, plan: Files, done: set<ActionId>, files: Files, action: Action)
    requires PlannedSet(actions, plan) && Progress(actions, plan, done, files) && action in actions
    ensures StepOf(action, plan).Some?
    ensures var op := StepOf(action, plan).value;
      && (InBefore(op, plan, files) <==> !(Changes(op) && action.id in done))
      && (InBefore(op, plan, files) || InAfter(op, files))
      && PlannedFor(op, plan) && (PlannedFor(op, files) <==> InBefore(op, plan, files))
  {
    var k :| 0 <= k < |actions| && actions[k] == action;
    var op := StepOf(action, plan).value;
    assert op.path in Touched(op) && (op.kind.Move? ==> op.source in Touched(op));
    if InBefore(op, plan, files) {
      PlannedMoves(op, plan, files);
    }
  }

  // ----- an accept -----

  /** A planned set in the middle of its accepts, and the actions accepted now. */
  datatype Ongoing = Ongoing(actions: seq<Action>, plan: Files, at: Standing, chosen: seq<Action>) {
    /** What the accept starts from: rows of earlier accepts, and its own steps planned on the files there are. */
    ghost predicate Starts(x: Execution) {
      && PlannedSet(actions, plan) && Progress(actions, plan, at.applied, x.init)
      && !at.misled && RowsTell(actions, plan, x.rows, at)
      && Picked(chosen, actions, plan) && DistinctIds(chosen)
      && x.ops == StepsOf(chosen, plan) && AllPlanned(x.ops, x.init)
    }

    ghost function Past(): Past
      requires Picked(at.journaled, actions, plan)
    {
      CrashRecovery.Past(StepsOf(at.journaled, plan), plan)
    }
  }

  /** An action accepted again behind an earlier row of its own changes no byte. */
  lemma AcceptedAgain(a: Ongoing, x: Execution, i: nat, j: nat)
    requires a.Starts(x) && j < i < |a.at.journaled| && j < |a.chosen|
    ensures Apart(x.ops[j], a.Past().steps[i])
  {
    hide Progress, PlannedSet, RowsOf, InBefore, InAfter;
    var earlier, now := a.at.journaled[i], a.chosen[j];
    if earlier.id != now.id {
      StepsOfApart(a.actions, a.plan, now, earlier);
    } else {
      StepInProgress(a.actions, a.plan, a.at.applied, x.init, now);
      SameAction(a.actions, a.plan, earlier, now);
    }
  }

  lemma SameAction(actions: seq<Action>, plan: Files, a: Action, b: Action)
    requires PlannedSet(actions, plan) && a in actions && b in actions && a.id == b.id
    ensures a == b
  {
    var i :| 0 <= i < |actions| && actions[i] == a;
    var j :| 0 <= j < |actions| && actions[j] == b;
    assert i == j;
  }

  /** An accept starts behind the earlier ones and apart from their steps. */
  lemma AcceptStartsAfter(a: Ongoing, x: Execution)
    requires a.Starts(x)
    ensures Picked(a.at.journaled, a.actions, a.plan) && StartsAfter(x, a.Past())
  {
    hide InBefore, InAfter, PlannedFor, Touched, Progress, PlannedSet, Changes, StepOf, Disjoint, Idle;
    AcceptedIsIndependent(a.actions, a.plan, a.chosen, x.(init := a.plan));
    forall i, j | 0 <= j < i < |a.at.journaled| && j < |a.chosen|
      ensures Apart(x.ops[j], a.Past().steps[i])
    {
      AcceptedAgain(a, x, i, j);
    }
    forall i | 0 <= i < |a.at.journaled|
      ensures PlannedFor(a.Past().steps[i], a.plan)
      ensures InBefore(a.Past().steps[i], a.plan, x.init) || InAfter(a.Past().steps[i], x.init)
    {
      StepInProgress(a.actions, a.plan, a.at.applied, x.init, a.at.journaled[i]);
    }
  }

  /** Where the job stands when the first r rows of the accept have replaced earlier ones. */
  ghost function Next(a: Ongoing, r: nat, applied: set<ActionId>): Standing
    requires r <= |a.chosen|
  {
    var rest := if r < |a.at.journaled| then a.at.journaled[r..] else [];
    Standing(applied, a.chosen[..r] + rest, a.at.misled, a.at.tried)
  }

  /** The rows that an accept leaves are again those of accepted actions. */
  lemma RowsTellNext(a: Ongoing, x: Execution, rows: seq<JournalEntry>, r: nat, applied: set<ActionId>)
    requires RowsTell(a.actions, a.plan, x.rows, a.at) && Picked(a.chosen, a.actions, a.plan)
    requires |a.chosen| <= |a.actions| && x.ops == StepsOf(a.chosen, a.plan) && x.RowsAt(rows, r)
    requires a.at.applied <= applied && forall i :: 1 <= i < r ==> a.chosen[i].id in applied
    requires !a.at.misled ==> a.Starts(x)
    ensures RowsTell(a.actions, a.plan, rows, Next(a, r, applied))
  {
    hide StepOf, PlannedSet, Progress, Apart, Stored, Entries, AllPlanned, MakeEntry, StartsAfter;
    var next := Next(a, r, applied);
    forall i | 0 <= i < |next.journaled|
      ensures next.journaled[i] == if i < r then a.chosen[i] else a.at.journaled[i]
    {
    }
    if !a.at.misled {
      AcceptStartsAfter(a, x);
      StepsApart(x, a.Past(), r);
      assert StepsOf(next.journaled, a.plan) == Steps(x, a.Past(), r);
    }
  }

  // ----- crashes -----

  ghost predicate Shelters(a: Ongoing, x: Execution, job: JobId, s: Durable) {
    x.job == job && a.Starts(x) && x.Scattered(s)
  }

  /** What a crash must find: a job that is flagged is in the middle of an accept that recovery knows about. */
  ghost predicate Sheltered(actions: seq<Action>, plan: Files, job: JobId, s: Durable) {
    job in s.records && Flagged(s.records[job].status) ==>
      exists a: Ongoing, x: Execution :: a.actions == actions && a.plan == plan && Shelters(a, x, job, s)
  }

  lemma ShelterRecords(a: Ongoing, x: Execution, job: JobId, s: Durable)
    requires Shelters(a, x, job, s)
    ensures s.records == x.records
  {
    var r: nat :| x.ScatteredAt(s, r);
  }

  ghost predicate AllSheltered(actions: seq<Action>, plan: Files, job: JobId, states: seq<Durable>, from: nat) {
    forall i :: from <= i < |states| ==> Sheltered(actions, plan, job, states[i])
  }
}
