/** What a job's actions have done to the vault, as accepted sets of them are applied. */
module JobProgress {
  import opened Base
  import opened Vault
  import opened Transactions
  import opened HistoryStore
  import opened PlannedSteps
  import opened Policy

  /** The step an action asks for on these files; None when it cannot be planned. */
  function StepOf(action: Action, files: Files): Option<Operation> {
    match action
    case CreateNote(_, file, content) =>
      Some(Operation(Create, file, false, None, None, Some(content), None, "", ""))
    case EditNote(_, file, change) =>
      if file !in files then None
      else
        var before := files[file];
        var after := change(before);
        if after.None? then None
        else Some(Operation(Update, file, true, Some(before), Some(Sha256(before)), after, None, "", ""))
    case MoveNote(_, file, target) =>
      if file !in files || target == "" || file == "" then None
      else
        var before := files[file];
        Some(Operation(Move, target, true, Some(before), Some(Sha256(before)), Some(before), Some(Sha256(before)), "",
          file))
  }

  lemma StepOfTouches(action: Action, files: Files)
    requires StepOf(action, files).Some?
    ensures Touched(StepOf(action, files).value) == MutatedPaths(action)
    ensures WellFormed(StepOf(action, files).value)
  {
  }

  /** What the action asks for is there. */
  ghost predicate CarriedOut(action: Action, plan: Files, files: Files) {
    match action
    case CreateNote(_, file, content) => At(files, file) == Some(content)
    case EditNote(_, file, change) =>
      file in plan && change(plan[file]).Some? && At(files, file) == change(plan[file])
    case MoveNote(_, file, target) =>
      file in plan && At(files, target) == Some(plan[file]) && file !in files
  }

  /** A step that is applied does what its action asks for, and nothing less. */
  lemma AppliedIsCarriedOut(action: Action, plan: Files, files: Files)
    requires StepOf(action, plan).Some? && PlannedFor(StepOf(action, plan).value, plan)
    ensures InAfter(StepOf(action, plan).value, files) <==> CarriedOut(action, plan, files)
  {
  }

  /** The paths an action names. */
  predicate Names(action: Action, path: Path) {
    path == action.file || (action.MoveNote? && path == action.target)
  }

  ghost predicate NothingElse(actions: seq<Action>, plan: Files, files: Files) {
    forall path :: (forall i :: 0 <= i < |actions| ==> !Names(actions[i], path)) ==> At(files, path) == At(plan, path)
  }

  /** Each of the actions with these ids is carried out, and at paths that no action names everything is as planned. */
  ghost predicate Fulfilled(actions: seq<Action>, plan: Files, ids: set<ActionId>, files: Files) {
    && (forall i :: 0 <= i < |actions| && actions[i].id in ids ==> CarriedOut(actions[i], plan, files))
    && NothingElse(actions, plan, files)
  }

  function StepsOf(actions: seq<Action>, files: Files): (ops: seq<Operation>)
    requires forall i :: 0 <= i < |actions| ==> StepOf(actions[i], files).Some?
    ensures |ops| == |actions| && forall i :: 0 <= i < |actions| ==> ops[i] == StepOf(actions[i], files).value
  {
    seq(|actions|, i requires 0 <= i < |actions| => StepOf(actions[i], files).value)
  }

  function Ids(actions: seq<Action>): (ids: seq<ActionId>)
    ensures |ids| == |actions| && forall i :: 0 <= i < |actions| ==> ids[i] == actions[i].id
  {
    seq(|actions|, i requires 0 <= i < |actions| => actions[i].id)
  }

  ghost predicate DistinctIds(actions: seq<Action>) {
    forall i, j :: 0 <= i < j < |actions| ==> actions[i].id != actions[j].id
  }

  /** A planned set: every action has a step, planned on these files, and no two touch the same path. */
  ghost predicate PlannedSet(actions: seq<Action>, init: Files) {
    && DistinctIds(actions)
    && PairwiseDisjoint(actions)
    && forall i :: 0 <= i < |actions| ==>
         StepOf(actions[i], init).Some? && PlannedFor(StepOf(actions[i], init).value, init)
  }

  /** The step changes the vault; an edit to identical bytes does not. */
  predicate Changes(op: Operation) {
    op.kind.Create? || op.kind.Move? || op.afterBytes != op.beforeBytes
  }

  /** The actions with an executed id are applied, the others are not, nothing else has changed. */
  ghost predicate Progress(actions: seq<Action>, init: Files, done: set<ActionId>, files: Files)
    requires PlannedSet(actions, init)
  {
    && (forall i :: 0 <= i < |actions| ==>
          var op := StepOf(actions[i], init).value;
          if actions[i].id in done then InAfter(op, files) else InBefore(op, init, files))
    && forall path :: !Mutated(actions, path) ==> At(files, path) == At(init, path)
  }

  /** Where a job has got to, the applied actions are carried out and nothing else has happened. */
  lemma ProgressFulfils(actions: seq<Action>, init: Files, done: set<ActionId>, files: Files, ids: set<ActionId>)
    requires PlannedSet(actions, init) && Progress(actions, init, done, files) && ids <= done
    ensures Fulfilled(actions, init, ids, files)
  {
    forall i | 0 <= i < |actions| && actions[i].id in ids
      ensures CarriedOut(actions[i], init, files)
    {
      AppliedIsCarriedOut(actions[i], init, files);
    }
    forall path | forall i :: 0 <= i < |actions| ==> !Names(actions[i], path)
      ensures At(files, path) == At(init, path)
    {
      assert !Mutated(actions, path);
    }
  }

  lemma StepLands(op: Operation, init: Files, files: Files)
    requires PlannedFor(op, init) && Step(op, files).Some?
    ensures InAfter(op, Step(op, files).value) && SameElsewhere(op, files, Step(op, files).value)
    ensures Changes(op) ==> !InAfter(op, files)
  {
  }

  /** One accepted action: it is applied now, and if it changes bytes it had not been before. */
  lemma ApplyOne(actions: seq<Action>, init: Files, done: set<ActionId>, files: Files, k: nat)
    requires PlannedSet(actions, init) && Progress(actions, init, done, files) && k < |actions|
    requires Step(StepOf(actions[k], init).value, files).Some?
    ensures Progress(actions, init, done + {actions[k].id}, Step(StepOf(actions[k], init).value, files).value)
    ensures Changes(StepOf(actions[k], init).value) ==> actions[k].id !in done
  {
    var op := StepOf(actions[k], init).value;
    var after := Step(op, files).value;
    StepLands(op, init, files);
    StepOfTouches(actions[k], init);
    forall i | 0 <= i < |actions|
      ensures var step := StepOf(actions[i], init).value;
        if actions[i].id in done + {actions[k].id} then InAfter(step, after) else InBefore(step, init, after)
    {
      if i != k {
        var step := StepOf(actions[i], init).value;
        StepOfTouches(actions[i], init);
        assert MutatedPaths(actions[if i < k then i else k]) !! MutatedPaths(actions[if i < k then k else i]);
        assert forall path :: path in Touched(step) ==> At(after, path) == At(files, path);
        assert step.path in Touched(step) && (step.kind.Move? ==> step.source in Touched(step));
        assert actions[i].id != actions[k].id;
      }
    }
    assert forall path :: !Mutated(actions, path) ==> path !in MutatedPaths(actions[k]);
  }

  /** A list of actions of the job. */
  ghost predicate PickedFrom(chosen: seq<Action>, actions: seq<Action>) {
    forall i :: 0 <= i < |chosen| ==> chosen[i] in actions
  }

  lemma PickedHaveSteps(chosen: seq<Action>, actions: seq<Action>, init: Files)
    requires PlannedSet(actions, init) && PickedFrom(chosen, actions)
    ensures forall i :: 0 <= i < |chosen| ==>
      StepOf(chosen[i], init).Some? && PlannedFor(StepOf(chosen[i], init).value, init)
  {
    forall i | 0 <= i < |chosen|
      ensures StepOf(chosen[i], init).Some? && PlannedFor(StepOf(chosen[i], init).value, init)
    {
      assert chosen[i] in actions;
    }
  }

  function IdSet(actions: seq<Action>): set<ActionId> {
    set i | 0 <= i < |actions| :: actions[i].id
  }

  lemma IdSetLast(actions: seq<Action>, n: nat)
    requires n < |actions|
    ensures IdSet(actions[..n + 1]) == IdSet(actions[..n]) + {actions[n].id}
  {
    forall i | 0 <= i < n
      ensures actions[..n + 1][i] == actions[..n][i] == actions[i]
    {
    }
    assert actions[..n + 1][n] == actions[n];
    assert forall id :: id in IdSet(actions[..n]) <==> exists i :: 0 <= i < n && actions[..n][i].id == id;
  }

  lemma ApplyNext(actions: seq<Action>, init: Files, done: set<ActionId>, files: Files, action: Action)
    requires PlannedSet(actions, init) && Progress(actions, init, done, files) && action in actions
    requires StepOf(action, init).Some? && Step(StepOf(action, init).value, files).Some?
    ensures Progress(actions, init, done + {action.id}, Step(StepOf(action, init).value, files).value)
    ensures Changes(StepOf(action, init).value) ==> action.id !in done
  {
    var k :| 0 <= k < |actions| && actions[k] == action;
    ApplyOne(actions, init, done, files, k);
  }

  ghost predicate FirstTime(chosen: seq<Action>, n: nat, init: Files, done: set<ActionId>)
    requires n <= |chosen| && forall i :: 0 <= i < |chosen| ==> StepOf(chosen[i], init).Some?
  {
    forall i :: 0 <= i < n && Changes(StepOf(chosen[i], init).value) ==> chosen[i].id !in done
  }

  lemma FirstTimeMore(chosen: seq<Action>, n: nat, init: Files, done: set<ActionId>, more: set<ActionId>)
    requires n < |chosen| && forall i :: 0 <= i < |chosen| ==> StepOf(chosen[i], init).Some?
    requires FirstTime(chosen, n, init, done) && done <= more
    requires Changes(StepOf(chosen[n], init).value) ==> chosen[n].id !in more
    ensures FirstTime(chosen, n + 1, init, done)
  {
  }

  /** The first n actions of an accepted list: applied now, the byte-changing ones for the first time. */
  lemma {:induction false} ApplyFirst(
    actions: seq<Action>, init: Files, done: set<ActionId>, files: Files, chosen: seq<Action>, n: nat)
    requires PlannedSet(actions, init) && Progress(actions, init, done, files) && PickedFrom(chosen, actions)
    requires forall i :: 0 <= i < |chosen| ==> StepOf(chosen[i], init).Some?
    requires n <= |chosen| && Run(StepsOf(chosen, init)[..n], files).Some?
    ensures Progress(actions, init, done + IdSet(chosen[..n]), Run(StepsOf(chosen, init)[..n], files).value)
    ensures FirstTime(chosen, n, init, done)
  {
    hide Progress, Step, Changes, PlannedSet;
    if n == 0 {
      assert done + IdSet(chosen[..0]) == done;
    } else {
      var before := done + IdSet(chosen[..n - 1]);
      RunPrefix(StepsOf(chosen, init), n - 1, files);
      ApplyFirst(actions, init, done, files, chosen, n - 1);
      ApplyNext(actions, init, before, Run(StepsOf(chosen, init)[..n - 1], files).value, chosen[n - 1]);
      FirstTimeMore(chosen, n - 1, init, done, before);
      IdSetLast(chosen, n - 1);
      assert before + {chosen[n - 1].id} == done + IdSet(chosen[..n]);
    }
  }

  /** An accepted list: all of it is applied now, and its byte-changing actions for the first time. */
  lemma ApplyMany(actions: seq<Action>, init: Files, done: set<ActionId>, files: Files, chosen: seq<Action>)
    requires PlannedSet(actions, init) && Progress(actions, init, done, files) && PickedFrom(chosen, actions)
    requires forall i :: 0 <= i < |chosen| ==> StepOf(chosen[i], init).Some?
    requires Run(StepsOf(chosen, init), files).Some?
    ensures Progress(actions, init, done + IdSet(chosen), Run(StepsOf(chosen, init), files).value)
    ensures FirstTime(chosen, |chosen|, init, done)
  {
    assert chosen[..|chosen|] == chosen && StepsOf(chosen, init)[..|chosen|] == StepsOf(chosen, init);
    ApplyFirst(actions, init, done, files, chosen, |chosen|);
  }

  /** Where nothing that changes bytes has been applied, the files are the plan-time files. */
  lemma NothingChanged(actions: seq<Action>, init: Files, done: set<ActionId>, files: Files)
    requires PlannedSet(actions, init) && Progress(actions, init, done, files)
    requires forall i :: 0 <= i < |actions| && Changes(StepOf(actions[i], init).value) ==> actions[i].id !in done
    ensures files == init
  {
    forall path
      ensures At(files, path) == At(init, path)
    {
      if Mutated(actions, path) {
        var i :| 0 <= i < |actions| && path in MutatedPaths(actions[i]);
        var op := StepOf(actions[i], init).value;
        StepOfTouches(actions[i], init);
        assert if actions[i].id in done then InAfter(op, files) else InBefore(op, init, files);
      }
    }
    assert forall path :: path in files <==> At(files, path).Some?;
    assert forall path :: path in init <==> At(init, path).Some?;
    assert forall path | path in files :: At(files, path) == Some(files[path]);
  }
}
