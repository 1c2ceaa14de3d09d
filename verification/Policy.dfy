/** The policy's verdict on a set of actions: what it guarantees to execution and recovery. */
module Policy {
  import opened Base
  import opened HistoryStore

  /** What preflight saw of one action. `before` and `after` are an edit's texts. */
  datatype Facts = Facts(existing: bool, targetExists: bool, before: Option<Bytes>, after: Option<Bytes>)

  /** Rules outside the model (paths, levels, budgets): may they deny this set? */
  type OtherRules = seq<(Action, Facts)> -> bool

  function MutatedPaths(action: Action): set<Path> {
    {action.file} + if action.MoveNote? && action.target != "" then {action.target} else {}
  }

  /** How many of the actions mutate `path`. */
  function Count(actions: seq<Action>, path: Path): nat {
    if actions == [] then 0
    else
      Count(actions[..|actions| - 1], path) +
      if path in MutatedPaths(actions[|actions| - 1]) then 1 else 0
  }

  ghost predicate Mutated(actions: seq<Action>, path: Path) {
    exists i :: 0 <= i < |actions| && path in MutatedPaths(actions[i])
  }

  ghost predicate Shared(actions: seq<Action>, path: Path) {
    exists i, j :: 0 <= i < j < |actions| && path in MutatedPaths(actions[i]) && path in MutatedPaths(actions[j])
  }

  ghost predicate PairwiseDisjoint(actions: seq<Action>) {
    forall i, j :: 0 <= i < j < |actions| ==> MutatedPaths(actions[i]) !! MutatedPaths(actions[j])
  }

  lemma {:induction false} CountMutated(actions: seq<Action>, path: Path)
    ensures Count(actions, path) > 0 <==> Mutated(actions, path)
  {
    if actions != [] {
      var n := |actions| - 1;
      CountMutated(actions[..n], path);
      if Mutated(actions[..n], path) {
        var i :| 0 <= i < n && path in MutatedPaths(actions[..n][i]);
        assert path in MutatedPaths(actions[i]);
      }
      if i :| 0 <= i < |actions| && path in MutatedPaths(actions[i]) {
        assert i < n ==> path in MutatedPaths(actions[..n][i]);
      }
    }
  }

  lemma {:induction false} CountShared(actions: seq<Action>, path: Path)
    ensures Count(actions, path) > 1 <==> Shared(actions, path)
  {
    if actions != [] {
      var n := |actions| - 1;
      var front := actions[..n];
      CountShared(front, path);
      CountMutated(front, path);
      if i, j :| 0 <= i < j < |actions| && path in MutatedPaths(actions[i]) && path in MutatedPaths(actions[j]) {
        assert front[i] == actions[i];
        assert j < n ==> front[j] == actions[j];
      }
      if i, j :| 0 <= i < j < n && path in MutatedPaths(front[i]) && path in MutatedPaths(front[j]) {
        assert actions[i] == front[i] && actions[j] == front[j];
      }
      if i :| 0 <= i < n && path in MutatedPaths(front[i]) {
        assert actions[i] == front[i];
      }
    }
  }

  lemma DisjointIffNothingShared(actions: seq<Action>)
    ensures PairwiseDisjoint(actions) <==> forall path :: !Shared(actions, path)
  {
    if forall path :: !Shared(actions, path) {
      forall i, j | 0 <= i < j < |actions|
        ensures MutatedPaths(actions[i]) !! MutatedPaths(actions[j])
      {
        forall path | path in MutatedPaths(actions[i])
          ensures path !in MutatedPaths(actions[j])
        {
          assert !Shared(actions, path);
        }
      }
    }
  }

  function Tally(seen: map<Path, nat>, path: Path): nat {
    if path in seen then seen[path] else 0
  }

  /** Paths that more than one action mutates; empty exactly when the actions are pairwise disjoint. */
  method ConflictingPaths(actions: seq<Action>) returns (conflict: set<Path>)
    ensures forall path :: path in conflict <==> Shared(actions, path)
    ensures conflict == {} <==> PairwiseDisjoint(actions)
  {
    var seen: map<Path, nat> := map[];
    for i := 0 to |actions|
      invariant forall path :: Tally(seen, path) == Count(actions[..i], path)
    {
      assert actions[..i + 1][..i] == actions[..i];
      var paths := MutatedPaths(actions[i]);
      seen := map path | path in seen.Keys + paths :: Tally(seen, path) + if path in paths then 1 else 0;
    }
    assert actions[..|actions|] == actions;
    conflict := set path | path in seen && seen[path] > 1;
    forall path
      ensures path in conflict <==> Shared(actions, path)
    {
      assert Tally(seen, path) == Count(actions, path);
      CountShared(actions, path);
    }
    DisjointIffNothingShared(actions);
  }

  /** The rules that look at the vault: what exists must not be created, what is missing not changed. */
  predicate StateDenies(action: Action, facts: Facts) {
    match action
    case CreateNote(_, _, _) => facts.existing
    case EditNote(_, _, _) => !facts.existing
    case MoveNote(_, _, target) => !facts.existing || target == "" || facts.targetExists
  }

  /** Deny precedence: the whole set is denied when any rule denies any of it. */
  method EvaluateSet(actions: seq<Action>, facts: seq<Facts>, rules: OtherRules, maxActions: nat) returns (denied: bool)
    requires |facts| == |actions|
    ensures !denied ==> actions != [] && |actions| <= maxActions && PairwiseDisjoint(actions)
    ensures !denied ==> forall i :: 0 <= i < |actions| ==> !StateDenies(actions[i], facts[i])
    ensures !denied ==> !rules(seq(|actions|, i requires 0 <= i < |actions| => (actions[i], facts[i])))
    ensures denied ==>
      || actions == [] || |actions| > maxActions || !PairwiseDisjoint(actions)
      || rules(seq(|actions|, i requires 0 <= i < |actions| => (actions[i], facts[i])))
      || exists i :: 0 <= i < |actions| && StateDenies(actions[i], facts[i])
  {
    if actions == [] || |actions| > maxActions {
      return true;
    }
    var conflict := ConflictingPaths(actions);
    if conflict != {} {
      return true;
    }
    denied := rules(seq(|actions|, i requires 0 <= i < |actions| => (actions[i], facts[i])));
    var ruled := denied;
    for i := 0 to |actions|
      invariant denied <==> ruled || exists k :: 0 <= k < i && StateDenies(actions[k], facts[k])
    {
      if StateDenies(actions[i], facts[i]) {
        denied := true;
      }
    }
  }
}
