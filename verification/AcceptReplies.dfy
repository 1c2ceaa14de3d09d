/** What an accept answers when no vault call fails, told from the actions and the files. */
module AcceptReplies {
  import opened Base
  import opened Vault
  import opened Transactions
  import opened HistoryStore
  import opened Executions
  import opened Executor
  import opened Policy
  import opened JobProgress
  import opened AgentJobs
  import Base64

  /** How a call on a job ends. Everything but `Ok` is an error the caller sees. */
  datatype JobReply =
    | Ok | ConfirmationRequired | JobNotFound | JobStateConflict | InvalidAction | HistoryLimitExceeded
    | TransactionFailed | RollbackError | UndoUnavailableError | UndoConflict | VaultFailure

  /** The caps an accept is checked against. */
  datatype Caps = Caps(actions: nat, bytes: nat, journal: nat)

  /** The file an action changes is not what it was at the plan. */
  ghost predicate IsStale(action: Action, plan: Files, files: Files) {
    !action.CreateNote? && (action.file !in files || At(files, action.file) != At(plan, action.file))
  }

  /** What exists must not be created or moved onto, what is missing not changed. */
  ghost predicate Forbidden(action: Action, files: Files) {
    match action
    case CreateNote(_, file, _) => file in files
    case EditNote(_, file, _) => file !in files
    case MoveNote(_, file, target) => file !in files || target == "" || target in files
  }

  /** Adds up a size over the contents the actions change. */
  function SumBefore(actions: seq<Action>, plan: Files, size: Bytes -> nat): nat {
    if actions == [] then 0
    else
      var last := actions[|actions| - 1];
      SumBefore(actions[..|actions| - 1], plan, size)
      + if last.CreateNote? || last.file !in plan then 0 else size(plan[last.file])
  }

  function Size(): Bytes -> nat {
    data => |data|
  }

  /** Before-contents are journaled as base64 text. */
  function StoredSize(): Bytes -> nat {
    data => |Base64.Encode(data)|
  }

  /** The checks of an accept, in their order. */
  ghost function Checked(
    chosen: seq<Action>, plan: Files, files: Files, rules: OtherRules, maxActions: nat): JobReply
  {
    if exists i :: 0 <= i < |chosen| && Unsupported(chosen[i], files) then InvalidAction
    else if exists i :: 0 <= i < |chosen| && IsStale(chosen[i], plan, files) then JobStateConflict
    else if chosen == [] || |chosen| > maxActions then JobStateConflict
    else if exists i :: 0 <= i < |chosen| && Forbidden(chosen[i], files) then JobStateConflict
    else if rules(seq(|chosen|, i requires 0 <= i < |chosen| => (chosen[i], FactsOf(chosen[i], files)))) then
      JobStateConflict
    else Ok
  }

  /** Checked, and within the caps: a first row that does not fit is a conflict, a later one rolls the job back. */
  ghost function Verdict(
    chosen: seq<Action>, plan: Files, files: Files, rules: OtherRules, caps: Caps): JobReply
  {
    var reply := Checked(chosen, plan, files, rules, caps.actions);
    if reply != Ok then reply
    else if SumBefore(chosen, plan, Size()) > caps.bytes then HistoryLimitExceeded
    else EndOfRun(chosen, plan, caps.journal)
  }

  ghost function EndOfRun(chosen: seq<Action>, plan: Files, journal: nat): JobReply {
    if SumBefore(chosen, plan, StoredSize()) <= journal then Ok
    else if chosen == [] || SumBefore(chosen[..1], plan, StoredSize()) > journal then JobStateConflict
    else TransactionFailed
  }

  /** The three checks in turn. */
  lemma CheckedInTurn(
    chosen: seq<Action>, plan: Files, files: Files, rules: OtherRules, maxActions: nat, valid: bool, current: bool,
    denied: bool)
    requires valid <==> forall i :: 0 <= i < |chosen| ==> !Unsupported(chosen[i], files)
    requires valid ==> (current <==> forall i :: 0 <= i < |chosen| ==> !IsStale(chosen[i], plan, files))
    requires valid && current ==>
      (denied <==>
        || chosen == [] || |chosen| > maxActions
        || (exists i :: 0 <= i < |chosen| && Forbidden(chosen[i], files))
        || rules(seq(|chosen|, i requires 0 <= i < |chosen| => (chosen[i], FactsOf(chosen[i], files)))))
    ensures Checked(chosen, plan, files, rules, maxActions) ==
      if !valid then InvalidAction else if !current || denied then JobStateConflict else Ok
  {
    hide Unsupported, IsStale, Forbidden, FactsOf;
  }

  // ----- sizes of steps -----

  function BeforeBytes(ops: seq<Operation>): nat {
    if ops == [] then 0
    else BeforeBytes(ops[..|ops| - 1]) + |ops[|ops| - 1].beforeBytes.GetOr([])|
  }

  lemma {:induction false} BytesOfSteps(chosen: seq<Action>, plan: Files)
    requires forall i :: 0 <= i < |chosen| ==> StepOf(chosen[i], plan).Some?
    ensures BeforeBytes(StepsOf(chosen, plan)) == SumBefore(chosen, plan, Size())
  {
    if chosen != [] {
      var n := |chosen| - 1;
      assert StepsOf(chosen, plan)[..n] == StepsOf(chosen[..n], plan);
      BytesOfSteps(chosen[..n], plan);
    }
  }

  lemma {:induction false} StoredOfSteps(chosen: seq<Action>, plan: Files)
    requires forall i :: 0 <= i < |chosen| ==> StepOf(chosen[i], plan).Some?
    ensures Stored(Entries(StepsOf(chosen, plan))) == SumBefore(chosen, plan, StoredSize())
  {
    hide StepOf, MakeEntry;
    if chosen != [] {
      var n := |chosen| - 1;
      assert Entries(StepsOf(chosen, plan))[..n] == Entries(StepsOf(chosen[..n], plan));
      StoredOfSteps(chosen[..n], plan);
      StoredOfStep(chosen[n], plan, n);
    }
  }

  lemma StoredOfStep(action: Action, plan: Files, n: nat)
    requires StepOf(action, plan).Some?
    ensures |MakeEntry(n, StepOf(action, plan).value).beforeBase64.GetOr("")|
      == if action.CreateNote? || action.file !in plan then 0 else StoredSize()(plan[action.file])
  {
  }

  // ----- a run without failing calls -----

  /** The rows of independent steps are stored up to the cap, and all calls of the run work. */
  lemma WithoutFaults(store: Store, x: Execution, from: nat, done: nat)
    requires Independent(x) && done <= |x.ops| && BlocksFirst(store, x, from, done)
    requires done < |x.ops| && RowFits(x, done) ==> store.faults(from + done).NoFault?
    ensures done == |x.ops| <==> Stored(Entries(x.ops)) <= x.cap
    ensures done == 0 <==> x.ops == [] || Stored(Entries(x.ops)[..1]) > x.cap
  {
    if done < |x.ops| {
      PrefixOfDisjoint(x, done + 1);
      assert Blocked(store, x, from, done);
      StoredGrows(Entries(x.ops), done + 1);
    } else if done > 0 {
      assert !Blocked(store, x, from, done - 1);
      assert Entries(x.ops)[..|x.ops|] == Entries(x.ops);
    }
    if done > 0 {
      assert !Blocked(store, x, from, 0);
    }
  }
}
