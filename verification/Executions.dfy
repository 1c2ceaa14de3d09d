/** One execution of a job's steps: its rows, the states it may go through, and what it may destroy. */
module Executions {
  import opened Base
  import opened Vault
  import opened Transactions
  import opened HistoryStore
  import opened PlannedSteps

  /** Length of the stored before-texts. */
  function Stored(rows: seq<JournalEntry>): nat {
    if rows == [] then 0
    else Stored(rows[..|rows| - 1]) + |rows[|rows| - 1].beforeBase64.GetOr("")|
  }

  /** A digest that this step itself leaves at, or expects at, a path it touches. */
  ghost predicate OwnContent(op: Operation, path: Path, digest: Digest) {
    match op.kind
    case Create => path == op.path && op.afterBytes.Some? && digest == Sha256(op.afterBytes.value)
    case Update =>
      path == op.path &&
      (Some(digest) == op.beforeHash || (op.afterBytes.Some? && digest == Sha256(op.afterBytes.value)))
    case Move => (path == op.source || path == op.path) && Some(digest) == op.beforeHash
    case Undo => false
  }

  ghost predicate Owned(ops: seq<Operation>, loss: Loss) {
    exists k :: 0 <= k < |ops| && OwnContent(ops[k], loss.path, Sha256(loss.bytes))
  }

  /** Everything lost since `since` was content some step recorded as its own. */
  ghost predicate OnlyOwnLost(since: nat, lost: seq<Loss>, ops: seq<Operation>) {
    forall i :: since <= i < |lost| ==> Owned(ops, lost[i])
  }

  /** One execution: the job, its steps, what it starts from, the byte cap. */
  datatype Execution = Execution(
    job: JobId, ops: seq<Operation>, init: Files, rows: seq<JournalEntry>, records: map<JobId, HistoryRecord>, cap: nat)
  {

    /** The first r rows are this execution's, the rest are what was there before. */
    ghost predicate RowsAt(rows: seq<JournalEntry>, r: nat) {
      && r <= |ops|
      && |rows| == (if r < |this.rows| then |this.rows| else r)
      && Stored(Entries(ops)[..r]) <= cap
      && forall i :: 0 <= i < |rows| ==>
           rows[i] == (if i < r then MakeEntry(i, ops[i]) else this.rows[i]).(state := rows[i].state)
    }

    /** The first r rows are this execution's and still pending. */
    ghost predicate Fresh(rows: seq<JournalEntry>, r: nat) {
      RowsAt(rows, r) && forall i :: 0 <= i < r ==> rows[i].state == Pending
    }

    /** Every step is journaled and every row of the job is marked applied. */
    ghost predicate Finished(rows: seq<JournalEntry>) {
      RowsAt(rows, |ops|) && forall i :: 0 <= i < |rows| ==> rows[i].state == Applied
    }

    /** The first m steps are applied, and the first r >= m rows are stored within the cap. */
    ghost predicate StandsAt(s: Durable, m: nat, r: nat) {
      && m <= r && RowsAt(s.Rows(job), r) && s.records == records
      && Run(ops[..m], init) == Some(s.files)
    }

    ghost predicate Stands(s: Durable) {
      exists m: nat, r: nat :: StandsAt(s, m, r)
    }

    /** A state this execution passes through: moreover, while anything is applied those rows are live. */
    ghost predicate PassesAt(s: Durable, m: nat, r: nat) {
      StandsAt(s, m, r) && (m > 0 ==> forall i :: 0 <= i < r ==> !s.Rows(job)[i].state.RolledBack?)
    }

    ghost predicate Passes(s: Durable) {
      exists m: nat, r: nat :: PassesAt(s, m, r)
    }

    ghost predicate AllPass(states: seq<Durable>, from: nat, to: nat)
      requires to <= |states|
    {
      forall i :: from <= i < to ==> Passes(states[i])
    }

    /**
      From one log to a later one, only the steps' own content was lost and, when nobody else
      writes, every state gone through is one of this execution's.
    */
    ghost predicate Sound(was: Log, now: Log, quiet: bool) {
      && Grown(was.states, now.states) && Grown(was.lost, now.lost) && was.calls <= now.calls
      && OnlyOwnLost(|was.lost|, now.lost, ops)
      && (quiet ==> AllPass(now.states, |was.states|, |now.states|))
    }

    lemma SoundNothing(log: Log, quiet: bool)
      ensures Sound(log, log, quiet)
    {
    }

    lemma SoundTransitive(a: Log, b: Log, c: Log, quiet: bool)
      requires Sound(a, b, quiet) && Sound(b, c, quiet)
      ensures Sound(a, c, quiet)
    {
      forall i | |a.lost| <= i < |c.lost|
        ensures Owned(ops, c.lost[i])
      {
        assert i < |b.lost| ==> c.lost[i] == b.lost[i];
      }
      if quiet {
        forall i | |a.states| <= i < |c.states|
          ensures Passes(c.states[i])
        {
          assert i < |b.states| ==> c.states[i] == b.states[i];
        }
      }
    }

    /** The step after the first n was applied and changed the vault, though its call failed. */
    ghost predicate Torn(n: nat, files: Files) {
      n < |ops| && Run(ops[..n + 1], init) == Some(files) && Run(ops[..n], init).Some?
        && Run(ops[..n], init) != Some(files)
    }

    /** The first r rows are stored; of their steps each is applied or not, of the others none is. */
    ghost predicate ScatteredAt(s: Durable, r: nat) {
      && RowsAt(s.Rows(job), r) && s.records == records
      && (forall i :: 0 <= i < r ==> InBefore(ops[i], init, s.files) || InAfter(ops[i], s.files))
      && (forall i :: r <= i < |ops| ==> InBefore(ops[i], init, s.files))
      && forall path :: Untouched(ops, path) ==> At(s.files, path) == At(init, path)
    }

    ghost predicate Scattered(s: Durable) {
      exists r: nat :: ScatteredAt(s, r)
    }

    ghost predicate AllScattered(states: seq<Durable>, from: nat, to: nat)
      requires to <= |states|
    {
      forall i :: from <= i < to ==> Scattered(states[i])
    }

    /** A run with no failing call gets to the end. */
    ghost predicate Succeeds() {
      Run(ops, init).Some? && Stored(Entries(ops)) <= cap
    }
  }

  /** What a set the policy did not deny guarantees about its steps. */
  ghost predicate Independent(x: Execution) {
    AllPlanned(x.ops, x.init) && Disjoint(x.ops)
  }

  /** After the first m of pairwise disjoint steps, those are applied and everything else is as before. */
  lemma {:induction false} PrefixOfDisjoint(x: Execution, m: nat)
    requires Independent(x) && m <= |x.ops|
    ensures Run(x.ops[..m], x.init).Some?
    ensures var files := Run(x.ops[..m], x.init).value;
      && (forall i :: 0 <= i < m ==> InAfter(x.ops[i], files))
      && (forall i :: m <= i < |x.ops| ==> InBefore(x.ops[i], x.init, files))
      && forall path :: Untouched(x.ops, path) ==> At(files, path) == At(x.init, path)
  {
    if m > 0 {
      PrefixOfDisjoint(x, m - 1);
      RunPrefix(x.ops, m - 1, x.init);
      PlannedStep(x.ops[m - 1], x.init, Run(x.ops[..m - 1], x.init).value);
    }
  }

  /** Independent steps that are applied one behind the other are among those that may be applied in any order. */
  lemma StandsScattered(x: Execution, s: Durable, m: nat, r: nat)
    requires Independent(x) && x.StandsAt(s, m, r)
    ensures x.ScatteredAt(s, r) && x.Scattered(s)
  {
    PrefixOfDisjoint(x, m);
    assert x.ScatteredAt(s, r);
  }

  lemma PassingIsScattered(x: Execution, states: seq<Durable>, from: nat, to: nat)
    requires Independent(x) && to <= |states| && x.AllPass(states, from, to)
    ensures x.AllScattered(states, from, to)
  {
    forall i | from <= i < to
      ensures x.Scattered(states[i])
    {
      var m: nat, r: nat :| x.PassesAt(states[i], m, r);
      StandsScattered(x, states[i], m, r);
    }
  }

  // ----- taking back one of independent steps -----

  /** Moreover the first n steps are all applied. */
  ghost predicate Spread(x: Execution, s: Durable, n: nat, r: nat) {
    x.ScatteredAt(s, r) && n <= r && forall i :: 0 <= i < n ==> InAfter(x.ops[i], s.files)
  }

  /** The files that differ in one step, which has been taken back. */
  lemma SpreadBack(x: Execution, s: Durable, i: nat, r: nat)
    requires Independent(x) && Spread(x, s, i + 1, r)
    ensures var before := TakenBack(x.ops[i], s.files);
      && Step(x.ops[i], before) == Some(s.files)
      && Spread(x, s.(files := before), i, r)
  {
    var op, t := x.ops[i], s.(files := TakenBack(x.ops[i], s.files));
    TakenBackStep(op, x.init, s.files);
    forall k | 0 <= k < |x.ops| && k != i
      ensures InAfter(x.ops[k], s.files) ==> InAfter(x.ops[k], t.files)
      ensures InBefore(x.ops[k], x.init, s.files) ==> InBefore(x.ops[k], x.init, t.files)
    {
      KeptElsewhere(x.ops[k], op, x.init, s.files, t.files) by {
        assert Touched(x.ops[if k < i then k else i]) !! Touched(x.ops[if k < i then i else k]);
      }
    }
    assert forall path :: Untouched(x.ops, path) ==> path !in Touched(op);
  }

  lemma MarkedScattered(x: Execution, s: Durable, s': Durable, r: nat, state: RowState)
    requires x.ScatteredAt(s, r) && s'.records == s.records && s'.files == s.files
    requires s'.Rows(x.job) == Marked(s.Rows(x.job), state)
    ensures x.ScatteredAt(s', r) && x.Scattered(s')
  {
    assert x.ScatteredAt(s', r);
  }
}
