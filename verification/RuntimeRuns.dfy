/**
  Runs of the gate: any interleaving of its blocks by any number of threads, as a function on values; what
  every run keeps, and which quoted revisions can lose an edit.
*/
module RuntimeRuns {
  import opened Base
  import opened RuntimeGate

  /** Where a thread stands that is not idle. `readAt` is the revision whose settings an AI edit was built on. */
  datatype Phase =
    | InRequest(session: SessionId)
    | Computed(quoted: nat, edit: AiEdit, ai: string, readAt: nat)
    | EditingAi(quoted: nat, edit: AiEdit, ai: string, readAt: nat)
    | Switching(quoted: nat, target: Path)
    | Ending

  predicate HoldsGate(phase: Phase) {
    phase.EditingAi? || phase.Switching? || phase.Ending?
  }

  datatype Change = AiChange(edit: AiEdit) | RootChange(target: Path)

  function Changed(settings: Settings, change: Change): Settings {
    match change
    case AiChange(edit) => settings.(ai := edit(settings.ai))
    case RootChange(target) => settings.(root := target)
  }

  /** A change with the revision its caller quoted and the revision whose settings it was made from. */
  datatype Commit = Commit(quoted: nat, readAt: nat, change: Change)

  datatype Turn =
    | StartRequest(t: ThreadId, named: Option<SessionId>, write: bool)
    | EndRequest(t: ThreadId)
    | ReadAi(t: ThreadId, quoted: nat, edit: AiEdit)
    | BeginAi(t: ThreadId, pauses: bool)
    | ApplyAi(t: ThreadId, outside: Outside)
    | BeginSwitch(t: ThreadId, quoted: nat, named: Option<SessionId>, target: Path, pauses: bool)
    | ApplySwitch(t: ThreadId, outside: Outside)
    | End(t: ThreadId)

  type Threads = map<ThreadId, Phase>

  /** The gate, the threads at it, the settings since the start and the commits between them. */
  datatype Run = Run(gate: GateState, threads: Threads, past: seq<Settings>, commits: seq<Commit>) {
    function Put(t: ThreadId, phase: Phase): Run {
      this.(threads := threads[t := phase])
    }

    function Drop(t: ThreadId): Run {
      this.(threads := threads - {t})
    }

    function Changing(changing: bool): Run {
      this.(gate := gate.(changing := changing))
    }

    function Commit(settings: Settings, session: SessionId, commit: Commit): Run {
      Run(
        gate.(settings := settings, session := session, revision := gate.revision + 1), threads,
        past + [settings], commits + [commit])
    }
  }

  function StartRequestIn(s: Run, t: ThreadId, named: Option<SessionId>, write: bool): Run {
    if RequestError(s.gate, named, write).Some? then s
    else s.(gate := s.gate.(inFlight := s.gate.inFlight + 1)).Put(t, InRequest(s.gate.session))
  }

  function BeginAiIn(s: Run, t: ThreadId, phase: Phase, pauses: bool): Run
    requires phase.Computed?
  {
    if TransitionError(s.gate, phase.quoted, None, pauses).Some? then s.Drop(t)
    else s.Changing(true).Put(t, EditingAi(phase.quoted, phase.edit, phase.ai, phase.readAt))
  }

  function ApplyAiIn(s: Run, t: ThreadId, phase: Phase, outside: Outside): Run
    requires phase.EditingAi?
  {
    if AiError(outside).Some? then s.Put(t, Ending)
    else
      var commit := Commit(phase.quoted, phase.readAt, AiChange(phase.edit));
      s.Commit(s.gate.settings.(ai := phase.ai), s.gate.session, commit).Put(t, Ending)
  }

  function BeginSwitchIn(s: Run, t: ThreadId, turn: Turn): Run
    requires turn.BeginSwitch?
  {
    if TransitionError(s.gate, turn.quoted, turn.named, turn.pauses).Some? then s
    else s.Changing(true).Put(t, Switching(turn.quoted, turn.target))
  }

  function ApplySwitchIn(s: Run, t: ThreadId, phase: Phase, outside: Outside): Run
    requires phase.Switching?
  {
    if SwitchError(s.gate, phase.target, outside).Some? || IsCurrent(s.gate, phase.target) then s.Put(t, Ending)
    else
      var commit := Commit(phase.quoted, phase.quoted, RootChange(phase.target));
      s.Commit(s.gate.settings.(root := phase.target), outside.freshSession, commit).Put(t, Ending)
  }

  /** One turn of one thread; a turn the thread cannot take changes nothing. */
  function Next(s: Run, turn: Turn): Run {
    var phase := if turn.t in s.threads then Some(s.threads[turn.t]) else None;
    match turn
    case StartRequest(t, named, write) => if phase.Some? then s else StartRequestIn(s, t, named, write)
    case EndRequest(t) =>
      if phase.None? || !phase.value.InRequest? || s.gate.inFlight == 0 then s
      else s.(gate := s.gate.(inFlight := s.gate.inFlight - 1)).Drop(t)
    case ReadAi(t, quoted, edit) =>
      if phase.Some? then s else s.Put(t, Computed(quoted, edit, edit(s.gate.settings.ai), s.gate.revision))
    case BeginAi(t, pauses) =>
      if phase.None? || !phase.value.Computed? then s else BeginAiIn(s, t, phase.value, pauses)
    case ApplyAi(t, outside) =>
      if phase.None? || !phase.value.EditingAi? then s else ApplyAiIn(s, t, phase.value, outside)
    case BeginSwitch(t, _, _, _, _) => if phase.Some? then s else BeginSwitchIn(s, t, turn)
    case ApplySwitch(t, outside) =>
      if phase.None? || !phase.value.Switching? then s else ApplySwitchIn(s, t, phase.value, outside)
    case End(t) => if phase.None? || !phase.value.Ending? then s else s.Changing(false).Drop(t)
  }

  function After(s: Run, turns: seq<Turn>): Run {
    if turns == [] then s else Next(After(s, turns[..|turns| - 1]), turns[|turns| - 1])
  }

  // ----- what every run keeps -----

  function Running(threads: Threads): set<ThreadId> {
    set t | t in threads && threads[t].InRequest?
  }

  function Holders(threads: Threads): set<ThreadId> {
    set t | t in threads && HoldsGate(threads[t])
  }

  /** What a commit makes of the settings it replaces: an AI edit is that of the AI settings it was built on. */
  function Made(now: Settings, read: Settings, change: Change): Settings {
    match change
    case AiChange(edit) => now.(ai := edit(read.ai))
    case RootChange(target) => now.(root := target)
  }

  ghost predicate InHistory(past: seq<Settings>, commit: Commit, first: nat) {
    first <= commit.readAt <= commit.quoted < first + |past| - 1
  }

  /** The commit made the settings after the quoted revision from those of it. */
  ghost predicate MadeFrom(past: seq<Settings>, commit: Commit, first: nat) {
    && InHistory(past, commit, first)
    && past[commit.quoted - first + 1] ==
       Made(past[commit.quoted - first], past[commit.readAt - first], commit.change)
  }

  /** The commit applies its change to the settings of the revision it quoted. */
  ghost predicate BuildsOnQuoted(past: seq<Settings>, commit: Commit, first: nat) {
    && InHistory(past, commit, first)
    && past[commit.quoted - first + 1] == Changed(past[commit.quoted - first], commit.change)
  }

  /** The edit makes the same of what it was built on and of what it replaces. */
  ghost predicate EditAgrees(past: seq<Settings>, commit: Commit, first: nat)
    requires InHistory(past, commit, first)
  {
    commit.change.RootChange? ||
    commit.change.edit(past[commit.readAt - first].ai) == commit.change.edit(past[commit.quoted - first].ai)
  }

  /** Settings since the start, one per revision; each commit quoted the revision it replaced. */
  ghost predicate HistoryHolds(past: seq<Settings>, commits: seq<Commit>, first: nat) {
    && |past| == |commits| + 1
    && forall i :: 0 <= i < |commits| ==> commits[i].quoted == first + i && MadeFrom(past, commits[i], first)
  }

  ghost predicate PhaseHolds(phase: Phase, past: seq<Settings>, first: nat, session: SessionId)
    requires past != []
  {
    var revision := first + |past| - 1;
    match phase
    case InRequest(named) => named == session
    case Computed(quoted, edit, ai, readAt) =>
      first <= readAt <= revision && ai == edit(past[readAt - first].ai)
    case EditingAi(quoted, edit, ai, readAt) =>
      first <= readAt <= revision && quoted == revision && ai == edit(past[readAt - first].ai)
    case Switching(quoted, _) => quoted == revision
    case Ending => true
  }

  ghost predicate AllPhases(threads: Threads, past: seq<Settings>, first: nat, session: SessionId)
    requires past != []
  {
    forall t :: t in threads ==> PhaseHolds(threads[t], past, first, session)
  }

  /** The gate counts its requests, and one thread at most holds it, while it is changing. */
  ghost predicate GateHolds(g: GateState, threads: Threads) {
    && g.inFlight == |Running(threads)|
    && (g.changing <==> Holders(threads) != {}) && (g.changing ==> g.inFlight == 0)
    && forall t, u :: t in Holders(threads) && u in Holders(threads) ==> t == u
  }

  /**
    A change excludes scoped requests, every running request is in the current session, and the
    revision counts the commits, each of which quoted the revision before it.
  */
  ghost predicate RunHolds(s: Run, first: nat) {
    && GateHolds(s.gate, s.threads)
    && HistoryHolds(s.past, s.commits, first)
    && s.gate.revision == first + |s.commits| && s.gate.settings == s.past[|s.past| - 1]
    && AllPhases(s.threads, s.past, first, s.gate.session)
  }

  lemma PutThread(threads: Threads, t: ThreadId, phase: Phase)
    ensures Running(threads[t := phase]) == Running(threads) - {t} + if phase.InRequest? then {t} else {}
    ensures Holders(threads[t := phase]) == Holders(threads) - {t} + if HoldsGate(phase) then {t} else {}
  {
  }

  lemma DropThread(threads: Threads, t: ThreadId)
    ensures Running(threads - {t}) == Running(threads) - {t} && Holders(threads - {t}) == Holders(threads) - {t}
  {
  }

  lemma HistoryMore(past: seq<Settings>, commits: seq<Commit>, first: nat, next: Settings, commit: Commit)
    requires HistoryHolds(past, commits, first) && commit.quoted == first + |commits|
    requires first <= commit.readAt <= commit.quoted
    requires next == Made(past[|past| - 1], past[commit.readAt - first], commit.change)
    ensures HistoryHolds(past + [next], commits + [commit], first)
  {
    var more, all := past + [next], commits + [commit];
    forall i | 0 <= i < |all|
      ensures all[i].quoted == first + i && MadeFrom(more, all[i], first)
    {
      assert i < |commits| ==> MadeFrom(past, commits[i], first);
    }
  }

  /** A commit by the holder of the gate: every other phase still holds, because no request is running. */
  lemma CommitKeepsPhases(s: Run, first: nat, t: ThreadId, next: Settings, session: SessionId)
    requires RunHolds(s, first) && t in Holders(s.threads)
    ensures AllPhases(s.threads[t := Ending], s.past + [next], first, session)
  {
    forall u | u in s.threads && u != t
      ensures PhaseHolds(s.threads[u], s.past + [next], first, session)
    {
      assert PhaseHolds(s.threads[u], s.past, first, s.gate.session);
      assert u !in Running(s.threads) && u !in Holders(s.threads);
    }
  }

  lemma CommitHolds(s: Run, first: nat, t: ThreadId, next: Settings, session: SessionId, commit: Commit)
    requires RunHolds(s, first) && t in Holders(s.threads)
    requires commit.quoted == s.gate.revision && first <= commit.readAt <= commit.quoted
    requires next == Made(s.gate.settings, s.past[commit.readAt - first], commit.change)
    ensures RunHolds(s.Commit(next, session, commit).Put(t, Ending), first)
  {
    hide AllPhases, HistoryHolds;
    PutThread(s.threads, t, Ending);
    HistoryMore(s.past, s.commits, first, next, commit);
    CommitKeepsPhases(s, first, t, next, session);
    HistoryLengths(s.past + [next], s.commits + [commit], first);
  }

  lemma HistoryLengths(past: seq<Settings>, commits: seq<Commit>, first: nat)
    requires HistoryHolds(past, commits, first)
    ensures |past| == |commits| + 1
  {
  }

  /** Without a commit, a new phase that holds, or a phase less, keeps the run's invariant if the gate's holds. */
  lemma PutHolds(s: Run, first: nat, g: GateState, t: ThreadId, phase: Phase)
    requires RunHolds(s, first) && PhaseHolds(phase, s.past, first, s.gate.session)
    requires g.revision == s.gate.revision && g.settings == s.gate.settings && g.session == s.gate.session
    requires GateHolds(g, s.threads[t := phase])
    ensures RunHolds(s.(gate := g).Put(t, phase), first)
  {
    hide GateHolds, HistoryHolds, PhaseHolds;
  }

  lemma DropHolds(s: Run, first: nat, g: GateState, t: ThreadId)
    requires RunHolds(s, first)
    requires g.revision == s.gate.revision && g.settings == s.gate.settings && g.session == s.gate.session
    requires GateHolds(g, s.threads - {t})
    ensures RunHolds(s.(gate := g).Drop(t), first)
  {
    hide GateHolds, HistoryHolds, PhaseHolds;
  }

  lemma PresentHolds(s: Run, first: nat, t: ThreadId)
    requires RunHolds(s, first)
    ensures s.past != [] && s.gate.revision == first + |s.past| - 1 && s.gate.settings == s.past[|s.past| - 1]
    ensures GateHolds(s.gate, s.threads)
    ensures t in s.threads ==> PhaseHolds(s.threads[t], s.past, first, s.gate.session)
  {
  }

  lemma StartGate(g: GateState, threads: Threads, t: ThreadId, session: SessionId)
    requires GateHolds(g, threads) && t !in threads && !g.changing
    ensures GateHolds(g.(inFlight := g.inFlight + 1), threads[t := InRequest(session)])
  {
    PutThread(threads, t, InRequest(session));
  }

  lemma LeaveGate(g: GateState, threads: Threads, t: ThreadId)
    requires GateHolds(g, threads) && t in threads && threads[t].InRequest?
    ensures g.inFlight > 0 && GateHolds(g.(inFlight := g.inFlight - 1), threads - {t})
  {
    assert t in Running(threads);
    DropThread(threads, t);
  }

  /** A thread that neither runs a request nor holds the gate does not count. */
  lemma BesideGate(g: GateState, threads: Threads, t: ThreadId, phase: Phase)
    requires GateHolds(g, threads) && (t in threads ==> threads[t].Computed?) && phase.Computed?
    ensures GateHolds(g, threads[t := phase]) && GateHolds(g, threads - {t})
  {
    PutThread(threads, t, phase);
    DropThread(threads, t);
    assert t !in Running(threads) && t !in Holders(threads);
  }

  lemma TakeGate(g: GateState, threads: Threads, t: ThreadId, phase: Phase)
    requires GateHolds(g, threads) && !g.changing && g.inFlight == 0 && HoldsGate(phase)
    ensures GateHolds(g.(changing := true), threads[t := phase])
  {
    PutThread(threads, t, phase);
    assert t !in Running(threads);
  }

  lemma ReleaseGate(g: GateState, threads: Threads, t: ThreadId)
    requires GateHolds(g, threads) && t in threads && HoldsGate(threads[t])
    ensures GateHolds(g.(changing := false), threads - {t})
  {
    assert t in Holders(threads);
    DropThread(threads, t);
  }

  lemma RequestTurnHolds(s: Run, first: nat, turn: Turn)
    requires RunHolds(s, first) && (turn.StartRequest? || turn.EndRequest? || turn.ReadAi?)
    ensures RunHolds(Next(s, turn), first)
  {
    hide RunHolds, GateHolds;
    PresentHolds(s, first, turn.t);
    match turn
    case StartRequest(t, named, write) =>
      if t !in s.threads && RequestError(s.gate, named, write).None? {
        StartGate(s.gate, s.threads, t, s.gate.session);
        PutHolds(s, first, s.gate.(inFlight := s.gate.inFlight + 1), t, InRequest(s.gate.session));
      }
    case EndRequest(t) =>
      if t in s.threads && s.threads[t].InRequest? {
        LeaveGate(s.gate, s.threads, t);
        DropHolds(s, first, s.gate.(inFlight := s.gate.inFlight - 1), t);
      }
    case ReadAi(t, quoted, edit) =>
      if t !in s.threads {
        var phase := Computed(quoted, edit, edit(s.gate.settings.ai), s.gate.revision);
        BesideGate(s.gate, s.threads, t, phase);
        PutHolds(s, first, s.gate, t, phase);
      }
  }

  lemma BeginAiHolds(s: Run, first: nat, t: ThreadId, pauses: bool)
    requires RunHolds(s, first) && t in s.threads && s.threads[t].Computed?
    ensures RunHolds(BeginAiIn(s, t, s.threads[t], pauses), first)
  {
    hide RunHolds, GateHolds;
    PresentHolds(s, first, t);
    var phase := s.threads[t];
    var next := EditingAi(phase.quoted, phase.edit, phase.ai, phase.readAt);
    if TransitionError(s.gate, phase.quoted, None, pauses).None? {
      TakeGate(s.gate, s.threads, t, next);
      PutHolds(s, first, s.gate.(changing := true), t, next);
    } else {
      BesideGate(s.gate, s.threads, t, phase);
      DropHolds(s, first, s.gate, t);
    }
  }

  lemma GateTurnHolds(s: Run, first: nat, turn: Turn)
    requires RunHolds(s, first) && (turn.BeginAi? || turn.BeginSwitch? || turn.End?)
    ensures RunHolds(Next(s, turn), first)
  {
    hide RunHolds, GateHolds;
    PresentHolds(s, first, turn.t);
    match turn
    case BeginSwitch(t, quoted, named, target, pauses) =>
      if t !in s.threads && TransitionError(s.gate, quoted, named, pauses).None? {
        TakeGate(s.gate, s.threads, t, Switching(quoted, target));
        PutHolds(s, first, s.gate.(changing := true), t, Switching(quoted, target));
      }
    case BeginAi(t, pauses) =>
      if t in s.threads && s.threads[t].Computed? {
        BeginAiHolds(s, first, t, pauses);
      }
    case End(t) =>
      if t in s.threads && s.threads[t].Ending? {
        ReleaseGate(s.gate, s.threads, t);
        DropHolds(s, first, s.gate.(changing := false), t);
      }
  }

  lemma CommitTurnHolds(s: Run, first: nat, turn: Turn)
    requires RunHolds(s, first) && (turn.ApplyAi? || turn.ApplySwitch?)
    ensures RunHolds(Next(s, turn), first)
  {
    if turn.t in s.threads && HoldsGate(s.threads[turn.t]) {
      var phase := s.threads[turn.t];
      assert PhaseHolds(phase, s.past, first, s.gate.session) && turn.t in Holders(s.threads);
      PutThread(s.threads, turn.t, Ending);
      if turn.ApplyAi? && phase.EditingAi? {
        var commit := Commit(phase.quoted, phase.readAt, AiChange(phase.edit));
        CommitHolds(s, first, turn.t, s.gate.settings.(ai := phase.ai), s.gate.session, commit);
      } else if turn.ApplySwitch? && phase.Switching? {
        var commit := Commit(phase.quoted, phase.quoted, RootChange(phase.target));
        CommitHolds(s, first, turn.t, s.gate.settings.(root := phase.target), turn.outside.freshSession, commit);
      }
    }
  }

  lemma NextHolds(s: Run, first: nat, turn: Turn)
    requires RunHolds(s, first)
    ensures RunHolds(Next(s, turn), first)
  {
    hide Next, RunHolds;
    match turn
    case StartRequest(_, _, _) => RequestTurnHolds(s, first, turn);
    case EndRequest(_) => RequestTurnHolds(s, first, turn);
    case ReadAi(_, _, _) => RequestTurnHolds(s, first, turn);
    case BeginAi(_, _) => GateTurnHolds(s, first, turn);
    case BeginSwitch(_, _, _, _, _) => GateTurnHolds(s, first, turn);
    case End(_) => GateTurnHolds(s, first, turn);
    case ApplyAi(_, _) => CommitTurnHolds(s, first, turn);
    case ApplySwitch(_, _) => CommitTurnHolds(s, first, turn);
  }

  /** A turn adds one commit at most, and without one leaves settings, revision and session as they were. */
  ghost predicate Grows(s: Run, next: Run) {
    && s.past <= next.past && s.commits <= next.commits
    && |next.past| - |s.past| == |next.commits| - |s.commits|
    && (next.past == s.past ==>
          next.gate.settings == s.gate.settings && next.gate.revision == s.gate.revision
          && next.gate.session == s.gate.session)
  }

  lemma NextGrows(s: Run, turn: Turn)
    ensures Grows(s, Next(s, turn)) && |Next(s, turn).commits| <= |s.commits| + 1
  {
  }

  lemma {:induction false} AfterHolds(s: Run, first: nat, turns: seq<Turn>)
    requires RunHolds(s, first)
    ensures RunHolds(After(s, turns), first) && Grows(s, After(s, turns))
  {
    if turns != [] {
      hide Next, RunHolds;
      var mid := After(s, turns[..|turns| - 1]);
      AfterHolds(s, first, turns[..|turns| - 1]);
      NextHolds(mid, first, turns[|turns| - 1]);
      NextGrows(mid, turns[|turns| - 1]);
    }
  }

  /** A commit applies its change to the quoted settings exactly when its edit makes the same of both. */
  lemma BuildsExactly(past: seq<Settings>, commit: Commit, first: nat)
    requires MadeFrom(past, commit, first)
    ensures BuildsOnQuoted(past, commit, first) <==> EditAgrees(past, commit, first)
  {
  }

  /**
    No two commits quote the same revision, and a commit applies its change to the settings of the revision it
    quoted, undoing no other, exactly when its edit makes the same of the settings it was built on.
  */
  lemma HistorySays(past: seq<Settings>, commits: seq<Commit>, first: nat)
    requires HistoryHolds(past, commits, first)
    ensures past != []
    ensures forall i, j :: 0 <= i < j < |commits| ==> commits[i].quoted != commits[j].quoted
    ensures forall i :: 0 <= i < |commits| ==>
      && MadeFrom(past, commits[i], first)
      && (BuildsOnQuoted(past, commits[i], first) <==> EditAgrees(past, commits[i], first))
  {
    forall i | 0 <= i < |commits|
      ensures BuildsOnQuoted(past, commits[i], first) <==> EditAgrees(past, commits[i], first)
    {
      BuildsExactly(past, commits[i], first);
    }
  }

  lemma RequestsInSession(s: Run, first: nat)
    requires RunHolds(s, first)
    ensures forall t :: t in s.threads && s.threads[t].InRequest? ==> s.threads[t].session == s.gate.session
  {
    assert forall t :: t in s.threads ==> PhaseHolds(s.threads[t], s.past, first, s.gate.session);
  }

  // ----- which quotes lose an edit -----

  /** In this run an edit built at the present revision, with `quoted`, was not applied to what it replaced. */
  ghost predicate Loses(s: Run, turns: seq<Turn>, first: nat, quoted: nat) {
    var end := After(s, turns);
    exists i :: 0 <= i < |end.commits| && LostIn(end, end.commits[i], first, quoted, s.gate.revision)
  }

  ghost predicate LostIn(end: Run, commit: Commit, first: nat, quoted: nat, readAt: nat) {
    commit.quoted == quoted && commit.readAt == readAt && !BuildsOnQuoted(end.past, commit, first)
  }

  lemma HistoryOf(s: Run, first: nat)
    requires RunHolds(s, first)
    ensures HistoryHolds(s.past, s.commits, first)
  {
  }

  /** A revision that is there when the edit is built is safe to quote. */
  lemma PresentQuoteIsSafe(s: Run, turns: seq<Turn>, first: nat, quoted: nat)
    requires RunHolds(s, first) && quoted <= s.gate.revision
    ensures !Loses(s, turns, first, quoted)
  {
    hide RunHolds;
    AfterHolds(s, first, turns);
    var end := After(s, turns);
    HistoryOf(end, first);
    forall i | 0 <= i < |end.commits| && end.commits[i].quoted == quoted && end.commits[i].readAt == s.gate.revision
      ensures BuildsOnQuoted(end.past, end.commits[i], first)
    {
      BuildsExactly(end.past, end.commits[i], first);
    }
  }

  lemma {:induction false} AfterAppend(s: Run, a: seq<Turn>, b: seq<Turn>)
    ensures After(s, a + b) == After(After(s, a), b)
  {
    if b == [] {
      assert a + b == a;
    } else {
      assert (a + b)[..|a + b| - 1] == a + b[..|b| - 1];
      AfterAppend(s, a, b[..|b| - 1]);
    }
  }

  lemma AfterOne(s: Run, turn: Turn)
    ensures After(s, [turn]) == Next(s, turn)
  {
    assert [turn][..0] == [];
  }

  /** No request runs and nothing changes. */
  ghost predicate Idle(s: Run, first: nat) {
    RunHolds(s, first) && !s.gate.changing && s.gate.inFlight == 0
  }

  /** The history is the same. */
  ghost predicate SameHistory(s: Run, next: Run) {
    && next.past == s.past && next.commits == s.commits
    && next.gate.revision == s.gate.revision && next.gate.settings == s.gate.settings
  }

  const NOTHING_WORKS := Outside(false, false, false, true, false, false, "")
  const ALL_WORKS := Outside(true, true, true, false, true, true, "")

  /** The requests end. */
  lemma {:induction false} EndRequests(s: Run, first: nat) returns (turns: seq<Turn>)
    requires RunHolds(s, first)
    ensures var end := After(s, turns);
      RunHolds(end, first) && SameHistory(s, end) && end.gate.inFlight == 0 && end.gate.changing == s.gate.changing
    decreases s.gate.inFlight
  {
    if s.gate.inFlight == 0 {
      turns := [];
    } else {
      var t :| t in Running(s.threads);
      var next := Next(s, EndRequest(t));
      NextHolds(s, first, EndRequest(t));
      var rest := EndRequests(next, first);
      turns := [EndRequest(t)] + rest;
      AfterAppend(s, [EndRequest(t)], rest);
      AfterOne(s, EndRequest(t));
    }
  }

  /** The change that is going on fails and ends. */
  lemma EndChange(s: Run, first: nat) returns (turns: seq<Turn>)
    requires RunHolds(s, first) && s.gate.inFlight == 0
    ensures Idle(After(s, turns), first) && SameHistory(s, After(s, turns))
  {
    if !s.gate.changing {
      turns := [];
    } else {
      var t :| t in Holders(s.threads);
      var fail := if s.threads[t].EditingAi? then ApplyAi(t, NOTHING_WORKS) else ApplySwitch(t, NOTHING_WORKS);
      var mid := Next(s, fail);
      NextHolds(s, first, fail);
      assert mid.threads[t].Ending? && SameHistory(s, mid) && mid.gate.inFlight == 0;
      NextHolds(mid, first, End(t));
      turns := [fail] + [End(t)];
      AfterAppend(s, [fail], [End(t)]);
      AfterOne(s, fail);
      AfterOne(mid, End(t));
    }
  }

  lemma {:induction false} LargerThanAll(ids: set<ThreadId>) returns (bound: ThreadId)
    ensures forall t :: t in ids ==> t < bound
    decreases |ids|
  {
    if ids == {} {
      bound := 0;
    } else {
      var t :| t in ids;
      var rest := LargerThanAll(ids - {t});
      assert forall u :: u in ids ==> u == t || u in ids - {t};
      bound := if t < rest then rest else t + 1;
    }
  }

  function Longer(): AiEdit {
    ai => ai + "+"
  }

  function Same(): AiEdit {
    ai => ai
  }

  /** A fresh thread commits one edit. */
  lemma CommitOnce(s: Run, first: nat, t: ThreadId) returns (turns: seq<Turn>)
    requires Idle(s, first) && t !in s.threads
    ensures var end := After(s, turns);
      && Idle(end, first) && end.threads == s.threads && end.gate.revision == s.gate.revision + 1
      && |end.gate.settings.ai| == |s.gate.settings.ai| + 1
  {
    var quoted := s.gate.revision;
    var read := Next(s, ReadAi(t, quoted, Longer()));
    var begun := Next(read, BeginAi(t, true));
    var applied := Next(begun, ApplyAi(t, ALL_WORKS));
    assert applied.gate.revision == quoted + 1 && applied.gate.settings.ai == s.gate.settings.ai + "+";
    var end := Next(applied, End(t));
    assert end.threads == s.threads;
    turns := [ReadAi(t, quoted, Longer())] + [BeginAi(t, true)] + [ApplyAi(t, ALL_WORKS)] + [End(t)];
    AfterHolds(s, first, turns);
    AfterAppend(s, [ReadAi(t, quoted, Longer())] + [BeginAi(t, true)] + [ApplyAi(t, ALL_WORKS)], [End(t)]);
    AfterAppend(s, [ReadAi(t, quoted, Longer())] + [BeginAi(t, true)], [ApplyAi(t, ALL_WORKS)]);
    AfterAppend(s, [ReadAi(t, quoted, Longer())], [BeginAi(t, true)]);
    AfterOne(s, ReadAi(t, quoted, Longer()));
    AfterOne(read, BeginAi(t, true));
    AfterOne(begun, ApplyAi(t, ALL_WORKS));
    AfterOne(applied, End(t));
  }

  /** It commits until a revision is reached. */
  lemma {:induction false} CommitUpTo(s: Run, first: nat, t: ThreadId, revision: nat) returns (turns: seq<Turn>)
    requires Idle(s, first) && t !in s.threads && s.gate.revision <= revision
    ensures var end := After(s, turns);
      && Idle(end, first) && end.threads == s.threads && end.gate.revision == revision
      && |end.gate.settings.ai| == |s.gate.settings.ai| + (revision - s.gate.revision)
    decreases revision - s.gate.revision
  {
    if s.gate.revision == revision {
      turns := [];
    } else {
      var one := CommitOnce(s, first, t);
      var rest := CommitUpTo(After(s, one), first, t, revision);
      turns := one + rest;
      AfterAppend(s, one, rest);
    }
  }

  /** An edit built now is committed once the revision it quotes has come. */
  lemma CommitStale(s: Run, first: nat, t: ThreadId, readAt: nat, ai: string)
    requires Idle(s, first) && t in s.threads && readAt < s.gate.revision
    requires s.threads[t] == Computed(s.gate.revision, Same(), ai, readAt) && |ai| < |s.gate.settings.ai|
    ensures var end := After(s, [BeginAi(t, true)] + [ApplyAi(t, ALL_WORKS)]);
      && |end.commits| == |s.commits| + 1
      && LostIn(end, end.commits[|s.commits|], first, s.gate.revision, readAt)
  {
    var begun := Next(s, BeginAi(t, true));
    var end := Next(begun, ApplyAi(t, ALL_WORKS));
    AfterAppend(s, [BeginAi(t, true)], [ApplyAi(t, ALL_WORKS)]);
    AfterOne(s, BeginAi(t, true));
    AfterOne(begun, ApplyAi(t, ALL_WORKS));
    var quoted := s.gate.revision;
    assert end.commits[|s.commits|] == Commit(quoted, readAt, AiChange(Same()));
    assert end.past[quoted - first] == s.gate.settings && end.past[quoted - first + 1].ai == ai;
  }

  /** Any revision still to come can lose the edit that quotes it. */
  lemma FutureQuoteLoses(s: Run, first: nat, quoted: nat) returns (turns: seq<Turn>)
    requires RunHolds(s, first) && quoted > s.gate.revision
    ensures Loses(s, turns, first, quoted)
  {
    hide Next, RunHolds, LostIn;
    var ended := EndRequests(s, first);
    var ending := EndChange(After(s, ended), first);
    AfterAppend(s, ended, ending);
    var idle := After(s, ended + ending);
    var t := LargerThanAll(idle.threads.Keys);
    var read := ReadAi(t, quoted, Same());
    var stale := Next(idle, read);
    ReadIsIdle(idle, first, t, quoted);
    AfterOne(idle, read);
    AfterAppend(s, ended + ending, [read]);
    var commits := CommitUpTo(stale, first, t + 1, quoted);
    var late := After(stale, commits);
    AfterAppend(s, ended + ending + [read], commits);
    CommitStale(late, first, t, s.gate.revision, s.gate.settings.ai);
    var last := [BeginAi(t, true)] + [ApplyAi(t, ALL_WORKS)];
    turns := ended + ending + [read] + commits + last;
    AfterAppend(s, ended + ending + [read] + commits, last);
    assert LostIn(After(s, turns), After(s, turns).commits[|late.commits|], first, quoted, s.gate.revision);
  }

  lemma ReadIsIdle(s: Run, first: nat, t: ThreadId, quoted: nat)
    requires Idle(s, first) && t !in s.threads
    ensures var next := Next(s, ReadAi(t, quoted, Same()));
      && Idle(next, first) && SameHistory(s, next)
      && next.threads == s.threads[t := Computed(quoted, Same(), s.gate.settings.ai, s.gate.revision)]
  {
    NextHolds(s, first, ReadAi(t, quoted, Same()));
  }

  /** From any state of any run, an edit built now can be lost exactly when the revision it quotes is still to come. */
  lemma LosesExactly(s: Run, first: nat, quoted: nat)
    requires RunHolds(s, first)
    ensures (exists turns :: Loses(s, turns, first, quoted)) <==> quoted > s.gate.revision
  {
    if quoted > s.gate.revision {
      var turns := FutureQuoteLoses(s, first, quoted);
    } else {
      forall turns
        ensures !Loses(s, turns, first, quoted)
      {
        PresentQuoteIsSafe(s, turns, first, quoted);
      }
    }
  }

  lemma BusyExcludes(s: Run, first: nat)
    requires RunHolds(s, first)
    ensures s.gate.changing ==> s.gate.inFlight == 0
  {
  }

  function First(): AiEdit {
    ai => ai + ", first"
  }

  function Second(): AiEdit {
    ai => ai + ", second"
  }

  const START := GateState(false, 0, 0, "session", Settings("old", "", "vault"))

  /** After the second caller's commit the first one's edit still waits. */
  function Waiting(): Run {
    Run(
      START.(revision := 1, settings := Settings("old, second", "", "vault")),
      map[1 := Computed(1, First(), "old, first", 0)],
      [Settings("old", "", "vault"), Settings("old, second", "", "vault")], [Commit(0, 0, AiChange(Second()))])
  }

  const OPENING := [
    ReadAi(1, 1, First()), ReadAi(2, 0, Second()), BeginAi(2, true), ApplyAi(2, ALL_WORKS), End(2)]

  lemma OpeningWaits()
    ensures var s0 := Run(START, map[], [START.settings], []);
      var s1 := Next(s0, OPENING[0]); var s2 := Next(s1, OPENING[1]); var s3 := Next(s2, OPENING[2]);
      Next(Next(s3, OPENING[3]), OPENING[4]) == Waiting()
  {
    assert "old" + ", first" == "old, first" && "old" + ", second" == "old, second";
    var s0 := Run(START, map[], [START.settings], []);
    var s1 := Next(s0, OPENING[0]);
    assert s1.threads == map[1 := Computed(1, First(), "old, first", 0)];
    var s2 := Next(s1, OPENING[1]);
    assert s2.threads[2] == Computed(0, Second(), "old, second", 0);
    var s3 := Next(s2, OPENING[2]);
    assert s3.threads[2] == EditingAi(0, Second(), "old, second", 0);
    var s4 := Next(s3, OPENING[3]);
    assert s4.threads == map[1 := Computed(1, First(), "old, first", 0), 2 := Ending];
    assert s4.threads - {2} == map[1 := Computed(1, First(), "old, first", 0)];
  }

  lemma WaitingLoses()
    ensures var end := Next(Next(Waiting(), BeginAi(1, true)), ApplyAi(1, ALL_WORKS));
      && |end.commits| == 2 && !BuildsOnQuoted(end.past, end.commits[1], 0)
      && end.gate.settings.ai == "old, first" && end.gate.revision == 2
  {
    var begun := Next(Waiting(), BeginAi(1, true));
    assert begun.threads == map[1 := EditingAi(1, First(), "old, first", 0)];
    var end := Next(begun, ApplyAi(1, ALL_WORKS));
    assert end.commits[1] == Commit(1, 0, AiChange(First()));
    assert |end.past[2].ai| == 10 && |Changed(end.past[1], end.commits[1].change).ai| == 18;
  }
}
