/** The threads at one gate. */
module Runtime {
  import opened Base
  import opened RuntimeGate
  import opened RuntimeRuns

  class Schedule {
    const gate: Gate
    const first: nat
    var threads: Threads
    ghost var past: seq<Settings>
    ghost var commits: seq<Commit>

    constructor (gate: Gate)
      requires !gate.changing && gate.inFlight == 0
      ensures this.gate == gate && first == gate.revision && Valid()
      ensures Now() == Run(gate.Now(), map[], [gate.settings], [])
    {
      this.gate, first := gate, gate.revision;
      threads, past, commits := map[], [gate.settings], [];
    }

    ghost function Now(): Run
      reads this, gate
    {
      Run(gate.Now(), threads, past, commits)
    }

    ghost predicate Valid()
      reads this, gate
    {
      RunHolds(Now(), first)
    }

    method DoStartRequest(t: ThreadId, named: Option<SessionId>, write: bool)
      requires t !in threads
      modifies this, gate
      ensures Now() == StartRequestIn(old(Now()), t, named, write)
    {
      var error := gate.EnterRequest(named, write);
      if error.None? {
        threads := threads[t := InRequest(gate.session)];
      }
    }

    /** Outside the lock: the edit is built on the settings as they are now. */
    method DoReadAi(t: ThreadId, quoted: nat, edit: AiEdit)
      modifies this
      ensures Now() == old(Now()).Put(t, Computed(quoted, edit, edit(gate.settings.ai), gate.revision))
    {
      threads := threads[t := Computed(quoted, edit, edit(gate.settings.ai), gate.revision)];
    }

    method DoBeginAi(t: ThreadId, phase: Phase, pauses: bool)
      requires phase.Computed?
      modifies this, gate
      ensures Now() == BeginAiIn(old(Now()), t, phase, pauses)
    {
      var error := gate.EnterTransition(phase.quoted, None, pauses);
      if error.None? {
        threads := threads[t := EditingAi(phase.quoted, phase.edit, phase.ai, phase.readAt)];
      } else {
        threads := threads - {t};
      }
    }

    method DoApplyAi(t: ThreadId, phase: Phase, outside: Outside)
      requires phase.EditingAi?
      modifies this, gate
      ensures Now() == ApplyAiIn(old(Now()), t, phase, outside)
    {
      var error := gate.CommitAi(phase.ai, outside);
      if error.None? {
        past, commits :=
          past + [gate.settings], commits + [Commit(phase.quoted, phase.readAt, AiChange(phase.edit))];
      }
      threads := threads[t := Ending];
    }

    method DoBeginSwitch(t: ThreadId, turn: Turn)
      requires turn.BeginSwitch?
      modifies this, gate
      ensures Now() == BeginSwitchIn(old(Now()), t, turn)
    {
      var error := gate.EnterTransition(turn.quoted, turn.named, turn.pauses);
      if error.None? {
        threads := threads[t := Switching(turn.quoted, turn.target)];
      }
    }

    method DoApplySwitch(t: ThreadId, phase: Phase, outside: Outside)
      requires phase.Switching?
      modifies this, gate
      ensures Now() == ApplySwitchIn(old(Now()), t, phase, outside)
    {
      var error, switched := gate.SwitchVault(phase.target, outside);
      if switched {
        past, commits :=
          past + [gate.settings], commits + [Commit(phase.quoted, phase.quoted, RootChange(phase.target))];
      }
      threads := threads[t := Ending];
    }

    /** One turn of one thread; a turn the thread cannot take is skipped. */
    method Take(turn: Turn)
      requires Valid()
      modifies this, gate
      ensures Now() == Next(old(Now()), turn) && Valid()
    {
      NextHolds(Now(), first, turn);
      var phase := if turn.t in threads then Some(threads[turn.t]) else None;
      match turn
      case StartRequest(t, named, write) => if phase.None? { DoStartRequest(t, named, write); }
      case EndRequest(t) =>
        if phase.Some? && phase.value.InRequest? && gate.inFlight > 0 {
          gate.LeaveRequest();
          threads := threads - {t};
        }
      case ReadAi(t, quoted, edit) => if phase.None? { DoReadAi(t, quoted, edit); }
      case BeginAi(t, pauses) => if phase.Some? && phase.value.Computed? { DoBeginAi(t, phase.value, pauses); }
      case ApplyAi(t, outside) => if phase.Some? && phase.value.EditingAi? { DoApplyAi(t, phase.value, outside); }
      case BeginSwitch(t, _, _, _, _) => if phase.None? { DoBeginSwitch(t, turn); }
      case ApplySwitch(t, outside) =>
        if phase.Some? && phase.value.Switching? { DoApplySwitch(t, phase.value, outside); }
      case End(t) =>
        if phase.Some? && phase.value.Ending? {
          gate.LeaveTransition();
          threads := threads - {t};
        }
    }

    /**
      Any interleaving: a change never overlaps a scoped request, running requests stay in one session,
      each commit raises the revision by one, and no two commits quote the same revision. A commit applies
      its change to the settings of the revision it quoted, so that no update is lost, exactly when its edit
      makes the same of the settings it was built on; `LosesExactly` says which quotes are safe.
    */
    method Interleave(turns: seq<Turn>)
      requires Valid()
      modifies this, gate
      ensures Valid() && Now() == After(old(Now()), turns) && Grows(old(Now()), Now())
      ensures gate.changing ==> gate.inFlight == 0
      ensures forall t :: t in threads && threads[t].InRequest? ==> threads[t].session == gate.session
      ensures gate.revision == old(gate.revision) + (|commits| - |old(commits)|)
      ensures forall i, j :: 0 <= i < j < |commits| ==> commits[i].quoted != commits[j].quoted
      ensures forall i :: 0 <= i < |commits| ==>
        && MadeFrom(past, commits[i], first)
        && (BuildsOnQuoted(past, commits[i], first) <==> EditAgrees(past, commits[i], first))
    {
      hide Next, AllPhases, GateHolds, HistoryHolds, MadeFrom, BuildsOnQuoted, EditAgrees;
      ghost var start := Now();
      for i := 0 to |turns|
        invariant Valid() && Now() == After(start, turns[..i])
      {
        assert turns[..i + 1][..i] == turns[..i];
        Take(turns[i]);
      }
      assert turns[..|turns|] == turns;
      AfterHolds(start, first, turns);
      HistorySays(past, commits, first);
      RequestsInSession(Now(), first);
      BusyExcludes(Now(), first);
    }
  }

  /**
    Two callers read the settings of revision 0; the first quotes revision 1, which the second one's commit
    makes. Its edit goes through and undoes the other.
  */
  method FutureQuoteLosesEdit() returns (schedule: Schedule)
    ensures fresh(schedule) && schedule.Valid() && schedule.first == 0
    ensures schedule.gate.settings.ai == "old, first" && schedule.gate.revision == 2
    ensures |schedule.commits| == 2 && !BuildsOnQuoted(schedule.past, schedule.commits[1], 0)
  {
    hide RunHolds, Next;
    var gate := new Gate(Settings("old", "", "vault"), 0, "session");
    schedule := new Schedule(gate);
    schedule.Take(ReadAi(1, 1, First()));
    schedule.Take(ReadAi(2, 0, Second()));
    schedule.Take(BeginAi(2, true));
    schedule.Take(ApplyAi(2, ALL_WORKS));
    schedule.Take(End(2));
    OpeningWaits();
    assert schedule.Now() == Waiting();
    schedule.Take(BeginAi(1, true));
    schedule.Take(ApplyAi(1, ALL_WORKS));
    WaitingLoses();
  }
}
