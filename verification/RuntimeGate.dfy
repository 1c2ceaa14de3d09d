/** The runtime's gate between scoped requests and settings changes; each lock-held block is one atomic method. */
module RuntimeGate {
  import opened Base

  type SessionId = string

  type ThreadId = nat

  datatype Settings = Settings(ai: string, rag: string, root: Path)

  /** An AI edit builds on the settings it reads. */
  type AiEdit = string -> string

  datatype SettingsError =
    | WorkspaceSwitching | SessionRequired | SessionChanged | RuntimeBusy | SettingsConflict
    | RuntimeUnavailable | ApplyFailed | IndexBuilding | InvalidRoot | SwitchFailed

  /** What the parts outside the model do for one change: the scheduler pauses, startup is complete, the save works. */
  datatype Outside = Outside(
    pauses: bool, started: bool, saved: bool, indexing: bool, outsideVault: bool, prepared: bool,
      freshSession: SessionId)

  // ----- what one block decides -----

  datatype GateState = GateState(
    changing: bool, inFlight: nat, revision: nat, session: SessionId, settings: Settings)

  /** A scoped request begins: not during a change, and only in the session it names. */
  function RequestError(g: GateState, named: Option<SessionId>, write: bool): Option<SettingsError> {
    if g.changing then Some(WorkspaceSwitching)
    else if write && named.GetOr("") == "" then Some(SessionRequired)
    else if named.GetOr("") != "" && named.GetOr("") != g.session then Some(SessionChanged)
    else None
  }

  /** A change begins: nothing else runs, and the quoted revision and session are current. */
  function TransitionError(g: GateState, quoted: nat, named: Option<SessionId>, pauses: bool): Option<SettingsError> {
    if g.changing || g.inFlight > 0 then Some(RuntimeBusy)
    else if quoted != g.revision then Some(SettingsConflict)
    else if named.Some? && named.value != g.session then Some(SessionChanged)
    else if !pauses then Some(RuntimeBusy)
    else None
  }

  function AiError(outside: Outside): Option<SettingsError> {
    if !outside.started then Some(RuntimeUnavailable) else if !outside.saved then Some(ApplyFailed) else None
  }

  /** The current vault is not switched to; it stays. */
  predicate IsCurrent(g: GateState, target: Path) {
    g.settings.root != "" && target == g.settings.root
  }

  function SwitchError(g: GateState, target: Path, outside: Outside): Option<SettingsError> {
    if IsCurrent(g, target) then None
    else if outside.indexing then Some(IndexBuilding)
    else if !outside.outsideVault then Some(InvalidRoot)
    else if !outside.prepared || !outside.saved then Some(SwitchFailed)
    else None
  }

  // ----- which refusal stands for what -----

  lemma RequestRefusals(g: GateState, named: Option<SessionId>, write: bool)
    ensures var error := RequestError(g, named, write); var names := named.Some? && named.value != "";
      && (error == Some(WorkspaceSwitching) <==> g.changing)
      && (error == Some(SessionRequired) <==> !g.changing && write && !names)
      && (error == Some(SessionChanged) <==> !g.changing && names && named.value != g.session)
      && (error == None <==> !g.changing && (names ==> named.value == g.session) && (write ==> names))
  {
  }

  lemma ChangeRefusals(g: GateState, quoted: nat, named: Option<SessionId>, pauses: bool)
    ensures var error := TransitionError(g, quoted, named, pauses);
      var idle := !g.changing && g.inFlight == 0; var current := named == None || named == Some(g.session);
      && (error == Some(SettingsConflict) <==> idle && quoted != g.revision)
      && (error == Some(SessionChanged) <==> idle && quoted == g.revision && !current)
      && (error == Some(RuntimeBusy) <==> !idle || (quoted == g.revision && current && !pauses))
      && (error == None <==> idle && quoted == g.revision && current && pauses)
  {
  }

  lemma CommitRefusals(g: GateState, target: Path, outside: Outside)
    ensures var (ai, switch) := (AiError(outside), SwitchError(g, target, outside));
      var current := g.settings.root != "" && g.settings.root == target;
      && (ai == Some(RuntimeUnavailable) <==> !outside.started)
      && (ai == Some(ApplyFailed) <==> outside.started && !outside.saved)
      && (ai == None <==> outside.started && outside.saved)
      && (switch == Some(IndexBuilding) <==> !current && outside.indexing)
      && (switch == Some(InvalidRoot) <==> !current && !outside.indexing && !outside.outsideVault)
      && (switch == Some(SwitchFailed) <==>
            !current && !outside.indexing && outside.outsideVault && !(outside.prepared && outside.saved))
      && (switch == None <==>
            current || (!outside.indexing && outside.outsideVault && outside.prepared && outside.saved))
  {
  }

  class Gate {
    var changing: bool
    var inFlight: nat
    var revision: nat
    var session: SessionId
    var settings: Settings

    constructor (settings: Settings, revision: nat, session: SessionId)
      ensures Now() == GateState(false, 0, revision, session, settings)
    {
      this.settings, this.revision, this.session := settings, revision, session;
      changing, inFlight := false, 0;
    }

    ghost function Now(): GateState
      reads this
    {
      GateState(changing, inFlight, revision, session, settings)
    }

    method EnterRequest(named: Option<SessionId>, write: bool) returns (error: Option<SettingsError>)
      modifies this`inFlight
      ensures error == RequestError(old(Now()), named, write)
      ensures inFlight == old(inFlight) + if error.None? then 1 else 0
    {
      var name := named.GetOr("");
      if changing {
        error := Some(WorkspaceSwitching);
      } else if write && name == "" {
        error := Some(SessionRequired);
      } else if name != "" && name != session {
        error := Some(SessionChanged);
      } else {
        inFlight := inFlight + 1;
        error := None;
      }
    }

    method LeaveRequest()
      requires inFlight > 0
      modifies this`inFlight
      ensures inFlight == old(inFlight) - 1
    {
      inFlight := inFlight - 1;
    }

    method EnterTransition(quoted: nat, named: Option<SessionId>, pauses: bool) returns (error: Option<SettingsError>)
      modifies this`changing
      ensures error == TransitionError(old(Now()), quoted, named, pauses)
      ensures changing == (old(changing) || error.None?)
    {
      if changing || inFlight > 0 {
        error := Some(RuntimeBusy);
      } else if quoted != revision {
        error := Some(SettingsConflict);
      } else if named.Some? && named.value != session {
        error := Some(SessionChanged);
      } else if !pauses {
        error := Some(RuntimeBusy);
      } else {
        changing := true;
        error := None;
      }
    }

    method LeaveTransition()
      modifies this`changing
      ensures !changing
    {
      changing := false;
    }

    /** Applies one AI configuration, or keeps the previous one. */
    method CommitAi(ai: string, outside: Outside) returns (error: Option<SettingsError>)
      modifies this`settings, this`revision
      ensures error == AiError(outside)
      ensures error.None? ==> settings == old(settings).(ai := ai) && revision == old(revision) + 1
      ensures error.Some? ==> settings == old(settings) && revision == old(revision)
    {
      var updated := settings.(ai := ai);
      if !outside.started {
        error := Some(RuntimeUnavailable);
      } else if !outside.saved {
        error := Some(ApplyFailed);
      } else {
        settings, revision := updated, revision + 1;
        error := None;
      }
    }

    /** Switches to another vault, or keeps the previous one; the current vault is left as it is. */
    method SwitchVault(target: Path, outside: Outside) returns (error: Option<SettingsError>, switched: bool)
      modifies this`settings, this`revision, this`session
      ensures error == SwitchError(old(Now()), target, outside)
      ensures switched <==> error.None? && !IsCurrent(old(Now()), target)
      ensures switched ==>
        settings == old(settings).(root := target) && revision == old(revision) + 1 && session == outside.freshSession
      ensures !switched ==> Now() == old(Now())
    {
      error, switched := None, false;
      if settings.root != "" && target == settings.root {
      } else if outside.indexing {
        error := Some(IndexBuilding);
      } else if !outside.outsideVault {
        error := Some(InvalidRoot);
      } else if !outside.prepared || !outside.saved {
        error := Some(SwitchFailed);
      } else {
        settings := settings.(root := target);
        session := outside.freshSession;
        revision := revision + 1;
        switched := true;
      }
    }
  }
}
