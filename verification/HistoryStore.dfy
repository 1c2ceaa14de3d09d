/**
  The durable state a job works on: the vault directory and the two history tables.
  `edits` says what other writers do to the vault just before its n-th call, `faults` which calls
  fail for a reason outside the model: before their effect (permissions, a full disk, an oversized file),
  or after it (the file is replaced, and reading it back fails).
  The ghost fields record what a crash at any moment would leave behind and what was overwritten.
*/
module HistoryStore {
  import opened Base
  import opened Vault
  import opened Transactions

  type JobId = string

  type ActionId = nat

  /** A wire action. `change` is the text edit an edit action asks for; None is an unsupported patch. */
  datatype Action =
    | CreateNote(id: ActionId, file: Path, content: Bytes)
    | EditNote(id: ActionId, file: Path, change: Bytes -> Option<Bytes>)
    | MoveNote(id: ActionId, file: Path, target: Path)

  datatype JobStatus =
    | Planned | Preflighted | Captured | AwaitingConfirmation | Executing | Validating | Committed | Rejected
    | RolledBackJob | FailedJob | Conflict | Undone | UndoUnavailable | RollbackFailed | RecoveryRequired

  datatype HistoryRecord = HistoryRecord(
    status: JobStatus, proposed: seq<Action>, executed: seq<ActionId>, beforeHash: map<Path, Option<Digest>>)

  datatype RecoveryResult = RecoveryResult(status: JobStatus, restored: seq<Path>, conflictPaths: seq<Path>)

  datatype Fault = NoFault | EarlyFault | LateFault

  /** What survives a crash. */
  datatype Durable = Durable(
    files: Files, journals: map<JobId, seq<JournalEntry>>, records: map<JobId, HistoryRecord>)
  {
    function Rows(job: JobId): seq<JournalEntry> {
      if job in journals then journals[job] else []
    }
  }

  /** Bytes one of our own calls replaced or removed. */
  datatype Loss = Loss(path: Path, bytes: Bytes)

  function LossOf(call: Call, files: Files): seq<Loss> {
    if call.path in files && At(Perform(call, files).1, call.path) != Some(files[call.path])
    then [Loss(call.path, files[call.path])]
    else []
  }

  /** What has happened so far: the durable states gone through, the bytes lost, the vault calls made. */
  datatype Log = LogOf(states: seq<Durable>, lost: seq<Loss>, calls: nat)

  ghost predicate Grown<T>(was: seq<T>, now: seq<T>) {
    |was| <= |now| && forall i :: 0 <= i < |was| ==> now[i] == was[i]
  }

  /** Everything lost since `since` was lost at `path` and had the digest `digest`. */
  ghost predicate LostOnlyAt(since: nat, lost: seq<Loss>, path: Path, digest: Option<Digest>) {
    forall i :: since <= i < |lost| ==> lost[i].path == path && Some(Sha256(lost[i].bytes)) == digest
  }

  /** Every state since `since` differs from `s` in the files alone, and those are `a` or `b`. */
  ghost predicate FilesAmong(states: seq<Durable>, since: nat, s: Durable, a: Files, b: Files) {
    forall i :: since <= i < |states| ==> states[i] == s.(files := a) || states[i] == s.(files := b)
  }

  /** The log has grown by copies of one state. */
  ghost predicate Repeats(was: seq<Durable>, now: seq<Durable>, s: Durable) {
    Grown(was, now) && forall i :: |was| <= i < |now| ==> now[i] == s
  }

  /** The log has grown by states with these records. */
  ghost predicate KeepsRecords(was: seq<Durable>, now: seq<Durable>, records: map<JobId, HistoryRecord>) {
    Grown(was, now) && forall i :: |was| <= i < |now| ==> now[i].records == records
  }

  lemma LossIsGuarded(call: Call, files: Files)
    requires call.WriteBytes? || call.DeleteFile? || call.MoveFile?
    ensures LostOnlyAt(0, LossOf(call, files), call.path, call.expected)
  {
    if LossOf(call, files) != [] {
      OnlyExpectedBytesLost(call, files, call.path);
    }
  }

  class Store {
    var files: Files
    var journals: map<JobId, seq<JournalEntry>>
    var records: map<JobId, HistoryRecord>
    var calls: nat
    const edits: (nat, Files) -> Files
    const faults: nat -> Fault
    ghost var states: seq<Durable>
    ghost var lost: seq<Loss>
    ghost var writes: nat

    /** A process start on what the previous one left behind. */
    constructor (left: Durable, edits: (nat, Files) -> Files, faults: nat -> Fault)
      ensures Now() == left && calls == 0
      ensures this.edits == edits && this.faults == faults
      ensures states == [left] && lost == [] && writes == 0
    {
      files, journals, records, calls := left.files, left.journals, left.records, 0;
      this.edits, this.faults := edits, faults;
      states, lost, writes := [left], [], 0;
    }

    ghost function Now(): Durable
      reads this`files, this`journals, this`records
    {
      Durable(files, journals, records)
    }

    ghost function Log(): Log
      reads this`states, this`lost, this`calls
    {
      LogOf(states, lost, calls)
    }

    function Rows(job: JobId): seq<JournalEntry>
      reads this`journals
    {
      if job in journals then journals[job] else []
    }

    /** No other writer. */
    ghost predicate Quiet() {
      forall n, f :: edits(n, f) == f
    }

    ghost predicate NoFaults(from: nat, to: nat) {
      forall n :: from <= n < to ==> faults(n).NoFault?
    }

    /** None of these calls fails after its effect. */
    ghost predicate NoLateFaults(from: nat, to: nat) {
      forall n :: from <= n < to ==> !faults(n).LateFault?
    }

    /** One vault call: other writers go first, then the call happens as one atomic step. */
    method Do(call: Call) returns (reply: Reply)
      modifies this`files, this`calls, this`states, this`lost, this`writes
      ensures calls == old(calls) + 1
      ensures
        var mid := edits(old(calls), old(files));
        if faults(old(calls)).EarlyFault? then
          reply == Failed(IoError) && files == mid && lost == old(lost) && writes == old(writes)
        else
          && reply == (if faults(old(calls)).LateFault? then Failed(IoError) else Perform(call, mid).0)
          && files == Perform(call, mid).1
          && lost == old(lost) + LossOf(call, mid)
          && writes == old(writes) + (if files == mid then 0 else 1)
      ensures states == old(states) + [Durable(edits(old(calls), old(files)), journals, records), Now()]
    {
      files := edits(calls, files);
      states := states + [Now()];
      if faults(calls).EarlyFault? {
        reply := Failed(IoError);
      } else {
        ghost var mid := files;
        var (answer, after) := Perform(call, files);
        reply, files := if faults(calls).LateFault? then Failed(IoError) else answer, after;
        lost := lost + LossOf(call, mid);
        writes := writes + if files == mid then 0 else 1;
      }
      calls := calls + 1;
      states := states + [Now()];
    }

    /** The digest of a file; a read changes nothing of ours. */
    method Read(path: Path) returns (reply: Reply)
      modifies this`files, this`calls, this`states
      ensures calls == old(calls) + 1
      ensures files == edits(old(calls), old(files))
      ensures reply ==
        if !faults(old(calls)).NoFault? then Failed(IoError)
        else if path in files then Done(Some(Sha256(files[path])))
        else Failed(NotFound)
      ensures states == old(states) + [Now(), Now()]
    {
      files := edits(calls, files);
      states := states + [Now(), Now()];
      reply := if !faults(calls).NoFault? then Failed(IoError) else Perform(ReadBytes(path), files).0;
      calls := calls + 1;
    }

    /** The content and digest of a file; any failure answers no digest. */
    method TryRead(path: Path) returns (data: Bytes, digest: Option<Digest>)
      modifies this`files, this`calls, this`states
      ensures calls == old(calls) + 1
      ensures files == edits(old(calls), old(files))
      ensures (data, digest) ==
        if !faults(old(calls)).NoFault? || path !in files then ([], None)
        else (files[path], Some(Sha256(files[path])))
      ensures states == old(states) + [Now(), Now()]
    {
      var reply := Read(path);
      if reply.Done? {
        data, digest := files[path], reply.sha256;
      } else {
        data, digest := [], None;
      }
    }

    /**
      A guarded inverse: the call itself and, after a delete, the check that the file is gone. A file
      that is there again answers AlreadyExists.
    */
    method Revert(call: Call) returns (reply: Reply)
      requires call.WriteBytes? || call.DeleteFile? || call.MoveFile?
      modifies this`files, this`calls, this`states, this`lost, this`writes
      ensures Grown(old(lost), lost) && Grown(old(states), states) && old(calls) < calls
      ensures LostOnlyAt(|old(lost)|, lost, call.path, call.expected)
      ensures calls <= old(calls) + if call.DeleteFile? then 2 else 1
      ensures reply.Done? ==> NoFaults(old(calls), calls) && calls == old(calls) + if call.DeleteFile? then 2 else 1
      ensures Quiet() ==>
        && (reply.Done? <==>
              && NoFaults(old(calls), old(calls) + if call.DeleteFile? then 2 else 1)
              && Perform(call, old(files)).0.Done?)
        && (call.DeleteFile? ==> reply != Failed(AlreadyExists))
      ensures KeepsRecords(old(states), states, records)
      ensures faults(old(calls)).EarlyFault? ==> reply.Failed? && files == edits(old(calls), old(files))
      ensures Quiet() ==>
        && FilesAmong(states, |old(states)|, Now(), Perform(call, old(files)).1, old(files))
        && (reply.Done? ==> (reply, files) == Perform(call, old(files)))
        && (files == old(files) || (files == Perform(call, old(files)).1 && Perform(call, old(files)).0.Done?))
        && (reply.Failed? && NoFaults(old(calls), calls) ==> reply == Perform(call, old(files)).0)
    {
      LossIsGuarded(call, edits(calls, files));
      reply := Do(call);
      if reply.Done? && call.DeleteFile? {
        var gone := Read(call.path);
        if gone != Failed(NotFound) {
          reply := if gone.Done? then Failed(AlreadyExists) else gone;
        }
      }
    }

    /** Insert a row under its sequence number, replacing the row already there. */
    method AddJournal(job: JobId, entry: JournalEntry)
      requires entry.seqNo <= |Rows(job)|
      modifies this`journals, this`states
      ensures Rows(job) ==
        if entry.seqNo < |old(Rows(job))| then old(Rows(job))[entry.seqNo := entry] else old(Rows(job)) + [entry]
      ensures journals - {job} == old(journals) - {job}
      ensures states == old(states) + [Now()]
    {
      var rows := Rows(job);
      journals := journals[job := if entry.seqNo < |rows| then rows[entry.seqNo := entry] else rows + [entry]];
      states := states + [Now()];
    }

    method SetJournalState(job: JobId, state: RowState)
      modifies this`journals, this`states
      ensures Rows(job) == Marked(old(Rows(job)), state)
      ensures journals - {job} == old(journals) - {job}
      ensures states == old(states) + [Now()]
    {
      journals := journals[job := Marked(Rows(job), state)];
      states := states + [Now()];
    }

    /** Upsert of the job row; the journal rows stay. */
    method Save(job: JobId, record: HistoryRecord)
      modifies this`records, this`states
      ensures records == old(records)[job := record]
      ensures states == old(states) + [Now()]
    {
      records := records[job := record];
      states := states + [Now()];
    }
  }
}
