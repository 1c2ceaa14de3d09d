/** The reader's multi-device sync: pushes append to an outbox, pulls page through it behind a cursor. */
module ReaderSync {
  import opened Base
  import opened Sorting
  import opened SyncOutbox
  import opened SyncLoss

  type Tables = map<(EntityType, string), string>

  /** What a statement on an entity table does: it runs, it breaks a constraint, or it fails otherwise. */
  datatype Statement = Ran(tables: Tables) | IntegrityError | OtherError

  /** What applying one operation comes to: a `ReaderError` rejects it, anything else ends the push. */
  datatype Effect = Applied(tables: Tables) | Rejected | Crashed

  datatype PushReply =
    | Pushed(accepted: nat, rejected: nat, conflicts: seq<string>, acceptedIds: seq<string>, rejectedIds: seq<string>)
    | Raised

  datatype PullReply = Page(rows: seq<OutboxRow>, next: Option<Cursor>, hasMore: bool) | InvalidCursor

  type Sql = (Tables, DeviceId, SyncOperation) -> Statement

  /** A constraint that fails on create or update is a rejection; a delete lets it through. */
  function Apply(sql: Sql, tables: Tables, device: DeviceId, op: SyncOperation): Effect {
    if op.entityType.UnknownType? || op.operation.UnknownOp? then Rejected
    else
      match sql(tables, device, op)
      case Ran(after) => Applied(after)
      case IntegrityError => if op.operation.DeleteOp? then Crashed else Rejected
      case OtherError => Crashed
  }

  /** Which operations are rejected, and which end the push. */
  lemma EffectIs(sql: Sql, tables: Tables, device: DeviceId, op: SyncOperation)
    ensures var known := op.entityType != UnknownType && op.operation != UnknownOp;
      var statement := sql(tables, device, op);
      && (Apply(sql, tables, device, op) == Rejected <==>
            !known || (statement == IntegrityError && (op.operation == CreateOp || op.operation == UpdateOp)))
      && (Apply(sql, tables, device, op) == Crashed <==>
            known && (statement == OtherError || (statement == IntegrityError && op.operation == DeleteOp)))
      && (forall after :: Apply(sql, tables, device, op) == Applied(after) <==> known && statement == Ran(after))
  {
  }

  /** The entity tables after these operations, the rejected ones left out; None when one crashes. */
  function After(sql: Sql, tables: Tables, device: DeviceId, ops: seq<SyncOperation>): Option<Tables> {
    if ops == [] then Some(tables)
    else
      match After(sql, tables, device, ops[..|ops| - 1])
      case None => None
      case Some(mid) =>
        match Apply(sql, mid, device, ops[|ops| - 1])
        case Applied(after) => Some(after)
        case Rejected => Some(mid)
        case Crashed => None
  }

  lemma AfterMore(sql: Sql, tables: Tables, device: DeviceId, ops: seq<SyncOperation>, i: nat)
    requires i < |ops|
    ensures After(sql, tables, device, ops[..i + 1]) ==
      match After(sql, tables, device, ops[..i])
      case None => None
      case Some(mid) =>
        match Apply(sql, mid, device, ops[i])
        case Applied(after) => Some(after)
        case Rejected => Some(mid)
        case Crashed => None
  {
    assert ops[..i + 1][..i] == ops[..i];
  }

  lemma {:induction false} CrashStays(sql: Sql, tables: Tables, device: DeviceId, ops: seq<SyncOperation>, i: nat)
    requires i <= |ops| && After(sql, tables, device, ops[..i]).None?
    ensures After(sql, tables, device, ops).None?
    decreases |ops| - i
  {
    if i < |ops| {
      AfterMore(sql, tables, device, ops, i);
      CrashStays(sql, tables, device, ops, i + 1);
    } else {
      assert ops[..i] == ops;
    }
  }

  /** Whether the last of these operations is accepted where the earlier ones have been applied. */
  function LastAccepted(sql: Sql, tables: Tables, device: DeviceId, ops: seq<SyncOperation>): bool
    requires ops != []
  {
    var before := After(sql, tables, device, ops[..|ops| - 1]);
    before.Some? && Apply(sql, before.value, device, ops[|ops| - 1]).Applied?
  }

  /** The accepted, or the rejected, operations of a batch, in order. */
  function Outcome(
    sql: Sql, tables: Tables, device: DeviceId, ops: seq<SyncOperation>, accepted: bool): seq<SyncOperation>
  {
    if ops == [] then []
    else
      Outcome(sql, tables, device, ops[..|ops| - 1], accepted) +
      if LastAccepted(sql, tables, device, ops) == accepted then [ops[|ops| - 1]] else []
  }

  function Ids(ops: seq<SyncOperation>): (ids: seq<string>)
    ensures |ids| == |ops| && forall i :: 0 <= i < |ops| ==> ids[i] == ops[i].entityId
  {
    seq(|ops|, i requires 0 <= i < |ops| => ops[i].entityId)
  }

  lemma OutcomeLast(sql: Sql, tables: Tables, device: DeviceId, ops: seq<SyncOperation>)
    requires ops != []
    ensures var front := ops[..|ops| - 1]; var accepted := LastAccepted(sql, tables, device, ops);
      && Outcome(sql, tables, device, ops, accepted) == Outcome(sql, tables, device, front, accepted) + [ops[|ops| - 1]]
      && Outcome(sql, tables, device, ops, !accepted) == Outcome(sql, tables, device, front, !accepted)
  {
    hide LastAccepted;
    var front, accepted := ops[..|ops| - 1], LastAccepted(sql, tables, device, ops);
    assert Outcome(sql, tables, device, front, !accepted) + [] == Outcome(sql, tables, device, front, !accepted);
  }

  lemma NoOutcomes(sql: Sql, tables: Tables, device: DeviceId)
    ensures Outcome(sql, tables, device, [], true) == Outcome(sql, tables, device, [], false) == []
  {
  }

  lemma PartitionMore<T>(s: seq<T>, a: seq<T>, b: seq<T>, x: T)
    requires multiset(a) + multiset(b) == multiset(s)
    ensures multiset(a + [x]) + multiset(b) == multiset(s + [x])
  {
    assert multiset(a + [x]) == multiset(a) + multiset{x} && multiset(s + [x]) == multiset(s) + multiset{x};
  }

  /** Each operation of a batch is accepted or rejected, never both, never lost. */
  lemma {:induction false} OutcomesPartition(sql: Sql, tables: Tables, device: DeviceId, ops: seq<SyncOperation>)
    ensures multiset(Outcome(sql, tables, device, ops, true)) + multiset(Outcome(sql, tables, device, ops, false)) ==
      multiset(ops)
  {
    hide Outcome, LastAccepted;
    if ops == [] {
      NoOutcomes(sql, tables, device);
    } else {
      var front, last := ops[..|ops| - 1], ops[|ops| - 1];
      var accepted := LastAccepted(sql, tables, device, ops);
      OutcomesPartition(sql, tables, device, front);
      OutcomeLast(sql, tables, device, ops);
      PartitionMore(
        front, Outcome(sql, tables, device, front, accepted), Outcome(sql, tables, device, front, !accepted), last);
      assert ops == front + [last];
    }
  }

  /** One more operation joins one of the two lists. */
  lemma OutcomeMore(sql: Sql, tables: Tables, device: DeviceId, ops: seq<SyncOperation>, i: nat, mid: Tables)
    requires i < |ops| && After(sql, tables, device, ops[..i]) == Some(mid)
    ensures var accepted := Apply(sql, mid, device, ops[i]).Applied?;
      && Outcome(sql, tables, device, ops[..i + 1], accepted) ==
        Outcome(sql, tables, device, ops[..i], accepted) + [ops[i]]
      && Outcome(sql, tables, device, ops[..i + 1], !accepted) == Outcome(sql, tables, device, ops[..i], !accepted)
      && Ids(Outcome(sql, tables, device, ops[..i + 1], accepted)) ==
         Ids(Outcome(sql, tables, device, ops[..i], accepted)) + [ops[i].entityId]
  {
    assert ops[..i + 1][..i] == ops[..i];
    OutcomeLast(sql, tables, device, ops[..i + 1]);
  }

  // ----- the queue -----

  datatype Queue = Queue(outbox: seq<OutboxRow>, lastId: nat, ticks: nat) {
    function Add(clock: nat -> nat, device: DeviceId, op: SyncOperation): Queue {
      Queue(outbox + [OutboxRow(lastId + 1, device, op, clock(ticks))], lastId + 1, ticks + 1)
    }
  }

  /** The queue after one row for each of these operations, in order. */
  function Queued(q: Queue, clock: nat -> nat, device: DeviceId, ops: seq<SyncOperation>): Queue {
    if ops == [] then q else Queued(q, clock, device, ops[..|ops| - 1]).Add(clock, device, ops[|ops| - 1])
  }

  lemma QueuedMore(q: Queue, clock: nat -> nat, device: DeviceId, ops: seq<SyncOperation>, op: SyncOperation)
    ensures Queued(q, clock, device, ops + [op]) == Queued(q, clock, device, ops).Add(clock, device, op)
  {
    assert (ops + [op])[..|ops|] == ops;
  }

  predicate IsFor(row: OutboxRow, device: DeviceId, op: SyncOperation) {
    row.device == device && row.op == op
  }

  /** The outbox grows by exactly the operations, with new rising ids. */
  lemma {:induction false} QueuedRows(q: Queue, clock: nat -> nat, device: DeviceId, ops: seq<SyncOperation>)
    ensures var now := Queued(q, clock, device, ops);
      && now.lastId == q.lastId + |ops| && now.ticks == q.ticks + |ops|
      && |now.outbox| == |q.outbox| + |ops| && q.outbox <= now.outbox
      && forall i :: 0 <= i < |ops| ==>
           var row := now.outbox[|q.outbox| + i];
           IsFor(row, device, ops[i]) && row.id == q.lastId + 1 + i && row.createdAt == clock(q.ticks + i)
  {
    if ops != [] {
      var n := |ops| - 1;
      var mid, now := Queued(q, clock, device, ops[..n]), Queued(q, clock, device, ops);
      QueuedRows(q, clock, device, ops[..n]);
      assert now == mid.Add(clock, device, ops[n]);
      forall i | 0 <= i < |ops|
        ensures var row := now.outbox[|q.outbox| + i];
          IsFor(row, device, ops[i]) && row.id == q.lastId + 1 + i && row.createdAt == clock(q.ticks + i)
      {
        if i < n {
          assert now.outbox[|q.outbox| + i] == mid.outbox[|q.outbox| + i];
          assert IsFor(mid.outbox[|q.outbox| + i], device, ops[..n][i]);
        }
      }
    }
  }

  /** Row by row the outbox ends with this device's operations. */
  lemma QueuedAre(q: Queue, clock: nat -> nat, device: DeviceId, ops: seq<SyncOperation>, i: nat)
    requires i < |ops|
    ensures var now := Queued(q, clock, device, ops);
      && |now.outbox| == |q.outbox| + |ops|
      && now.outbox[|q.outbox| + i].device == device && now.outbox[|q.outbox| + i].op == ops[i]
  {
    QueuedRows(q, clock, device, ops);
    assert IsFor(Queued(q, clock, device, ops).outbox[|q.outbox| + i], device, ops[i]);
  }

  lemma QueuedIds(q: Queue, clock: nat -> nat, device: DeviceId, ops: seq<SyncOperation>)
    ensures var now := Queued(q, clock, device, ops);
      forall i :: |q.outbox| <= i < |now.outbox| ==> q.lastId < now.outbox[i].id
  {
    QueuedRows(q, clock, device, ops);
    var now := Queued(q, clock, device, ops);
    forall i | |q.outbox| <= i < |now.outbox|
      ensures q.lastId < now.outbox[i].id
    {
      assert IsFor(now.outbox[|q.outbox| + (i - |q.outbox|)], device, ops[i - |q.outbox|]);
    }
  }

  /** Ids are handed out once, in order. */
  ghost predicate IdsHold(q: Queue) {
    && RisingIds(q.outbox)
    && forall i :: 0 <= i < |q.outbox| ==> 0 < q.outbox[i].id <= q.lastId
  }

  ghost predicate Steady(clock: nat -> nat) {
    forall i, j :: 0 <= i <= j ==> clock(i) <= clock(j)
  }

  /** And timestamps never fall, when the clock never steps back. */
  ghost predicate QueueHolds(q: Queue, clock: nat -> nat) {
    && IdsHold(q)
    && (Steady(clock) ==>
          TimesNeverFall(q.outbox) && forall i :: 0 <= i < |q.outbox| ==> q.outbox[i].createdAt <= clock(q.ticks))
  }

  lemma AddHolds(q: Queue, clock: nat -> nat, device: DeviceId, op: SyncOperation)
    requires QueueHolds(q, clock)
    ensures QueueHolds(q.Add(clock, device, op), clock)
  {
    assert Steady(clock) ==> clock(q.ticks) <= clock(q.ticks + 1);
  }

  // ----- a batch -----

  datatype State = State(tables: Tables, queue: Queue)

  /** A batch has been applied: what it made of the tables and the queue, and which ids it reports. */
  ghost predicate Batched(
    sql: Sql, clock: nat -> nat, device: DeviceId, was: State, now: State, ops: seq<SyncOperation>,
    acceptedIds: seq<string>, rejectedIds: seq<string>)
  {
    && After(sql, was.tables, device, ops) == Some(now.tables)
    && now.queue == Queued(was.queue, clock, device, Outcome(sql, was.tables, device, ops, true))
    && acceptedIds == Ids(Outcome(sql, was.tables, device, ops, true))
    && rejectedIds == Ids(Outcome(sql, was.tables, device, ops, false))
    && |acceptedIds| + |rejectedIds| == |ops|
  }

  /** One operation of a batch: applied and queued, or the state stays. */
  function OneMore(sql: Sql, clock: nat -> nat, device: DeviceId, s: State, op: SyncOperation): State {
    match Apply(sql, s.tables, device, op)
    case Applied(after) => State(after, s.queue.Add(clock, device, op))
    case _ => s
  }

  lemma BatchedMore(
    sql: Sql, clock: nat -> nat, device: DeviceId, was: State, mid: State, ops: seq<SyncOperation>, i: nat,
    acceptedIds: seq<string>, rejectedIds: seq<string>)
    requires i < |ops| && Batched(sql, clock, device, was, mid, ops[..i], acceptedIds, rejectedIds)
    ensures var now := OneMore(sql, clock, device, mid, ops[i]);
      match Apply(sql, mid.tables, device, ops[i])
      case Applied(_) =>
        Batched(sql, clock, device, was, now, ops[..i + 1], acceptedIds + [ops[i].entityId], rejectedIds)
      case Rejected =>
        Batched(sql, clock, device, was, now, ops[..i + 1], acceptedIds, rejectedIds + [ops[i].entityId])
      case Crashed => After(sql, was.tables, device, ops).None?
  {
    AfterMore(sql, was.tables, device, ops, i);
    OutcomeMore(sql, was.tables, device, ops, i, mid.tables);
    match Apply(sql, mid.tables, device, ops[i])
    case Applied(_) =>
      QueuedMore(was.queue, clock, device, Outcome(sql, was.tables, device, ops[..i], true), ops[i]);
    case Rejected =>
    case Crashed => CrashStays(sql, was.tables, device, ops, i + 1);
  }

  // ----- the service -----

  class ReaderDatabase {
    const sql: Sql
    const clock: nat -> nat
    var tables: Tables
    var outbox: seq<OutboxRow>
    var lastId: nat
    var ticks: nat

    constructor (sql: Sql, clock: nat -> nat)
      ensures this.sql == sql && this.clock == clock && Valid()
      ensures Now() == State(map[], Queue([], 0, 0))
    {
      this.sql, this.clock, tables, outbox, lastId, ticks := sql, clock, map[], [], 0, 0;
    }

    ghost function Now(): State
      reads this
    {
      State(tables, Queue(outbox, lastId, ticks))
    }

    ghost predicate Valid()
      reads this
    {
      QueueHolds(Now().queue, clock)
    }

    method AddToOutbox(device: DeviceId, op: SyncOperation)
      requires Valid()
      modifies this`outbox, this`lastId, this`ticks
      ensures Valid() && Now().queue == old(Now().queue).Add(clock, device, op)
    {
      AddHolds(Now().queue, clock, device, op);
      lastId := lastId + 1;
      outbox := outbox + [OutboxRow(lastId, device, op, clock(ticks))];
      ticks := ticks + 1;
    }

    /** Applies one operation and queues it for the other devices. */
    method ApplySyncOperation(device: DeviceId, op: SyncOperation) returns (effect: Effect)
      requires Valid()
      modifies this
      ensures Valid() && Now() == OneMore(sql, clock, device, old(Now()), op)
      ensures effect == Apply(sql, old(tables), device, op)
    {
      effect := Apply(sql, tables, device, op);
      if effect.Applied? {
        tables := effect.tables;
        AddToOutbox(device, op);
      }
    }

    /** Applies a batch until an operation crashes. */
    method ApplyBatch(device: DeviceId, ops: seq<SyncOperation>)
      returns (crashed: bool, acceptedIds: seq<string>, rejectedIds: seq<string>)
      requires Valid()
      modifies this
      ensures Valid() && ticks >= old(ticks)
      ensures crashed <==> After(sql, old(tables), device, ops).None?
      ensures !crashed ==> Batched(sql, clock, device, old(Now()), Now(), ops, acceptedIds, rejectedIds)
    {
      hide After, Outcome, QueueHolds;
      crashed, acceptedIds, rejectedIds := false, [], [];
      ghost var was := Now();
      NothingBatched(sql, clock, device, was);
      var i := 0;
      while i < |ops| && !crashed
        invariant i <= |ops| && Valid() && ticks >= old(ticks)
        invariant !crashed ==> Batched(sql, clock, device, was, Now(), ops[..i], acceptedIds, rejectedIds)
        invariant crashed ==> After(sql, was.tables, device, ops).None?
        decreases |ops| - i, !crashed
      {
        BatchedMore(sql, clock, device, was, Now(), ops, i, acceptedIds, rejectedIds);
        var effect := ApplySyncOperation(device, ops[i]);
        match effect {
          case Applied(_) => acceptedIds := acceptedIds + [ops[i].entityId];
          case Rejected => rejectedIds := rejectedIds + [ops[i].entityId];
          case Crashed => crashed := true;
        }
        i := i + 1;
      }
      assert ops[..|ops|] == ops;
    }

    /**
      A batch in one transaction. The two id lists split the batch in order, the outbox grows by exactly
      the accepted operations, and a failure that is not a rejection leaves everything as it was.
    */
    method PushSyncOperations(device: DeviceId, ops: seq<SyncOperation>) returns (reply: PushReply)
      requires Valid()
      modifies this
      ensures Valid()
      ensures reply.Raised? <==> After(sql, old(tables), device, ops).None?
      ensures reply.Raised? ==> Now() == old(Now()).(queue := old(Now().queue).(ticks := ticks))
      ensures reply.Pushed? ==>
        && Batched(sql, clock, device, old(Now()), Now(), ops, reply.acceptedIds, reply.rejectedIds)
        && reply.accepted == |reply.acceptedIds| && reply.rejected == |reply.rejectedIds| && reply.conflicts == []
    {
      var was, wasOutbox, wasId := tables, outbox, lastId;
      var crashed, acceptedIds, rejectedIds := ApplyBatch(device, ops);
      if crashed {
        assert Steady(clock) ==> clock(old(ticks)) <= clock(ticks);
        tables, outbox, lastId := was, wasOutbox, wasId;
        reply := Raised;
      } else {
        reply := Pushed(|acceptedIds|, |rejectedIds|, [], acceptedIds, rejectedIds);
      }
    }

    /** One page of other devices' rows behind a cursor. */
    method PullSyncChanges(device: DeviceId, cursor: Cursor, limit: nat) returns (reply: PullReply)
      ensures reply.InvalidCursor? <==> cursor.Malformed?
      ensures reply.Page? ==>
        var due := DueRows(outbox, device, cursor);
        && reply.rows == PageOf(due, limit)
        && reply.hasMore == (|due| > limit)
        && reply.next == if reply.rows == [] then None else Some(Behind(reply.rows))
    {
      if cursor.Malformed? {
        return InvalidCursor;
      }
      var timestamp, offset := if cursor.At? then cursor.timestamp else 0, if cursor.At? then cursor.offset else 0;
      var rows: seq<OutboxRow> := [];
      for i := 0 to |outbox|
        invariant rows == OrderBy(Select(outbox[..i], device, timestamp, offset))
      {
        OneMoreDue(outbox, i, device, timestamp, offset);
        if Due(outbox[i], device, timestamp, offset) {
          rows := Place((a, b) => Before(a, b), rows, outbox[i]);
        }
      }
      assert outbox[..|outbox|] == outbox;
      var hasMore := |rows| > limit;
      var page := if hasMore then rows[..limit] else rows;
      var next := if page == [] then None else Some(At(page[|page| - 1].createdAt, page[|page| - 1].id));
      reply := Page(page, next, hasMore);
    }
  }

  lemma NothingBatched(sql: Sql, clock: nat -> nat, device: DeviceId, s: State)
    ensures Batched(sql, clock, device, s, s, [], [], [])
  {
  }

  // ----- a device over a whole run -----

  datatype Turn = Push(device: DeviceId, ops: seq<SyncOperation>) | Pull(limit: nat)

  /** A device that has followed its cursor: sorted, each once, and in the order of the outbox where time rises. */
  ghost predicate Follows(q: Queue, device: DeviceId, received: seq<OutboxRow>) {
    && HasReceived(q.outbox, device, received)
    && (TimesNeverFall(Others(q.outbox, device)) ==> received <= Others(q.outbox, device))
  }

  function LastSeen(received: seq<OutboxRow>): nat {
    if received == [] then 0 else received[|received| - 1].id
  }

  lemma ReceivedIsPage(q: Queue, device: DeviceId, received: seq<OutboxRow>)
    requires IdsHold(q) && HasReceived(q.outbox, device, received)
    ensures TimesNeverFall(received) && LastSeen(received) <= q.lastId
  {
    assert forall i, j :: 0 <= i < j < |received| ==> Before(received[i], received[j]);
    assert received != [] ==> received[|received| - 1] in received;
  }

  lemma FollowsPage(q: Queue, device: DeviceId, received: seq<OutboxRow>, limit: nat)
    requires IdsHold(q) && Follows(q, device, received)
    ensures var due := DueRows(q.outbox, device, Behind(received)); var page := PageOf(due, limit);
      && Follows(q, device, received + page)
      && (TimesNeverFall(Others(q.outbox, device)) && |due| <= limit ==> received + page == Others(q.outbox, device))
      && LastSeen(received) <= LastSeen(received + page)
      && (|due| > limit && limit > 0 ==> LastSeen(received) < LastSeen(received + page))
  {
    hide DueRows, Others, Behind, TimesNeverFall, RisingIds, HasReceived;
    ReceivedIsPage(q, device, received);
    PageGoesOn(q.outbox, device, received, limit);
    var due := DueRows(q.outbox, device, Behind(received));
    assert PageOf(due, limit) == due[..|PageOf(due, limit)|];
    PageReceived(q.outbox, device, received, |PageOf(due, limit)|);
    if TimesNeverFall(Others(q.outbox, device)) {
      OthersInOrder(q.outbox, device);
      NextPage(q.outbox, device, received, limit);
    }
  }

  lemma FollowsPush(q: Queue, more: Queue, device: DeviceId, received: seq<OutboxRow>)
    requires Follows(q, device, received) && q.outbox <= more.outbox
    ensures Follows(more, device, received)
  {
    hide Others;
    var rows := more.outbox[|q.outbox|..];
    assert more.outbox == q.outbox + rows;
    OthersAppend(q.outbox, rows, device);
    var was, now := Others(q.outbox, device), Others(more.outbox, device);
    assert was <= now;
    if TimesNeverFall(now) {
      assert forall i :: 0 <= i < |was| ==> was[i] == now[i];
      assert TimesNeverFall(was);
    }
  }

  /** Where the others' timestamps never fall, no row is ever lost. */
  lemma InOrderLosesNothing(q: Queue, device: DeviceId, received: seq<OutboxRow>)
    requires IdsHold(q) && Follows(q, device, received)
    ensures TimesNeverFall(Others(q.outbox, device)) ==> NothingLost(q.outbox, device, received)
  {
    hide DueRows, Others, IsDue;
    var others := Others(q.outbox, device);
    if TimesNeverFall(others) {
      OthersMembers(q.outbox, device);
      OthersInOrder(q.outbox, device);
      assert received == others[..|received|] && others == others[..|received|] + others[|received|..];
      DueIsTheRest(q.outbox, device, |received|);
      DueExactly(q.outbox, device, Behind(received));
    }
  }

  /** The rows a push adds are all due: none of the others' is older than the cursor. */
  ghost predicate AllNewer(q: Queue, more: Queue, device: DeviceId, cursor: Cursor) {
    forall i :: |q.outbox| <= i < |more.outbox| && more.outbox[i].device != device ==>
      cursor.At? ==> cursor.timestamp <= more.outbox[i].createdAt
  }

  /** A new row is due unless it is older than the cursor. */
  lemma NewRowDue(q: Queue, device: DeviceId, received: seq<OutboxRow>, row: OutboxRow)
    requires IdsHold(q) && HasReceived(q.outbox, device, received) && q.lastId < row.id && row.device != device
    ensures row !in received
    ensures IsDue(row, device, Behind(received)) <==>
      Behind(received).At? ==> Behind(received).timestamp <= row.createdAt
  {
    ReceivedIsPage(q, device, received);
    assert row !in q.outbox;
  }

  /** A push loses a row for a device exactly when it is older than the device's cursor. */
  lemma PushLoses(q: Queue, more: Queue, device: DeviceId, received: seq<OutboxRow>)
    requires IdsHold(q) && IdsHold(more) && HasReceived(q.outbox, device, received) && q.outbox <= more.outbox
    requires forall i :: |q.outbox| <= i < |more.outbox| ==> q.lastId < more.outbox[i].id
    ensures NothingLost(more.outbox, device, received) <==>
      NothingLost(q.outbox, device, received) && AllNewer(q, more, device, Behind(received))
  {
    hide IsDue, Behind, HasReceived, RisingIds;
    var n := |q.outbox|;
    assert more.outbox == q.outbox + more.outbox[n..];
    assert forall row :: IsTheirs(q.outbox, device, row) ==> IsTheirs(more.outbox, device, row);
    forall i | n <= i < |more.outbox| && more.outbox[i].device != device
      ensures IsTheirs(more.outbox, device, more.outbox[i]) && more.outbox[i] !in received
      ensures IsDue(more.outbox[i], device, Behind(received)) <==>
              Behind(received).At? ==> Behind(received).timestamp <= more.outbox[i].createdAt
    {
      NewRowDue(q, device, received, more.outbox[i]);
    }
    forall row | IsTheirs(more.outbox, device, row) && !IsTheirs(q.outbox, device, row)
      ensures exists i :: n <= i < |more.outbox| && more.outbox[i] == row
    {
    }
  }

  /** A device's copy of the others' operations. */
  class Client {
    const db: ReaderDatabase
    const device: DeviceId
    var cursor: Cursor
    var received: seq<OutboxRow>

    constructor (db: ReaderDatabase, device: DeviceId)
      requires db.Valid()
      ensures this.db == db && this.device == device && received == [] && Valid() && Complete()
    {
      this.db, this.device, cursor, received := db, device, Initial, [];
    }

    /** The others' rows, in server order. */
    ghost function Theirs(): seq<OutboxRow>
      reads this, db
    {
      Others(db.outbox, device)
    }

    /** Where the others' timestamps never fall, it has received their rows up to its cursor, once and in order. */
    ghost predicate Valid()
      reads this, db
    {
      db.Valid() && cursor == Behind(received) && Follows(db.Now().queue, device, received)
    }

    /** Each of their rows has been received or is still due. */
    ghost predicate Complete()
      reads this, db
    {
      NothingLost(db.outbox, device, received)
    }

    /** What the next pull without a limit would find. */
    ghost function Pending(): seq<OutboxRow>
      reads this, db
    {
      DueRows(db.outbox, device, Behind(received))
    }

    /** One page; an empty page keeps the cursor. It loses nothing exactly when the ids rise at its end. */
    method PullPage(limit: nat) returns (hasMore: bool)
      requires Valid()
      modifies this
      ensures Valid() && old(received) <= received
      ensures received == old(received) + PageOf(old(Pending()), limit) && (hasMore <==> |old(Pending())| > limit)
      ensures Complete() <==> old(Complete()) && CutRises(old(Pending()), |PageOf(old(Pending()), limit)|)
      ensures !hasMore ==> Pending() == []
      ensures TimesNeverFall(Theirs()) && !hasMore ==> received == Theirs()
      ensures LastSeen(old(received)) <= LastSeen(received)
      ensures hasMore && limit > 0 ==> LastSeen(old(received)) < LastSeen(received)
    {
      hide DueRows, TimesNeverFall, Others, RisingIds, CutRises, NothingLost, HasReceived;
      ghost var due := Pending();
      assert PageOf(due, limit) == due[..|PageOf(due, limit)|];
      FollowsPage(db.Now().queue, device, received, limit);
      PageLoses(db.outbox, device, received, |PageOf(due, limit)|);
      LastPageEnds(db.outbox, device, received);
      var reply := db.PullSyncChanges(device, cursor, limit);
      assert received + [] == received;
      received := received + reply.rows;
      if reply.next.Some? {
        cursor := reply.next.value;
      }
      hasMore := reply.hasMore;
    }

    /** Pages with any limits and pushes from any device, in any order: what is lost stays lost. */
    method Run(turns: seq<Turn>)
      requires Valid()
      modifies this, db
      ensures Valid() && old(received) <= received
      ensures Complete() ==> old(Complete())
      ensures TimesNeverFall(Theirs()) ==> Complete()
      ensures Steady(db.clock) ==> TimesNeverFall(Theirs())
    {
      hide NothingLost, CutRises, Others, TimesNeverFall;
      for i := 0 to |turns|
        invariant Valid() && old(received) <= received
        invariant Complete() ==> old(Complete())
      {
        match turns[i]
        case Push(from, ops) => PushFrom(from, ops);
        case Pull(limit) => var _ := PullPage(limit);
      }
      OthersKeepIds(db.outbox, device);
      InOrderLosesNothing(db.Now().queue, device, received);
    }

    /** A push loses a row for this device exactly when it is older than the cursor. */
    method PushFrom(from: DeviceId, ops: seq<SyncOperation>)
      requires Valid()
      modifies db
      ensures Valid() && old(db.outbox) <= db.outbox
      ensures Complete() <==> old(Complete()) && AllNewer(old(db.Now().queue), db.Now().queue, device, cursor)
    {
      hide HasReceived, Others, Outcome, After, NothingLost, AllNewer, RisingIds, TimesNeverFall;
      ghost var was := db.Now();
      var reply := db.PushSyncOperations(from, ops);
      if reply.Pushed? {
        QueuedRows(was.queue, db.clock, from, Outcome(db.sql, was.tables, from, ops, true));
        QueuedIds(was.queue, db.clock, from, Outcome(db.sql, was.tables, from, ops, true));
      }
      FollowsPush(was.queue, db.Now().queue, device, received);
      PushLoses(was.queue, db.Now().queue, device, received);
    }

    /**
      Following the cursor to the end delivers exactly what was due, each row once and in server order, if and
      only if no row behind the end of a page has an id at or below that page's last. Then, if nothing was lost
      before, these are the operations of all other devices. A clock that never steps back is enough.
    */
    method PullAll(limit: nat)
      requires Valid() && limit > 0
      modifies this
      ensures Valid() && old(received) <= received
      ensures received == old(received) + old(Pending()) <==> CutsRise(old(Pending()), limit)
      ensures multiset(received) == multiset(Theirs()) <==> old(Complete()) && CutsRise(old(Pending()), limit)
      ensures received == Theirs() <==> TimesNeverFall(Theirs())
      ensures Steady(db.clock) ==> received == Theirs()
    {
      hide TimesNeverFall, Others, DueRows, PageOf, CutRises, NothingLost, HasReceived, RisingIds, Along;
      ghost var due := Pending();
      ghost var lost: Option<OutboxRow> := None;
      AlongAtStart(db.outbox, device, received, limit);
      var hasMore := true;
      while hasMore
        invariant Valid() && old(received) <= received
        invariant TimesNeverFall(Theirs()) && !hasMore ==> received == Theirs()
        invariant Along(db.outbox, device, old(received), due, limit, received, lost)
        invariant Complete() <==> old(Complete()) && lost.None?
        invariant !hasMore ==> Pending() == []
        decreases db.lastId - LastSeen(received), hasMore
      {
        lost := OnePageAlong(db.outbox, device, old(received), due, limit, received, lost);
        hasMore := PullPage(limit);
        ReceivedIsPage(db.Now().queue, device, received);
      }
      ReceivedIsPage(db.Now().queue, device, received);
      OthersKeepIds(db.outbox, device);
      AlongAtEnd(db.outbox, device, old(received), due, limit, received, lost);
    }
  }

  /** A database whose statements always run. */
  method EmptyDatabase(clock: nat -> nat) returns (db: ReaderDatabase)
    ensures fresh(db) && db.Valid() && db.clock == clock && db.sql == RunsAlways()
    ensures db.Now() == State(map[], Queue([], 0, 0))
  {
    db := new ReaderDatabase(RunsAlways(), clock);
  }

  function RunsAlways(): Sql {
    (tables, device, op) => Ran(tables)
  }

  lemma OneAccepted(clock: nat -> nat, device: DeviceId, was: State, op: SyncOperation)
    requires !op.entityType.UnknownType? && !op.operation.UnknownOp?
    ensures After(RunsAlways(), was.tables, device, [op]) == Some(was.tables)
    ensures Queued(was.queue, clock, device, Outcome(RunsAlways(), was.tables, device, [op], true)) ==
      was.queue.Add(clock, device, op)
  {
    assert [op][..0] == [];
    assert After(RunsAlways(), was.tables, device, []) == Some(was.tables);
    assert Outcome(RunsAlways(), was.tables, device, [op], true) == [] + [op];
    QueuedMore(was.queue, clock, device, [], op);
    assert [] + [op] == [op];
  }

  /** A push of one operation that runs. */
  method PushOne(db: ReaderDatabase, device: DeviceId, op: SyncOperation)
    requires db.Valid() && db.sql == RunsAlways() && !op.entityType.UnknownType? && !op.operation.UnknownOp?
    modifies db
    ensures db.Valid() && db.Now().queue == old(db.Now().queue).Add(db.clock, device, op)
  {
    hide After, Outcome, Queued, QueueHolds;
    OneAccepted(db.clock, device, db.Now(), op);
    var reply := db.PushSyncOperations(device, [op]);
  }

  lemma NothingDue(device: DeviceId, timestamp: nat, offset: nat)
    ensures OrderBy(Select([], device, timestamp, offset)) == []
  {
  }

  lemma PlaceSecond(a: OutboxRow, b: OutboxRow)
    ensures Place((x, y) => Before(x, y), [], a) == [a]
    ensures !Before(a, b) ==> Place((x, y) => Before(x, y), [a], b) == [b, a]
  {
    assert [a][..0] == [];
  }

  lemma TwoRows(a: OutboxRow, b: OutboxRow)
    requires a.device == b.device == "phone" && a.createdAt == 5 && b.createdAt == 3 && a.id == 1 && b.id == 2
    ensures DueRows([a, b], "tablet", Initial) == [b, a]
    ensures DueRows([a, b], "tablet", Behind([b])) == []
  {
    hide Select, OrderBy;
    var rows := [a, b];
    assert rows[..2] == rows && rows[..1] == [a] && rows[..0] == [];
    NothingDue("tablet", 0, 0);
    NothingDue("tablet", 3, 2);
    PlaceSecond(a, b);
    OneMoreDue(rows, 0, "tablet", 0, 0);
    OneMoreDue(rows, 1, "tablet", 0, 0);
    OneMoreDue(rows, 0, "tablet", 3, 2);
    OneMoreDue(rows, 1, "tablet", 3, 2);
  }

  /** A page of one row, and one of any size. */
  method PullTwice(db: ReaderDatabase, limit: nat, first: OutboxRow, second: OutboxRow)
    returns (received: seq<OutboxRow>)
    requires db.Valid() && db.outbox == [first, second]
    requires DueRows([first, second], "tablet", Initial) == [second, first]
    requires DueRows([first, second], "tablet", Behind([second])) == []
    ensures received == [second]
  {
    hide QueueHolds, DueRows, Follows;
    var client := new Client(db, "tablet");
    var _ := client.PullPage(1);
    assert client.received == [second];
    var _ := client.PullPage(limit);
    received := client.received;
  }

  /**
    With a clock that shows 5 and then 3, two pushes and a pull of one row: the row pushed first is passed
    over, and no further pull delivers it.
  */
  method BackwardClockLosesRow(op: SyncOperation, limit: nat) returns (received: seq<OutboxRow>, lost: OutboxRow)
    requires !op.entityType.UnknownType? && !op.operation.UnknownOp?
    ensures |received| == 1 && lost.device == "phone" && lost.op == op && lost !in received
  {
    hide QueueHolds, DueRows;
    var db := EmptyDatabase(n => if n == 0 then 5 else 3);
    PushOne(db, "phone", op);
    PushOne(db, "phone", op);
    var first, second := OutboxRow(1, "phone", op, 5), OutboxRow(2, "phone", op, 3);
    assert db.outbox == [first, second];
    TwoRows(first, second);
    received := PullTwice(db, limit, first, second);
    lost := first;
  }

  /** The same two pushes, pulled with room for both: the clock stepped back and nothing is lost. */
  method BackwardClockLosesNothing(op: SyncOperation, limit: nat) returns (received: seq<OutboxRow>)
    requires !op.entityType.UnknownType? && !op.operation.UnknownOp? && limit > 1
    ensures received == [OutboxRow(2, "phone", op, 3), OutboxRow(1, "phone", op, 5)]
  {
    hide QueueHolds, DueRows;
    var db := EmptyDatabase(n => if n == 0 then 5 else 3);
    PushOne(db, "phone", op);
    PushOne(db, "phone", op);
    var first, second := OutboxRow(1, "phone", op, 5), OutboxRow(2, "phone", op, 3);
    assert db.outbox == [first, second];
    TwoRows(first, second);
    var client := new Client(db, "tablet");
    client.PullAll(limit);
    received := client.received;
  }
}
