/** The rows of the sync outbox, the pages a cursor selects, and when following the cursor misses nothing. */
module SyncOutbox {
  import opened Sorting

  type DeviceId = string

  datatype EntityType = Source | Session | Highlight | NoteEntity | ReaderItem | UnknownType

  datatype OperationType = CreateOp | UpdateOp | DeleteOp | UnknownOp

  datatype SyncOperation = SyncOperation(
    entityType: EntityType, entityId: string, operation: OperationType, data: string)

  datatype OutboxRow = OutboxRow(id: nat, device: DeviceId, op: SyncOperation, createdAt: nat)

  /** `Malformed` is a cursor text that is not `timestamp:offset`. */
  datatype Cursor = Initial | At(timestamp: nat, offset: nat) | Malformed

  // ----- the outbox -----

  /** The row belongs to another device and lies behind the cursor. */
  predicate Due(row: OutboxRow, device: DeviceId, timestamp: nat, offset: nat) {
    row.device != device && row.createdAt >= timestamp && row.id > offset
  }

  function Select(rows: seq<OutboxRow>, device: DeviceId, timestamp: nat, offset: nat): seq<OutboxRow> {
    if rows == [] then []
    else
      Select(rows[..|rows| - 1], device, timestamp, offset) +
      if Due(rows[|rows| - 1], device, timestamp, offset) then [rows[|rows| - 1]] else []
  }

  /** The rows of all other devices. */
  function Others(rows: seq<OutboxRow>, device: DeviceId): seq<OutboxRow> {
    if rows == [] then []
    else Others(rows[..|rows| - 1], device) + if rows[|rows| - 1].device != device then [rows[|rows| - 1]] else []
  }

  ghost predicate RisingIds(rows: seq<OutboxRow>) {
    forall i, j :: 0 <= i < j < |rows| ==> rows[i].id < rows[j].id
  }

  ghost predicate TimesNeverFall(rows: seq<OutboxRow>) {
    forall i, j :: 0 <= i < j < |rows| ==> rows[i].createdAt <= rows[j].createdAt
  }

  /** Ids rise strictly, timestamps never fall. */
  ghost predicate InOrder(rows: seq<OutboxRow>) {
    RisingIds(rows) && TimesNeverFall(rows)
  }

  ghost predicate PositiveIds(rows: seq<OutboxRow>) {
    forall i :: 0 <= i < |rows| ==> rows[i].id > 0
  }

  predicate Before(a: OutboxRow, b: OutboxRow) {
    a.createdAt < b.createdAt || (a.createdAt == b.createdAt && a.id <= b.id)
  }

  /** ORDER BY created_at, id. */
  function OrderBy(rows: seq<OutboxRow>): seq<OutboxRow> {
    Sort((a, b) => Before(a, b), rows)
  }

  lemma InOrderIsSorted(rows: seq<OutboxRow>)
    requires InOrder(rows)
    ensures OrderBy(rows) == rows
  {
    SortOfOrdered((a, b) => Before(a, b), rows);
  }

  lemma {:induction false} SelectInOrder(rows: seq<OutboxRow>, device: DeviceId, timestamp: nat, offset: nat)
    requires InOrder(rows)
    ensures InOrder(Select(rows, device, timestamp, offset))
    ensures forall row :: row in Select(rows, device, timestamp, offset) <==>
      row in rows && Due(row, device, timestamp, offset)
  {
    if rows != [] {
      var n := |rows| - 1;
      assert InOrder(rows[..n]);
      SelectInOrder(rows[..n], device, timestamp, offset);
      assert rows == rows[..n] + [rows[n]];
      var front := Select(rows[..n], device, timestamp, offset);
      forall i | 0 <= i < |front|
        ensures front[i].id < rows[n].id && front[i].createdAt <= rows[n].createdAt
      {
        assert front[i] in rows[..n];
      }
    }
  }

  lemma {:induction false} OthersIsSelect(rows: seq<OutboxRow>, device: DeviceId)
    requires PositiveIds(rows)
    ensures Others(rows, device) == Select(rows, device, 0, 0)
  {
    if rows != [] {
      OthersIsSelect(rows[..|rows| - 1], device);
    }
  }

  lemma {:induction false} OthersMembers(rows: seq<OutboxRow>, device: DeviceId)
    ensures forall row :: row in Others(rows, device) <==> row in rows && row.device != device
  {
    if rows != [] {
      OthersMembers(rows[..|rows| - 1], device);
      assert rows == rows[..|rows| - 1] + [rows[|rows| - 1]];
    }
  }

  lemma {:induction false} OthersAppend(rows: seq<OutboxRow>, more: seq<OutboxRow>, device: DeviceId)
    ensures Others(rows + more, device) == Others(rows, device) + Others(more, device)
  {
    if more == [] {
      assert rows + more == rows;
    } else {
      var n := |more| - 1;
      assert (rows + more)[..|rows + more| - 1] == rows + more[..n];
      OthersAppend(rows, more[..n], device);
    }
  }

  /** Behind the row that was delivered last lie exactly the others' rows after it. */
  lemma {:induction false} SelectBehind(rows: seq<OutboxRow>, device: DeviceId, k: nat)
    requires InOrder(rows) && k < |Others(rows, device)|
    ensures var last := Others(rows, device)[k];
      Select(rows, device, last.createdAt, last.id) == Others(rows, device)[k + 1..]
  {
    var n := |rows| - 1;
    var front := Others(rows[..n], device);
    var last := Others(rows, device)[k];
    assert InOrder(rows[..n]);
    if k < |front| {
      SelectBehind(rows[..n], device, k);
      assert front[k] in rows[..n] by {
        OthersMembers(rows[..n], device);
      }
      assert last == front[k] && Before(last, rows[n]);
      assert rows[n].device != device ==> Others(rows, device)[k + 1..] == front[k + 1..] + [rows[n]];
    } else {
      NothingBehind(rows, device, last);
    }
  }

  lemma {:induction false} NothingBehind(rows: seq<OutboxRow>, device: DeviceId, last: OutboxRow)
    requires forall i :: 0 <= i < |rows| ==> rows[i].id <= last.id
    ensures Select(rows, device, last.createdAt, last.id) == []
  {
    if rows != [] {
      NothingBehind(rows[..|rows| - 1], device, last);
    }
  }

  /** The cursor's rows in page order. */
  function DueRows(rows: seq<OutboxRow>, device: DeviceId, cursor: Cursor): seq<OutboxRow> {
    OrderBy(if cursor.At? then Select(rows, device, cursor.timestamp, cursor.offset) else Select(rows, device, 0, 0))
  }

  lemma SelectMore(rows: seq<OutboxRow>, i: nat, device: DeviceId, timestamp: nat, offset: nat)
    requires i < |rows|
    ensures Select(rows[..i + 1], device, timestamp, offset) ==
      if Due(rows[i], device, timestamp, offset) then Select(rows[..i], device, timestamp, offset) + [rows[i]]
      else Select(rows[..i], device, timestamp, offset)
  {
    assert rows[..i + 1][..i] == rows[..i];
  }

  lemma OrderByMore(rows: seq<OutboxRow>, row: OutboxRow)
    ensures OrderBy(rows + [row]) == Place((a, b) => Before(a, b), OrderBy(rows), row)
  {
    assert (rows + [row])[..|rows|] == rows;
  }

  lemma OneMoreDue(rows: seq<OutboxRow>, i: nat, device: DeviceId, timestamp: nat, offset: nat)
    requires i < |rows|
    ensures var chosen := OrderBy(Select(rows[..i], device, timestamp, offset));
      OrderBy(Select(rows[..i + 1], device, timestamp, offset)) ==
      if Due(rows[i], device, timestamp, offset) then Place((a, b) => Before(a, b), chosen, rows[i]) else chosen
  {
    SelectMore(rows, i, device, timestamp, offset);
    OrderByMore(Select(rows[..i], device, timestamp, offset), rows[i]);
  }

  // ----- following the cursor -----

  function PageOf(due: seq<OutboxRow>, limit: nat): seq<OutboxRow> {
    if |due| > limit then due[..limit] else due
  }

  /** The cursor behind the last of these rows. */
  function Behind(rows: seq<OutboxRow>): Cursor {
    if rows == [] then Initial else At(rows[|rows| - 1].createdAt, rows[|rows| - 1].id)
  }

  lemma SelectIsPage(rows: seq<OutboxRow>, device: DeviceId, timestamp: nat, offset: nat)
    requires InOrder(rows)
    ensures OrderBy(Select(rows, device, timestamp, offset)) == Select(rows, device, timestamp, offset)
  {
    SelectInOrder(rows, device, timestamp, offset);
    InOrderIsSorted(Select(rows, device, timestamp, offset));
  }

  lemma SelectLast(rows: seq<OutboxRow>, row: OutboxRow, device: DeviceId, timestamp: nat, offset: nat)
    ensures Select(rows + [row], device, timestamp, offset) ==
      Select(rows, device, timestamp, offset) + if Due(row, device, timestamp, offset) then [row] else []
  {
    assert (rows + [row])[..|rows|] == rows;
  }

  lemma OthersLast(rows: seq<OutboxRow>, row: OutboxRow, device: DeviceId)
    ensures Others(rows + [row], device) == Others(rows, device) + if row.device != device then [row] else []
  {
    assert (rows + [row])[..|rows|] == rows;
  }

  /** A pull of a device sees the rows of the others alone. */
  lemma {:induction false} SelectOfOthers(rows: seq<OutboxRow>, device: DeviceId, timestamp: nat, offset: nat)
    ensures Select(Others(rows, device), device, timestamp, offset) == Select(rows, device, timestamp, offset)
    ensures Others(Others(rows, device), device) == Others(rows, device)
  {
    if rows == [] {
      NoRows(device, timestamp, offset);
    } else {
      hide Select, Others;
      var front, last := rows[..|rows| - 1], rows[|rows| - 1];
      assert rows == front + [last];
      SelectOfOthers(front, device, timestamp, offset);
      SelectLast(front, last, device, timestamp, offset);
      OthersLast(front, last, device);
      SelectLast(Others(front, device), last, device, timestamp, offset);
      OthersLast(Others(front, device), last, device);
      assert Others(front, device) + [] == Others(front, device);
      assert Select(front, device, timestamp, offset) + [] == Select(front, device, timestamp, offset);
    }
  }

  lemma NoRows(device: DeviceId, timestamp: nat, offset: nat)
    ensures Select([], device, timestamp, offset) == [] == Others([], device)
  {
  }

  lemma InOrderMore(rows: seq<OutboxRow>, row: OutboxRow)
    ensures RisingIds(rows + [row]) <==> RisingIds(rows) && forall x :: x in rows ==> x.id < row.id
    ensures TimesNeverFall(rows + [row]) <==>
      TimesNeverFall(rows) && forall x :: x in rows ==> x.createdAt <= row.createdAt
  {
    var more := rows + [row];
    assert more[|rows|] == row && forall i :: 0 <= i < |rows| ==> more[i] == rows[i];
    if RisingIds(more) {
      assert RisingIds(rows);
    }
    if TimesNeverFall(more) {
      assert TimesNeverFall(rows);
    }
  }

  lemma {:induction false} OthersKeepIds(rows: seq<OutboxRow>, device: DeviceId)
    ensures RisingIds(rows) ==> RisingIds(Others(rows, device))
    ensures TimesNeverFall(rows) ==> TimesNeverFall(Others(rows, device))
  {
    if rows == [] {
      NoRows(device, 0, 0);
    } else {
      hide RisingIds, TimesNeverFall, Others;
      var front, last := rows[..|rows| - 1], rows[|rows| - 1];
      assert rows == front + [last];
      OthersKeepIds(front, device);
      OthersMembers(front, device);
      OthersLast(front, last, device);
      InOrderMore(front, last);
      InOrderMore(Others(front, device), last);
      assert Others(front, device) + [] == Others(front, device);
    }
  }

  /** What a pull finds behind the first n rows of the others is exactly the rest, if those are in order. */
  lemma DueIsTheRest(rows: seq<OutboxRow>, device: DeviceId, n: nat)
    requires InOrder(Others(rows, device)) && PositiveIds(rows) && n <= |Others(rows, device)|
    ensures DueRows(rows, device, Behind(Others(rows, device)[..n])) == Others(rows, device)[n..]
  {
    hide Others, Select, OrderBy, InOrder;
    var others := Others(rows, device);
    SelectOfOthers(rows, device, 0, 0);
    if n == 0 {
      OthersIsSelect(rows, device);
      InOrderIsSorted(others);
    } else {
      var last := others[n - 1];
      SelectOfOthers(rows, device, last.createdAt, last.id);
      SelectBehind(others, device, n - 1);
      SelectIsPage(others, device, last.createdAt, last.id);
    }
  }

  /** Whichever row a page ends with, the next page goes on behind it. */
  ghost predicate EveryCutGoesOn(rows: seq<OutboxRow>, device: DeviceId) {
    var all := DueRows(rows, device, Initial);
    forall k :: 0 <= k <= |all| ==> DueRows(rows, device, Behind(all[..k])) == all[k..]
  }

  ghost predicate IsPage(page: seq<OutboxRow>, device: DeviceId, timestamp: nat, offset: nat) {
    && Ordered((a, b) => Before(a, b), page)
    && forall row :: row in page ==> Due(row, device, timestamp, offset)
  }

  lemma BeforeIsOrder()
    ensures IsOrder((a, b) => Before(a, b))
  {
  }

  lemma {:induction false} SelectIsDue(rows: seq<OutboxRow>, device: DeviceId, timestamp: nat, offset: nat)
    ensures forall row :: row in Select(rows, device, timestamp, offset) ==> Due(row, device, timestamp, offset)
    ensures multiset(Select(rows, device, timestamp, offset)) <= multiset(rows)
  {
    if rows != [] {
      SelectIsDue(rows[..|rows| - 1], device, timestamp, offset);
      assert rows == rows[..|rows| - 1] + [rows[|rows| - 1]];
    }
  }

  /** What is due is sorted and lies behind the cursor, whatever the clock did. */
  lemma DueIsPage(rows: seq<OutboxRow>, device: DeviceId, timestamp: nat, offset: nat)
    ensures IsPage(OrderBy(Select(rows, device, timestamp, offset)), device, timestamp, offset)
    ensures multiset(OrderBy(Select(rows, device, timestamp, offset))) <= multiset(rows)
  {
    BeforeIsOrder();
    SortOrders((a, b) => Before(a, b), Select(rows, device, timestamp, offset));
    SortKeepsAll((a, b) => Before(a, b), Select(rows, device, timestamp, offset));
    SelectIsDue(rows, device, timestamp, offset);
  }

  lemma SameByIds(a: seq<OutboxRow>, b: seq<OutboxRow>)
    requires RisingIds(a) && RisingIds(b) && multiset(a) == multiset(b)
    ensures a == b
  {
    OrderedIsUnique((x: OutboxRow, y: OutboxRow) => x.id <= y.id, a, b);
  }

  lemma DueBehindRow(rows: seq<OutboxRow>, device: DeviceId, row: OutboxRow)
    ensures forall due :: due in DueRows(rows, device, At(row.createdAt, row.id)) ==> row.id < due.id
  {
    DueIsPage(rows, device, row.createdAt, row.id);
  }

  lemma CutIsRising(rows: seq<OutboxRow>, device: DeviceId, all: seq<OutboxRow>, i: nat, j: nat)
    requires all == DueRows(rows, device, Initial) && EveryCutGoesOn(rows, device) && i < j < |all|
    ensures all[i].id < all[j].id
  {
    hide DueRows;
    assert all[..i + 1][i] == all[i];
    assert DueRows(rows, device, Behind(all[..i + 1])) == all[i + 1..];
    DueBehindRow(rows, device, all[i]);
    assert all[j] == all[i + 1..][j - i - 1];
  }

  /** The first page without a limit: the others' rows, sorted. */
  lemma AllAreOthers(rows: seq<OutboxRow>, device: DeviceId)
    requires PositiveIds(rows)
    ensures multiset(DueRows(rows, device, Initial)) == multiset(Others(rows, device))
    ensures TimesNeverFall(DueRows(rows, device, Initial))
  {
    OthersIsSelect(rows, device);
    DueIsPage(rows, device, 0, 0);
    SortKeepsAll((a, b) => Before(a, b), Others(rows, device));
  }

  /** Pages that go on at every cut have rising ids, so they come in the order of the outbox. */
  lemma GoingOnIsInOrder(rows: seq<OutboxRow>, device: DeviceId)
    requires RisingIds(rows) && PositiveIds(rows) && EveryCutGoesOn(rows, device)
    ensures InOrder(Others(rows, device))
  {
    hide DueRows, Others, EveryCutGoesOn, PositiveIds;
    var all := DueRows(rows, device, Initial);
    AllAreOthers(rows, device);
    OthersKeepIds(rows, device);
    forall i, j | 0 <= i < j < |all|
      ensures all[i].id < all[j].id
    {
      CutIsRising(rows, device, all, i, j);
    }
    SameByIds(all, Others(rows, device));
  }

  /** Every cut goes on exactly when the timestamps of the others' rows never fall. */
  lemma GoesOnExactly(rows: seq<OutboxRow>, device: DeviceId)
    requires RisingIds(rows) && PositiveIds(rows)
    ensures EveryCutGoesOn(rows, device) <==> TimesNeverFall(Others(rows, device))
  {
    OthersKeepIds(rows, device);
    if TimesNeverFall(Others(rows, device)) {
      var others := Others(rows, device);
      DueIsTheRest(rows, device, 0);
      forall k | 0 <= k <= |others|
        ensures DueRows(rows, device, Behind(others[..k])) == others[k..]
      {
        DueIsTheRest(rows, device, k);
      }
    } else if EveryCutGoesOn(rows, device) {
      GoingOnIsInOrder(rows, device);
    }
  }

  lemma OthersInOrder(rows: seq<OutboxRow>, device: DeviceId)
    requires RisingIds(rows) && TimesNeverFall(Others(rows, device))
    ensures InOrder(Others(rows, device))
  {
    OthersKeepIds(rows, device);
  }

  /** A page continues what was received. */
  lemma NextPage(rows: seq<OutboxRow>, device: DeviceId, received: seq<OutboxRow>, limit: nat)
    requires InOrder(Others(rows, device)) && PositiveIds(rows) && received <= Others(rows, device)
    ensures var due := DueRows(rows, device, Behind(received)); var page := PageOf(due, limit);
      && received + page <= Others(rows, device)
      && (|due| <= limit ==> received + page == Others(rows, device))
  {
    var others := Others(rows, device);
    assert received == others[..|received|];
    DueIsTheRest(rows, device, |received|);
    var due := DueRows(rows, device, Behind(received));
    assert received + due == others;
  }

  ghost predicate PageBehind(rows: seq<OutboxRow>, page: seq<OutboxRow>, timestamp: nat, offset: nat) {
    TimesNeverFall(page) && forall row :: row in page ==> row in rows && row.createdAt >= timestamp && row.id > offset
  }

  lemma PageOfDue(rows: seq<OutboxRow>, device: DeviceId, cursor: Cursor, limit: nat)
    requires !cursor.Malformed?
    ensures var page := PageOf(DueRows(rows, device, cursor), limit);
      if cursor.At? then PageBehind(rows, page, cursor.timestamp, cursor.offset) else PageBehind(rows, page, 0, 0)
  {
    var timestamp, offset := if cursor.At? then cursor.timestamp else 0, if cursor.At? then cursor.offset else 0;
    var due := DueRows(rows, device, cursor);
    DueIsPage(rows, device, timestamp, offset);
    var page := PageOf(due, limit);
    assert page <= due;
    forall row | row in page
      ensures row in rows && Due(row, device, timestamp, offset)
    {
      assert row in due && row in multiset(due) && row in multiset(rows);
    }
  }

  lemma {:induction false} TimesAppend(a: seq<OutboxRow>, b: seq<OutboxRow>)
    requires TimesNeverFall(a) && TimesNeverFall(b)
    requires a != [] ==> forall row :: row in b ==> row.createdAt >= a[|a| - 1].createdAt
    ensures TimesNeverFall(a + b)
  {
    forall i, j | 0 <= i < j < |a + b|
      ensures (a + b)[i].createdAt <= (a + b)[j].createdAt
    {
      if i < |a| <= j {
        assert b[j - |a|] in b;
        assert i < |a| - 1 ==> a[i].createdAt <= a[|a| - 1].createdAt;
      }
    }
  }

  /** A page never goes back in time behind what was received, and ends behind a larger id. */
  lemma PageGoesOn(rows: seq<OutboxRow>, device: DeviceId, received: seq<OutboxRow>, limit: nat)
    requires TimesNeverFall(received)
    ensures var page := PageOf(DueRows(rows, device, Behind(received)), limit);
      && TimesNeverFall(received + page)
      && (page != [] ==> page[|page| - 1] in rows)
      && (page != [] && received != [] ==> page[|page| - 1].id > received[|received| - 1].id)
  {
    hide DueRows, PageOf;
    var page := PageOf(DueRows(rows, device, Behind(received)), limit);
    PageOfDue(rows, device, Behind(received), limit);
    TimesAppend(received, page);
    assert page != [] ==> page[|page| - 1] in page;
  }
}
