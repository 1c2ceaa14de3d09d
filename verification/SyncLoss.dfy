/** Which rows a device loses while it follows its cursor, whatever the clock does. */
module SyncLoss {
  import opened Base
  import opened Sorting
  import opened SyncOutbox

  predicate IsDue(row: OutboxRow, device: DeviceId, cursor: Cursor) {
    if cursor.At? then Due(row, device, cursor.timestamp, cursor.offset) else Due(row, device, 0, 0)
  }

  predicate IsTheirs(rows: seq<OutboxRow>, device: DeviceId, row: OutboxRow) {
    row in rows && row.device != device
  }

  /** A device has received these rows of the others, sorted and each once. */
  ghost predicate HasReceived(rows: seq<OutboxRow>, device: DeviceId, received: seq<OutboxRow>) {
    && Ordered((a, b) => Before(a, b), received) && NoRepeats(received)
    && forall row :: row in received ==> IsTheirs(rows, device, row)
  }

  /** Each row of the others has been received or is still due. */
  ghost predicate NothingLost(rows: seq<OutboxRow>, device: DeviceId, received: seq<OutboxRow>) {
    forall row :: IsTheirs(rows, device, row) ==> row in received || IsDue(row, device, Behind(received))
  }

  /** No row behind the first k has an id at or below the last of them. */
  ghost predicate CutRises(due: seq<OutboxRow>, k: nat)
    requires k <= |due|
  {
    forall j :: 0 < k <= j < |due| ==> due[k - 1].id < due[j].id
  }

  /** So it is at the end of every page of `limit` rows. */
  ghost predicate CutsRise(due: seq<OutboxRow>, limit: nat)
    requires limit > 0
  {
    |due| <= limit || (CutRises(due, limit) && CutsRise(due[limit..], limit))
  }

  // ----- one page -----

  lemma {:induction false} SelectMembers(rows: seq<OutboxRow>, device: DeviceId, timestamp: nat, offset: nat)
    requires RisingIds(rows)
    ensures forall row :: row in Select(rows, device, timestamp, offset) <==>
      row in rows && Due(row, device, timestamp, offset)
    ensures RisingIds(Select(rows, device, timestamp, offset))
  {
    if rows != [] {
      var front, last := rows[..|rows| - 1], rows[|rows| - 1];
      assert rows == front + [last];
      SelectMembers(front, device, timestamp, offset);
      SelectLast(front, last, device, timestamp, offset);
      forall row | row in front
        ensures row.id < last.id
      {
        var i :| 0 <= i < |front| && front[i] == row;
        assert rows[i] == row && rows[|front|] == last;
      }
      InOrderMore(Select(front, device, timestamp, offset), last);
    }
  }

  /** A pull finds the rows behind the cursor, sorted and each once. */
  lemma DueExactly(rows: seq<OutboxRow>, device: DeviceId, cursor: Cursor)
    requires RisingIds(rows)
    ensures forall row :: row in DueRows(rows, device, cursor) <==> row in rows && IsDue(row, device, cursor)
    ensures Ordered((a, b) => Before(a, b), DueRows(rows, device, cursor)) && NoRepeats(DueRows(rows, device, cursor))
  {
    hide Select;
    var timestamp, offset := if cursor.At? then cursor.timestamp else 0, if cursor.At? then cursor.offset else 0;
    var chosen := Select(rows, device, timestamp, offset);
    SelectMembers(rows, device, timestamp, offset);
    SortKeepsAll((a, b) => Before(a, b), chosen);
    SortKeepsDistinct((a, b) => Before(a, b), chosen);
    BeforeIsOrder();
    SortOrders((a, b) => Before(a, b), chosen);
  }

  lemma {:induction false} SameMembers(a: seq<OutboxRow>, b: seq<OutboxRow>)
    requires NoRepeats(a) && NoRepeats(b) && forall row :: row in a <==> row in b
    ensures multiset(a) == multiset(b)
  {
    NoRepeatsIffOnce(a);
    NoRepeatsIffOnce(b);
    forall row
      ensures multiset(a)[row] == multiset(b)[row]
    {
      assert row in multiset(a) <==> row in a;
      assert row in multiset(b) <==> row in b;
    }
  }

  lemma SameRows(a: seq<OutboxRow>, b: seq<OutboxRow>)
    requires NoRepeats(a) && NoRepeats(b) && forall row :: row in a <==> row in b
    requires Ordered((x, y) => Before(x, y), a) && Ordered((x, y) => Before(x, y), b) && ByIds(a)
    ensures a == b
  {
    SameMembers(a, b);
    OrderedIsUnique((x, y) => Before(x, y), a, b);
  }

  /** Rows with the same id are the same. */
  ghost predicate ByIds(rows: seq<OutboxRow>) {
    forall i, j :: 0 <= i < |rows| && 0 <= j < |rows| && rows[i].id == rows[j].id ==> rows[i] == rows[j]
  }

  lemma BehindLast(device: DeviceId, received: seq<OutboxRow>, x: OutboxRow, y: OutboxRow)
    requires Ordered((a, b) => Before(a, b), received) && x in received && IsDue(y, device, Behind(received))
    ensures Before(x, y) && x != y
  {
    var i :| 0 <= i < |received| && received[i] == x;
    assert i < |received| - 1 ==> Before(received[i], received[|received| - 1]);
  }

  lemma OrderedJoin(a: seq<OutboxRow>, b: seq<OutboxRow>)
    requires Ordered((x, y) => Before(x, y), a) && Ordered((x, y) => Before(x, y), b) && NoRepeats(a) && NoRepeats(b)
    requires forall x, y :: x in a && y in b ==> Before(x, y) && x != y
    ensures Ordered((x, y) => Before(x, y), a + b) && NoRepeats(a + b)
  {
    forall i, j | 0 <= i < j < |a + b|
      ensures Before((a + b)[i], (a + b)[j]) && (a + b)[i] != (a + b)[j]
    {
      if j < |a| {
        assert Before(a[i], a[j]) && a[i] != a[j];
      } else if i >= |a| {
        assert Before(b[i - |a|], b[j - |a|]) && b[i - |a|] != b[j - |a|];
      } else {
        assert a[i] in a && b[j - |a|] in b;
      }
    }
  }

  /** The first k due rows continue what was received. */
  lemma PageReceived(rows: seq<OutboxRow>, device: DeviceId, received: seq<OutboxRow>, k: nat)
    requires RisingIds(rows) && HasReceived(rows, device, received)
    requires k <= |DueRows(rows, device, Behind(received))|
    ensures HasReceived(rows, device, received + DueRows(rows, device, Behind(received))[..k])
  {
    hide DueRows;
    var due := DueRows(rows, device, Behind(received));
    DueExactly(rows, device, Behind(received));
    forall x, y | x in received && y in due[..k]
      ensures Before(x, y) && x != y
    {
      assert y in due;
      BehindLast(device, received, x, y);
    }
    forall row | row in due[..k]
      ensures IsTheirs(rows, device, row)
    {
      assert row in due;
    }
    OrderedJoin(received, due[..k]);
  }

  /** What is due behind them are the rest, but for rows with an id at or below the last of them. */
  lemma DueBehindPage(rows: seq<OutboxRow>, device: DeviceId, received: seq<OutboxRow>, k: nat)
    requires RisingIds(rows) && 0 < k <= |DueRows(rows, device, Behind(received))|
    ensures var due := DueRows(rows, device, Behind(received)); var last := due[k - 1];
      forall row :: row in rows && IsDue(row, device, Behind(received + due[..k])) <==>
        row in due[k..] && row.id > last.id
  {
    hide DueRows, RisingIds, NoRepeats;
    var due := DueRows(rows, device, Behind(received));
    var more, last := received + due[..k], due[k - 1];
    DueExactly(rows, device, Behind(received));
    assert more[|more| - 1] == last && IsDue(last, device, Behind(received));
    assert due == due[..k] + due[k..];
    forall i | 0 <= i < k
      ensures !IsDue(due[i], device, Behind(more))
    {
      assert i < k - 1 ==> Before(due[i], last);
    }
    forall row
      ensures row in rows && IsDue(row, device, Behind(more)) <==> row in due[k..] && row.id > last.id
    {
      if row in due[k..] && row.id > last.id {
        var i :| 0 <= i < |due[k..]| && due[k..][i] == row;
        assert due[k + i] == row && due[k + i] in due && Before(last, row);
        assert IsDue(row, device, Behind(received));
      }
    }
  }

  /** A page loses nothing exactly when the ids rise at its end. */
  lemma PageLoses(rows: seq<OutboxRow>, device: DeviceId, received: seq<OutboxRow>, k: nat)
    requires RisingIds(rows) && HasReceived(rows, device, received)
    requires k <= |DueRows(rows, device, Behind(received))|
    ensures var due := DueRows(rows, device, Behind(received));
      NothingLost(rows, device, received + due[..k]) <==> NothingLost(rows, device, received) && CutRises(due, k)
  {
    hide DueRows, RisingIds, IsDue;
    var due := DueRows(rows, device, Behind(received));
    var more := received + due[..k];
    if k == 0 {
      assert more == received;
    } else {
      DueExactly(rows, device, Behind(received));
      DueBehindPage(rows, device, received, k);
      assert due == due[..k] + due[k..];
      if NothingLost(rows, device, received) && CutRises(due, k) {
        forall row | IsTheirs(rows, device, row)
          ensures row in more || IsDue(row, device, Behind(more))
        {
          if row in due[k..] {
            var i :| 0 <= i < |due[k..]| && due[k..][i] == row;
            assert due[k + i] == row;
          }
        }
      }
      if NothingLost(rows, device, more) {
        forall j | k <= j < |due|
          ensures due[k - 1].id < due[j].id
        {
          DueIsTheirs(rows, device, received, due[j]);
          assert due[j] !in due[..k];
        }
        forall row | IsTheirs(rows, device, row)
          ensures row in received || IsDue(row, device, Behind(received))
        {
          assert row in more ==> row in received || row in due;
        }
      }
    }
  }

  lemma DueIsTheirs(rows: seq<OutboxRow>, device: DeviceId, received: seq<OutboxRow>, row: OutboxRow)
    requires Ordered((a, b) => Before(a, b), received) && row in rows && IsDue(row, device, Behind(received))
    ensures IsTheirs(rows, device, row) && row !in received
  {
    if row in received {
      BehindLast(device, received, row, row);
    }
  }

  /** A row that is neither received nor due stays so. */
  lemma LostStaysLost(rows: seq<OutboxRow>, device: DeviceId, received: seq<OutboxRow>, k: nat, row: OutboxRow)
    requires RisingIds(rows) && k <= |DueRows(rows, device, Behind(received))|
    requires row in rows && row !in received && !IsDue(row, device, Behind(received))
    ensures var more := received + DueRows(rows, device, Behind(received))[..k];
      row !in more && !IsDue(row, device, Behind(more))
  {
    hide DueRows, IsDue, RisingIds;
    var due := DueRows(rows, device, Behind(received));
    DueExactly(rows, device, Behind(received));
    assert due == due[..k] + due[k..];
    if k == 0 {
      assert received + due[..0] == received;
    } else {
      DueBehindPage(rows, device, received, k);
    }
  }

  /** Where the ids rise at the end of a page, the next one goes on with the rest. */
  lemma RestIsDue(rows: seq<OutboxRow>, device: DeviceId, received: seq<OutboxRow>, k: nat)
    requires RisingIds(rows)
    requires k <= |DueRows(rows, device, Behind(received))| && CutRises(DueRows(rows, device, Behind(received)), k)
    ensures var due := DueRows(rows, device, Behind(received));
      DueRows(rows, device, Behind(received + due[..k])) == due[k..]
  {
    hide DueRows, IsDue;
    var due := DueRows(rows, device, Behind(received));
    if k == 0 {
      assert received + due[..0] == received && due[0..] == due;
    } else {
      var next := DueRows(rows, device, Behind(received + due[..k]));
      DueExactly(rows, device, Behind(received));
      DueExactly(rows, device, Behind(received + due[..k]));
      DueBehindPage(rows, device, received, k);
      forall row
        ensures row in next <==> row in due[k..]
      {
        if row in due[k..] {
          var i :| 0 <= i < |due[k..]| && due[k..][i] == row;
          assert due[k + i] == row && due[k + i] in due;
        }
      }
      InRows(rows, next);
      SameRows(next, due[k..]);
    }
  }

  lemma InRows(rows: seq<OutboxRow>, some: seq<OutboxRow>)
    requires RisingIds(rows) && forall row :: row in some ==> row in rows
    ensures ByIds(some)
  {
    forall i, j | 0 <= i < |some| && 0 <= j < |some| && some[i].id == some[j].id
      ensures some[i] == some[j]
    {
      assert some[i] in rows && some[j] in rows;
    }
  }

  // ----- all pages -----

  /**
    Some pages after a device had received `was` and `all` was due: the rest of `all` is due, or a row of it is lost
    because the ids did not rise at the end of some page.
  */
  ghost predicate Along(
    rows: seq<OutboxRow>, device: DeviceId, was: seq<OutboxRow>, all: seq<OutboxRow>, limit: nat,
    received: seq<OutboxRow>, lost: Option<OutboxRow>)
    requires limit > 0
  {
    var due := DueRows(rows, device, Behind(received));
    match lost
    case None => was <= received && received + due == was + all && (CutsRise(all, limit) <==> CutsRise(due, limit))
    case Some(row) =>
      && IsTheirs(rows, device, row) && row in all && !CutsRise(all, limit)
      && row !in received && !IsDue(row, device, Behind(received))
  }

  lemma PageBreaks(rows: seq<OutboxRow>, device: DeviceId, received: seq<OutboxRow>, k: nat, j: nat)
    requires RisingIds(rows) && HasReceived(rows, device, received)
    requires 0 < k <= j < |DueRows(rows, device, Behind(received))|
    requires var due := DueRows(rows, device, Behind(received)); due[j].id <= due[k - 1].id
    ensures var due := DueRows(rows, device, Behind(received)); var more := received + due[..k];
      IsTheirs(rows, device, due[j]) && due[j] !in more && !IsDue(due[j], device, Behind(more))
  {
    hide DueRows, IsDue, RisingIds;
    var due := DueRows(rows, device, Behind(received));
    DueExactly(rows, device, Behind(received));
    DueIsTheirs(rows, device, received, due[j]);
    DueBehindPage(rows, device, received, k);
    assert due[j] !in due[..k];
  }

  lemma AlongAtStart(rows: seq<OutboxRow>, device: DeviceId, received: seq<OutboxRow>, limit: nat)
    requires limit > 0
    ensures Along(rows, device, received, DueRows(rows, device, Behind(received)), limit, received, None)
  {
  }

  /** With nothing due any more, all that was due has been received, exactly if the ids rose at every page's end. */
  lemma AlongAtEnd(
    rows: seq<OutboxRow>, device: DeviceId, was: seq<OutboxRow>, all: seq<OutboxRow>, limit: nat,
    received: seq<OutboxRow>, lost: Option<OutboxRow>)
    requires limit > 0 && Along(rows, device, was, all, limit, received, lost)
    requires RisingIds(rows) && HasReceived(rows, device, received) && DueRows(rows, device, Behind(received)) == []
    ensures received == was + all <==> CutsRise(all, limit)
    ensures lost.None? <==> CutsRise(all, limit)
    ensures multiset(received) == multiset(Others(rows, device)) <==> NothingLost(rows, device, received)
  {
    hide DueRows, IsDue, RisingIds, HasReceived;
    DueExactly(rows, device, Behind(received));
    AllReceived(rows, device, received);
    assert lost.Some? ==> lost.value in was + all;
  }

  /** Behind a last page nothing is due. */
  lemma LastPageEnds(rows: seq<OutboxRow>, device: DeviceId, received: seq<OutboxRow>)
    requires RisingIds(rows)
    ensures var due := DueRows(rows, device, Behind(received)); DueRows(rows, device, Behind(received + due)) == []
  {
    hide DueRows;
    var due := DueRows(rows, device, Behind(received));
    assert due[..|due|] == due;
    RestIsDue(rows, device, received, |due|);
  }

  /** One more page: it loses a row exactly when the ids do not rise at its end. */
  lemma OnePageAlong(
    rows: seq<OutboxRow>, device: DeviceId, was: seq<OutboxRow>, all: seq<OutboxRow>, limit: nat,
    received: seq<OutboxRow>, lost: Option<OutboxRow>)
    returns (lost': Option<OutboxRow>)
    requires RisingIds(rows) && HasReceived(rows, device, received) && limit > 0
    requires Along(rows, device, was, all, limit, received, lost)
    ensures var due := DueRows(rows, device, Behind(received)); var page := PageOf(due, limit);
      && Along(rows, device, was, all, limit, received + page, lost')
      && (lost'.None? <==> lost.None? && CutRises(due, |page|))
  {
    hide DueRows, IsDue, RisingIds, HasReceived;
    var due := DueRows(rows, device, Behind(received));
    var page := PageOf(due, limit);
    assert page == due[..|page|];
    lost' := lost;
    if lost.Some? {
      LostStaysLost(rows, device, received, |page|, lost.value);
    } else if CutRises(due, |page|) {
      RestIsDue(rows, device, received, |page|);
      assert received + page + due[|page|..] == received + due;
    } else {
      var j :| |page| <= j < |due| && due[j].id <= due[|page| - 1].id;
      PageBreaks(rows, device, received, |page|, j);
      assert due[j] == (received + due)[|received| + j] && |received| + j >= |was|;
      assert due[j] == all[|received| + j - |was|];
      lost' := Some(due[j]);
    }
  }

  /** With nothing due any more, everything has been received exactly if nothing was lost. */
  lemma AllReceived(rows: seq<OutboxRow>, device: DeviceId, received: seq<OutboxRow>)
    requires RisingIds(rows) && HasReceived(rows, device, received)
    requires forall row :: row in rows ==> !IsDue(row, device, Behind(received))
    ensures multiset(received) == multiset(Others(rows, device)) <==> NothingLost(rows, device, received)
  {
    hide IsDue, Others;
    OthersMembers(rows, device);
    OthersKeepIds(rows, device);
    var others := Others(rows, device);
    if NothingLost(rows, device, received) {
      SameMembers(received, others);
    } else if multiset(received) == multiset(others) {
      forall row | row in others
        ensures row in received
      {
        assert row in multiset(others);
      }
    }
  }

  /** Pages of one row lose nothing exactly when the others' timestamps never fall. */
  lemma OneRowPages(rows: seq<OutboxRow>, device: DeviceId)
    requires RisingIds(rows) && PositiveIds(rows)
    ensures CutsRise(DueRows(rows, device, Initial), 1) <==> TimesNeverFall(Others(rows, device))
  {
    hide DueRows, Others;
    var due, others := DueRows(rows, device, Initial), Others(rows, device);
    AllAreOthers(rows, device);
    OthersKeepIds(rows, device);
    EachCutRises(due);
    if TimesNeverFall(others) {
      DueIsTheRest(rows, device, 0);
      assert due == others;
    } else if RisingIds(due) {
      SameByIds(due, others);
    }
  }

  lemma {:induction false} EachCutRises(due: seq<OutboxRow>)
    ensures CutsRise(due, 1) <==> RisingIds(due)
  {
    if |due| > 1 {
      EachCutRises(due[1..]);
      if RisingIds(due[1..]) && CutRises(due, 1) {
        forall i, j | 0 <= i < j < |due|
          ensures due[i].id < due[j].id
        {
          assert i > 0 ==> due[1..][i - 1].id < due[1..][j - 1].id;
        }
      }
    }
  }

  /** Timestamps that never fall make every page size safe. */
  lemma {:induction false} RisingIsSafe(due: seq<OutboxRow>, limit: nat)
    requires RisingIds(due) && limit > 0
    ensures CutsRise(due, limit)
  {
    if |due| > limit {
      RisingIsSafe(due[limit..], limit);
    }
  }
}
