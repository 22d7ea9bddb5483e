/**
 * The bookings table and the two queries the repository declares on it:
 * `findAllPendingBookings` and `existsConflictingBookings`. The table is a
 * sequence of rows in insertion order (which is id order); the queries are
 * functions of it. `save`, `findById` and the loading of entities, which the
 * repository inherits from the persistence framework, are the methods of
 * `BookingStore`.
 */
module Repository {
  import opened BookingModel

  /** One row of the `bookings` table; every column is non-null once stored. */
  datatype Row = Row(
    id: int,
    roomId: int,
    startTime: int,
    endTime: int,
    requestTime: int,
    status: BookingStatus)

  /** The entity the persistence layer builds from a row. */
  function RowState(r: Row): (st: BookingState)
    ensures Persistable(st) && st.bookingId == Some(r.id)
  {
    BookingState(Some(r.id), Some(r.roomId), Some(r.startTime), Some(r.endTime),
                 Some(r.requestTime), Some(r.status))
  }

  /** Every entity state is persistable and has an id. */
  predicate AllIdentified(qs: seq<BookingState>) {
    forall k :: 0 <= k < |qs| ==> Persistable(qs[k]) && qs[k].bookingId.Some?
  }

  /** The entity states loaded for the given rows, one per row, in order. */
  function Mirror(rows: seq<Row>): (qs: seq<BookingState>)
    ensures |qs| == |rows| && AllIdentified(qs)
    ensures forall k :: 0 <= k < |rows| ==> qs[k] == RowState(rows[k])
  {
    seq(|rows|, k requires 0 <= k < |rows| => RowState(rows[k]))
  }

  function Ids(rows: seq<Row>): set<int> {
    set r | r in rows :: r.id
  }

  predicate UniqueIds(rows: seq<Row>) {
    forall i, j :: 0 <= i < j < |rows| ==> rows[i].id != rows[j].id
  }

  /** The elements of `s` that satisfy `p`, in their order. */
  function Filter<T>(s: seq<T>, p: T -> bool): (r: seq<T>)
    ensures |r| <= |s|
    ensures forall i :: 0 <= i < |r| ==> p(r[i])
    ensures multiset(r) <= multiset(s)
  {
    if s == [] then []
    else
      assert s == [s[0]] + s[1..];
      if p(s[0]) then [s[0]] + Filter(s[1..], p) else Filter(s[1..], p)
  }

  /** Filtering keeps every element that satisfies `p` as often as `s` holds it, and drops the rest. */
  lemma {:induction false} FilterCount<T>(s: seq<T>, p: T -> bool, x: T)
    ensures multiset(Filter(s, p))[x] == if p(x) then multiset(s)[x] else 0
  {
    if s != [] {
      assert s == [s[0]] + s[1..];
      FilterCount(s[1..], p, x);
    }
  }

  lemma FilterMembership<T>(s: seq<T>, p: T -> bool, x: T)
    ensures x in Filter(s, p) <==> x in s && p(x)
  {
    FilterCount(s, p, x);
    assert x in Filter(s, p) <==> multiset(Filter(s, p))[x] > 0;
    assert x in s <==> multiset(s)[x] > 0;
  }

  // ---------------------------------------------------------------------
  // existsConflictingBookings

  /**
   * Half-open overlap of `[s1, e1)` and `[s2, e2)`, written as the query
   * writes it: `:startTime < b.endTime AND :endTime > b.startTime`.
   */
  predicate Overlap(s1: int, e1: int, s2: int, e2: int)
    ensures Overlap(s1, e1, s2, e2) ==> s1 < e1 || s2 < e2
  {
    s1 < e2 && e1 > s2
  }

  /** The row filter of the conflict query. */
  predicate Conflicts(b: Row, roomId: int, start: int, end: int)
    ensures Conflicts(b, roomId, start, end) ==> b.roomId == roomId && b.status == ACCEPTED
    ensures end == b.startTime || start == b.endTime ==> !Conflicts(b, roomId, start, end)
  {
    b.roomId == roomId && b.status == ACCEPTED && Overlap(start, end, b.startTime, b.endTime)
  }

  /** The rows the conflict query counts. */
  function ConflictingRows(rows: seq<Row>, roomId: int, start: int, end: int): (r: seq<Row>)
    ensures forall b :: b in r <==>
              b in rows && b.roomId == roomId && b.status == ACCEPTED &&
              start < b.endTime && end > b.startTime
  {
    var r := Filter(rows, b => Conflicts(b, roomId, start, end));
    forall b ensures b in r <==> b in rows && Conflicts(b, roomId, start, end) {
      FilterMembership(rows, b => Conflicts(b, roomId, start, end), b);
    }
    r
  }

  /** `CASE WHEN COUNT(b) > 0 THEN true ELSE false END`. */
  predicate ExistsConflictingBookings(rows: seq<Row>, roomId: int, start: int, end: int)
    ensures ExistsConflictingBookings(rows, roomId, start, end) <==>
            exists b :: b in rows && Conflicts(b, roomId, start, end)
  {
    var r := ConflictingRows(rows, roomId, start, end);
    assert |r| > 0 ==> r[0] in r;
    |r| > 0
  }

  /** The count is positive exactly when some row of the table conflicts. */
  lemma ExistsConflictingIff(rows: seq<Row>, roomId: int, start: int, end: int)
    ensures ExistsConflictingBookings(rows, roomId, start, end) <==>
            exists k :: 0 <= k < |rows| && Conflicts(rows[k], roomId, start, end)
  {
    var r := ConflictingRows(rows, roomId, start, end);
    if |r| > 0 {
      assert r[0] in r;
      var k :| 0 <= k < |rows| && rows[k] == r[0];
    }
    if k :| 0 <= k < |rows| && Conflicts(rows[k], roomId, start, end) {
      assert rows[k] in r;
    }
  }

  /** A minute `t` lies in the half-open interval `[s, e)`. */
  predicate Covers(s: int, e: int, t: int) {
    s <= t < e
  }

  /**
   * For two non-empty intervals the query's predicate means exactly that
   * they share a minute; any shared minute makes it true.
   */
  lemma OverlapSharesMinute(s1: int, e1: int, s2: int, e2: int)
    ensures (exists t :: Covers(s1, e1, t) && Covers(s2, e2, t)) ==> Overlap(s1, e1, s2, e2)
    ensures s1 < e1 && s2 < e2 && Overlap(s1, e1, s2, e2) ==>
            exists t :: Covers(s1, e1, t) && Covers(s2, e2, t)
  {
    if s1 < e1 && s2 < e2 && Overlap(s1, e1, s2, e2) {
      var t := if s1 < s2 then s2 else s1;
      assert Covers(s1, e1, t) && Covers(s2, e2, t);
    }
  }

  /** Overlap does not depend on which interval is the candidate. */
  lemma OverlapSymmetric(s1: int, e1: int, s2: int, e2: int)
    ensures Overlap(s1, e1, s2, e2) <==> Overlap(s2, e2, s1, e1)
  {
  }

  /** Intervals that only touch at an end point do not overlap. */
  lemma TouchingIntervalsDoNotOverlap(s1: int, m: int, e2: int)
    ensures !Overlap(s1, m, m, e2)
  {
  }

  /**
   * A zero-length request is not harmless: the instant `[s, s)` overlaps
   * every interval that strictly contains it, so `[09:30, 09:30)` clashes
   * with an accepted `[09:00, 10:00)`.
   */
  lemma ZeroLengthCanConflict(s: int, a: int, b: int)
    requires a < s < b
    ensures Overlap(s, s, a, b)
  {
  }

  /** For each room, the accepted rows are pairwise non-overlapping. */
  predicate AcceptedDisjoint(rows: seq<Row>) {
    forall i, j ::
      0 <= i < |rows| && 0 <= j < |rows| && i != j &&
      rows[i].status == ACCEPTED && rows[j].status == ACCEPTED &&
      rows[i].roomId == rows[j].roomId ==>
      !Overlap(rows[i].startTime, rows[i].endTime, rows[j].startTime, rows[j].endTime)
  }

  // ---------------------------------------------------------------------
  // findAllPendingBookings

  predicate IsPending(b: Row)
    ensures IsPending(b) <==> b.status != ACCEPTED && b.status != REJECTED
  {
    b.status == PENDING
  }

  predicate SortedByRequestTime(s: seq<Row>) {
    forall i, j :: 0 <= i < j < |s| ==> s[i].requestTime <= s[j].requestTime
  }

  /** Puts `r` before the first row that was not requested earlier than it. */
  function InsertByRequestTime(r: Row, s: seq<Row>): (t: seq<Row>)
    requires SortedByRequestTime(s)
    ensures SortedByRequestTime(t)
    ensures multiset(t) == multiset(s) + multiset{r}
    ensures |t| == |s| + 1 && t[0] == if s == [] || r.requestTime <= s[0].requestTime then r else s[0]
  {
    if s == [] || r.requestTime <= s[0].requestTime then
      [r] + s
    else
      assert s == [s[0]] + s[1..];
      var tail := InsertByRequestTime(r, s[1..]);
      assert s[0].requestTime <= tail[0].requestTime;
      [s[0]] + tail
  }

  /** `ORDER BY b.requestTime`: an insertion sort, ascending. */
  function SortByRequestTime(s: seq<Row>): (t: seq<Row>)
    ensures SortedByRequestTime(t)
    ensures multiset(t) == multiset(s)
  {
    if s == [] then []
    else
      assert s == [s[0]] + s[1..];
      InsertByRequestTime(s[0], SortByRequestTime(s[1..]))
  }

  /** `SELECT b FROM Booking b WHERE b.bookingStatus = 'PENDING' ORDER BY b.requestTime`. */
  function FindAllPendingBookings(rows: seq<Row>): (r: seq<Row>)
    ensures SortedByRequestTime(r)
  {
    SortByRequestTime(Filter(rows, IsPending))
  }

  /**
   * The query lists exactly the pending rows, each as often as it is stored,
   * earliest request first.
   */
  lemma PendingQuery(rows: seq<Row>)
    ensures var r := FindAllPendingBookings(rows);
      && SortedByRequestTime(r)
      && (forall b :: multiset(r)[b] == if b.status == PENDING then multiset(rows)[b] else 0)
      && (forall b :: b in r <==> b in rows && b.status == PENDING)
  {
    var r := FindAllPendingBookings(rows);
    forall b: Row ensures multiset(r)[b] == if b.status == PENDING then multiset(rows)[b] else 0 {
      FilterCount(rows, IsPending, b);
    }
    forall b: Row ensures b in r <==> b in rows && b.status == PENDING {
      assert b in r <==> multiset(r)[b] > 0;
      assert b in rows <==> multiset(rows)[b] > 0;
    }
  }

  // ---------------------------------------------------------------------
  // findById and save

  /** The first row with the given id. */
  function FindById(rows: seq<Row>, id: int): (r: Option<Row>)
    ensures r.Some? <==> id in Ids(rows)
    ensures r.Some? ==> r.value in rows && r.value.id == id
  {
    if rows == [] then None
    else if rows[0].id == id then Some(rows[0])
    else
      assert Ids(rows) == {rows[0].id} + Ids(rows[1..]) by {
        assert rows == [rows[0]] + rows[1..];
      }
      FindById(rows[1..], id)
  }

  /** Appending a row does not change what an id already stored finds. */
  lemma {:induction false} FindByIdAppend(rows: seq<Row>, row: Row, id: int)
    ensures FindById(rows + [row], id) ==
            if id in Ids(rows) then FindById(rows, id) else if row.id == id then Some(row) else None
  {
    if rows != [] {
      assert (rows + [row])[1..] == rows[1..] + [row];
      if rows[0].id != id {
        FindByIdAppend(rows[1..], row, id);
        assert Ids(rows) == {rows[0].id} + Ids(rows[1..]) by {
          assert rows == [rows[0]] + rows[1..];
        }
      }
    }
  }

  /** With unique ids, the row found is the one at the id's position. */
  lemma {:induction false} FindByIdAt(rows: seq<Row>, k: int)
    requires UniqueIds(rows) && 0 <= k < |rows|
    ensures FindById(rows, rows[k].id) == Some(rows[k])
  {
    if k > 0 {
      assert rows[0].id != rows[k].id;
      assert rows[1..][k - 1] == rows[k];
      FindByIdAt(rows[1..], k - 1);
    }
  }

  /**
   * What merging an entity that already has an id writes: its room, times and
   * status replace those of the row with that id. `request_time` is declared
   * `updatable = false`, so the stored request time stays.
   */
  function Updated(rows: seq<Row>, st: BookingState): (r: seq<Row>)
    requires Persistable(st) && st.bookingId.Some?
    ensures |r| == |rows| && Ids(r) == Ids(rows)
    ensures forall k :: 0 <= k < |rows| ==>
              r[k].id == rows[k].id && r[k].requestTime == rows[k].requestTime
    ensures forall k :: 0 <= k < |rows| && rows[k].id != st.bookingId.value ==> r[k] == rows[k]
    ensures forall k :: 0 <= k < |rows| && rows[k].id == st.bookingId.value ==>
              RowState(r[k]) == st.(requestTime := Some(rows[k].requestTime))
  {
    var r := seq(|rows|, k requires 0 <= k < |rows| =>
      if rows[k].id == st.bookingId.value then
        rows[k].(roomId := st.roomId.value, startTime := st.startTime.value,
                 endTime := st.endTime.value, status := st.bookingStatus.value)
      else rows[k]);
    assert Ids(r) == Ids(rows) by {
      forall x | x in Ids(rows) ensures x in Ids(r) {
        var k :| 0 <= k < |rows| && rows[k].id == x;
        assert r[k] in r;
      }
      forall x | x in Ids(r) ensures x in Ids(rows) {
        var k :| 0 <= k < |r| && r[k].id == x;
        assert rows[k] in rows;
      }
    }
    r
  }

  /** Appending a row that is not accepted keeps every id and the disjointness of accepted rows. */
  lemma AppendUnacceptedRow(rows: seq<Row>, row: Row)
    requires AcceptedDisjoint(rows) && row.status != ACCEPTED
    ensures AcceptedDisjoint(rows + [row])
    ensures Ids(rows + [row]) == Ids(rows) + {row.id}
  {
    var t := rows + [row];
    forall x | x in Ids(rows) ensures x in Ids(t) {
      var r :| r in rows && r.id == x;
      assert r in t;
    }
    assert t[|rows|] in t;
  }

  /** Every stored id is below a bound that every row's id is below. */
  lemma IdBelow(rows: seq<Row>, bound: int, id: int)
    requires forall k :: 0 <= k < |rows| ==> rows[k].id < bound
    ensures id in Ids(rows) ==> id < bound
  {
    if id in Ids(rows) {
      var r :| r in rows && r.id == id;
      var k :| 0 <= k < |rows| && rows[k] == r;
    }
  }

  /** With unique ids, no row is stored twice. */
  lemma {:induction false} StoredOnce(rows: seq<Row>, x: Row)
    requires UniqueIds(rows)
    ensures multiset(rows)[x] <= 1
  {
    if rows != [] {
      assert rows == [rows[0]] + rows[1..];
      StoredOnce(rows[1..], x);
      if rows[0] == x {
        forall j | 0 <= j < |rows| - 1 ensures rows[1..][j] != x {
          assert rows[j + 1].id != rows[0].id;
        }
      }
    }
  }

  /** A row at two positions of a list is counted twice. */
  lemma TwiceCounted(t: seq<Row>, i: int, j: int)
    requires 0 <= i < j < |t|
    ensures t[i] == t[j] ==> multiset(t)[t[i]] >= 2
  {
    assert t == t[..j] + [t[j]] + t[j + 1..];
    assert t[i] in t[..j];
  }

  /** Rows drawn from a table with unique ids, each at most as often as stored, have unique ids. */
  lemma SubmultisetUniqueIds(s: seq<Row>, t: seq<Row>)
    requires UniqueIds(s) && multiset(t) <= multiset(s)
    ensures UniqueIds(t)
  {
    forall i, j | 0 <= i < j < |t| ensures t[i].id != t[j].id {
      TwiceCounted(t, i, j);
      StoredOnce(s, t[i]);
      assert t[i] != t[j];
      assert t[i] in multiset(s) && t[j] in multiset(s);
      var p :| 0 <= p < |s| && s[p] == t[i];
      var q :| 0 <= q < |s| && s[q] == t[j];
    }
  }

  /** The pending query lists no id twice. */
  lemma PendingIdsUnique(rows: seq<Row>)
    requires UniqueIds(rows)
    ensures UniqueIds(FindAllPendingBookings(rows))
  {
    SubmultisetUniqueIds(rows, FindAllPendingBookings(rows));
  }

  /** An entity is stored when every non-null column is set and its id is in the table. */
  predicate StoredIn(st: BookingState, rows: seq<Row>) {
    Persistable(st) && st.bookingId.Some? && st.bookingId.value in Ids(rows)
  }

  /**
   * The table behind the repository. `saves` counts calls of `save`, so that
   * callers can state how often they persist.
   */
  class BookingStore {
    var rows: seq<Row>
    var nextId: int
    ghost var saves: nat

    /** Generated ids are positive, distinct, and below the next one to hand out. */
    ghost predicate Valid()
      reads this
    {
      UniqueIds(rows) && 1 <= nextId &&
      forall k :: 0 <= k < |rows| ==> 1 <= rows[k].id < nextId
    }

    constructor ()
      ensures Valid() && rows == [] && nextId == 1 && saves == 0
    {
      rows, nextId, saves := [], 1, 0;
    }

    /**
     * `save(booking)` on a booking without an id: the row is inserted, the
     * entity gets the next id and, through `@CreationTimestamp`, the creation
     * instant `createdAt` as its request time. The same object is returned,
     * so the caller keeps `b`.
     */
    method Persist(b: Booking, createdAt: int)
      requires Valid() && Persistable(b.State()) && b.bookingId.None?
      modifies this, b
      ensures Valid() && saves == old(saves) + 1 && nextId == old(nextId) + 1
      ensures b.State() == old(b.State()).(bookingId := Some(old(nextId)), requestTime := Some(createdAt))
      ensures rows == old(rows) + [Row(old(nextId), b.roomId.value, b.startTime.value,
                                       b.endTime.value, createdAt, b.bookingStatus.value)]
    {
      var id := nextId;
      b.SetBookingId(id);
      b.SetRequestTime(createdAt);
      rows := rows + [Row(id, b.roomId.value, b.startTime.value, b.endTime.value,
                          createdAt, b.bookingStatus.value)];
      nextId := nextId + 1;
      saves := saves + 1;
    }

    /**
     * `save(booking)` on a booking that has an id: the state is merged into
     * the row with that id and the argument itself is left as it was.
     */
    method Merge(b: Booking)
      requires Valid() && StoredIn(b.State(), rows)
      modifies this
      ensures Valid() && saves == old(saves) + 1 && nextId == old(nextId)
      ensures rows == Updated(old(rows), b.State())
    {
      rows := Updated(rows, b.State());
      saves := saves + 1;
    }

    /** `findById(id)`: a new entity built from the row, if there is one. */
    method FindEntity(id: int) returns (r: Option<Booking>)
      ensures r.None? <==> id !in Ids(rows)
      ensures r.Some? ==> fresh(r.value) && r.value.State() == RowState(FindById(rows, id).value)
    {
      var row := FindById(rows, id);
      if row.Some? {
        var b := new Booking.Loaded(RowState(row.value));
        r := Some(b);
      } else {
        r := None;
      }
    }

    /** `findAllPendingBookings()` as the caller sees it: one new entity per row, in order. */
    method LoadPending() returns (bs: seq<Booking>)
      ensures Holds(bs, FindAllPendingBookings(rows))
      ensures forall k :: 0 <= k < |bs| ==> fresh(bs[k])
    {
      bs := Entities(FindAllPendingBookings(rows));
    }
  }

  /** Each entity holds the state `Mirror` loads from the row at the same position. */
  ghost predicate Holds(bs: seq<Booking>, rs: seq<Row>)
    reads bs
  {
    |bs| == |rs| && forall k :: 0 <= k < |bs| ==> bs[k].State() == Mirror(rs)[k]
  }

  /** The entities the store hands back for a list of rows: one new object per row, in order. */
  method Entities(rs: seq<Row>) returns (bs: seq<Booking>)
    ensures Holds(bs, rs)
    ensures forall k :: 0 <= k < |bs| ==> fresh(bs[k])
  {
    bs := [];
    var i := 0;
    while i < |rs|
      invariant 0 <= i <= |rs| && |bs| == i
      invariant forall k :: 0 <= k < i ==> fresh(bs[k]) && bs[k].State() == RowState(rs[k])
    {
      var b := new Booking.Loaded(RowState(rs[i]));
      bs := bs + [b];
      i := i + 1;
    }
  }
}
