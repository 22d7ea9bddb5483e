/**
 * The booking service: submission (`createNewBooking`), lookup
 * (`getBooking`) and settlement (`settlePendingBooking`), together with one
 * step of the worker that drains the queue. The settlement decision is also
 * given as functions of the table, so that what a run of settlements in
 * queue order does can be stated and proved.
 */
module Service {
  import opened BookingModel
  import opened Validation
  import opened Repository
  import opened Queue

  // ---------------------------------------------------------------------
  // The settlement decision on values

  /** Whether the conflict query reports a clash for the entity's room and times. */
  predicate HasConflict(rows: seq<Row>, st: BookingState)
    requires Persistable(st)
    ensures HasConflict(rows, st) <==>
            exists k :: 0 <= k < |rows| && Conflicts(rows[k], st.roomId.value, st.startTime.value, st.endTime.value)
  {
    ExistsConflictingIff(rows, st.roomId.value, st.startTime.value, st.endTime.value);
    ExistsConflictingBookings(rows, st.roomId.value, st.startTime.value, st.endTime.value)
  }

  /**
   * The entity after `settlePendingBooking`: untouched unless pending;
   * otherwise rejected if the conflict query finds an accepted clash and
   * accepted if not, with every other field kept.
   */
  function Settled(rows: seq<Row>, st: BookingState): (r: BookingState)
    requires Persistable(st)
    ensures Persistable(r)
    ensures st.bookingStatus != Some(PENDING) ==> r == st
    ensures st.bookingStatus == Some(PENDING) ==>
              && r == st.(bookingStatus := r.bookingStatus)
              && (r.bookingStatus == Some(REJECTED) <==> HasConflict(rows, st))
              && (r.bookingStatus == Some(ACCEPTED) <==> !HasConflict(rows, st))
  {
    if st.bookingStatus != Some(PENDING) then st
    else if HasConflict(rows, st) then st.(bookingStatus := Some(REJECTED))
    else st.(bookingStatus := Some(ACCEPTED))
  }

  /** The table after `settlePendingBooking`: unchanged unless the entity was pending. */
  function SettleRows(rows: seq<Row>, st: BookingState): (r: seq<Row>)
    requires Persistable(st) && st.bookingId.Some?
    ensures |r| == |rows| && Ids(r) == Ids(rows)
    ensures st.bookingStatus != Some(PENDING) ==> r == rows
  {
    if st.bookingStatus != Some(PENDING) then rows else Updated(rows, Settled(rows, st))
  }

  /** Settlement touches only the row with the entity's id, and keeps every id and request time. */
  lemma SettleRowsFrame(rows: seq<Row>, st: BookingState)
    requires Persistable(st) && st.bookingId.Some?
    ensures var r := SettleRows(rows, st);
      && |r| == |rows| && Ids(r) == Ids(rows)
      && (forall k :: 0 <= k < |rows| ==> r[k].id == rows[k].id && r[k].requestTime == rows[k].requestTime)
      && (forall k :: 0 <= k < |rows| && rows[k].id != st.bookingId.value ==> r[k] == rows[k])
  {
  }

  /** The row of a settled pending booking holds its room and times and is no longer pending. */
  lemma SettleRowsAt(rows: seq<Row>, st: BookingState, p: int)
    requires Persistable(st) && st.bookingId.Some? && st.bookingStatus == Some(PENDING)
    requires 0 <= p < |rows| && rows[p].id == st.bookingId.value
    ensures var r := SettleRows(rows, st)[p];
      && r.roomId == st.roomId.value && r.startTime == st.startTime.value && r.endTime == st.endTime.value
      && r.status == (if HasConflict(rows, st) then REJECTED else ACCEPTED)
  {
    var r := Updated(rows, Settled(rows, st));
    assert RowState(r[p]) == Settled(rows, st).(requestTime := Some(rows[p].requestTime));
  }

  /**
   * The key invariant: settling one booking keeps the accepted bookings of
   * every room pairwise non-overlapping.
   */
  lemma SettlePreservesDisjoint(rows: seq<Row>, st: BookingState)
    requires UniqueIds(rows) && AcceptedDisjoint(rows)
    requires Persistable(st) && st.bookingId.Some?
    ensures UniqueIds(SettleRows(rows, st))
    ensures AcceptedDisjoint(SettleRows(rows, st))
  {
    SettleRowsFrame(rows, st);
    var r := SettleRows(rows, st);
    if st.bookingStatus == Some(PENDING) {
      var id := st.bookingId.value;
      forall i, j |
        0 <= i < |r| && 0 <= j < |r| && i != j &&
        r[i].status == ACCEPTED && r[j].status == ACCEPTED && r[i].roomId == r[j].roomId
        ensures !Overlap(r[i].startTime, r[i].endTime, r[j].startTime, r[j].endTime)
      {
        if rows[i].id == id {
          NewlyAcceptedClashesWithNothing(rows, st, i, j);
        } else if rows[j].id == id {
          NewlyAcceptedClashesWithNothing(rows, st, j, i);
        }
      }
    }
  }

  /** Helper for the invariant: the row just accepted overlaps no other accepted row of its room. */
  lemma NewlyAcceptedClashesWithNothing(rows: seq<Row>, st: BookingState, i: int, j: int)
    requires UniqueIds(rows)
    requires Persistable(st) && st.bookingId.Some? && st.bookingStatus == Some(PENDING)
    requires 0 <= i < |rows| && 0 <= j < |rows| && i != j && rows[i].id == st.bookingId.value
    requires var r := SettleRows(rows, st);
      r[i].status == ACCEPTED && r[j].status == ACCEPTED && r[i].roomId == r[j].roomId
    ensures var r := SettleRows(rows, st);
      !Overlap(r[i].startTime, r[i].endTime, r[j].startTime, r[j].endTime)
      && !Overlap(r[j].startTime, r[j].endTime, r[i].startTime, r[i].endTime)
  {
    var r := SettleRows(rows, st);
    SettleRowsFrame(rows, st);
    SettleRowsAt(rows, st, i);
    assert rows[j].id != rows[i].id;
    assert r[j] == rows[j];
    assert !HasConflict(rows, st);
    ExistsConflictingIff(rows, st.roomId.value, st.startTime.value, st.endTime.value);
    assert !Conflicts(rows[j], st.roomId.value, st.startTime.value, st.endTime.value);
  }

  // ---------------------------------------------------------------------
  // Bookings waiting in the queue

  /** A queued booking: a pending entity whose stored row has not been settled yet. */
  predicate Awaiting(st: BookingState, rows: seq<Row>) {
    StoredIn(st, rows) && st.bookingStatus == Some(PENDING) &&
    FindById(rows, st.bookingId.value).value.status == PENDING
  }

  /** Storing another row leaves a waiting booking waiting. */
  lemma AwaitingAfterAppend(rows: seq<Row>, row: Row, st: BookingState)
    requires Awaiting(st, rows)
    ensures Awaiting(st, rows + [row])
  {
    FindByIdAppend(rows, row, st.bookingId.value);
  }

  /** The entity of a freshly stored pending row with a new id is waiting. */
  lemma NewRowAwaiting(rows: seq<Row>, row: Row)
    requires row.id !in Ids(rows) && row.status == PENDING
    ensures Awaiting(RowState(row), rows + [row])
  {
    FindByIdAppend(rows, row, row.id);
  }

  /** Settling one booking leaves every booking with another id waiting. */
  lemma AwaitingAfterSettle(rows: seq<Row>, st: BookingState, x: BookingState)
    requires UniqueIds(rows) && Persistable(st) && st.bookingId.Some?
    requires Awaiting(x, rows) && x.bookingId != st.bookingId
    ensures Awaiting(x, SettleRows(rows, st))
  {
    var r := SettleRows(rows, st);
    SettleRowsFrame(rows, st);
    var row :| row in rows && row.id == x.bookingId.value;
    var k :| 0 <= k < |rows| && rows[k] == row;
    FindByIdAt(rows, k);
    assert UniqueIds(r);
    FindByIdAt(r, k);
  }

  /** `after` holds every row of `before` that is already decided, at the same place; stated head first. */
  predicate DecidedKept(before: seq<Row>, after: seq<Row>) {
    |after| == |before| &&
    (before == [] ||
     ((before[0].status != PENDING ==> after[0] == before[0]) && DecidedKept(before[1..], after[1..])))
  }

  /** `DecidedKept` holds exactly when each decided row is unchanged. */
  lemma {:induction false} DecidedKeptEach(before: seq<Row>, after: seq<Row>)
    ensures DecidedKept(before, after) <==>
      |after| == |before| &&
      forall k :: 0 <= k < |before| && before[k].status != PENDING ==> after[k] == before[k]
  {
    if before != [] && |after| == |before| {
      DecidedKeptEach(before[1..], after[1..]);
      assert forall k :: 0 <= k < |before| - 1 ==> before[1..][k] == before[k + 1] && after[1..][k] == after[k + 1];
    }
  }

  /** Settling a waiting booking changes no row that is already decided. */
  lemma SettleKeepsDecided(rows: seq<Row>, st: BookingState)
    requires UniqueIds(rows) && Awaiting(st, rows)
    ensures forall k :: 0 <= k < |rows| && rows[k].status != PENDING ==> SettleRows(rows, st)[k] == rows[k]
  {
    SettleRowsFrame(rows, st);
    forall k | 0 <= k < |rows| && rows[k].status != PENDING ensures SettleRows(rows, st)[k] == rows[k] {
      FindByIdAt(rows, k);
    }
  }

  /** Each row of the pending query loads as a waiting booking. */
  lemma PendingRowsAwaiting(rows: seq<Row>, k: int)
    requires UniqueIds(rows) && 0 <= k < |FindAllPendingBookings(rows)|
    ensures Awaiting(RowState(FindAllPendingBookings(rows)[k]), rows)
  {
    var row := FindAllPendingBookings(rows)[k];
    PendingQuery(rows);
    assert row in FindAllPendingBookings(rows);
    var p :| 0 <= p < |rows| && rows[p] == row;
    FindByIdAt(rows, p);
  }

  /** The states of a list of entities, in order. */
  function States(bs: seq<Booking>): (qs: seq<BookingState>)
    reads bs
    ensures |qs| == |bs| && forall k :: 0 <= k < |bs| ==> qs[k] == bs[k].State()
  {
    seq(|bs|, k requires 0 <= k < |bs| reads bs => bs[k].State())
  }

  /** Appending an entity appends its state. */
  lemma StatesSnoc(bs: seq<Booking>, b: Booking)
    ensures States(bs + [b]) == States(bs) + [b.State()]
  {
    assert forall k :: 0 <= k < |bs| ==> (bs + [b])[k] == bs[k];
  }

  /** An entity on the list has its state among the list's states. */
  lemma StateListed(bs: seq<Booking>, b: Booking)
    ensures b in bs ==> b.State() in States(bs)
  {
    if b in bs {
      var k :| 0 <= k < |bs| && bs[k] == b;
      assert States(bs)[k] == b.State();
    }
  }

  /** Every booking of the list is waiting, stated head first. */
  predicate AllAwaiting(qs: seq<BookingState>, rows: seq<Row>) {
    qs == [] || (Awaiting(qs[0], rows) && AllAwaiting(qs[1..], rows))
  }

  /** `AllAwaiting` holds exactly when each booking of the list is waiting. */
  lemma {:induction false} AllAwaitingEach(qs: seq<BookingState>, rows: seq<Row>)
    ensures AllAwaiting(qs, rows) <==> forall k :: 0 <= k < |qs| ==> Awaiting(qs[k], rows)
  {
    if qs != [] {
      AllAwaitingEach(qs[1..], rows);
      assert forall k :: 0 <= k < |qs| - 1 ==> qs[1..][k] == qs[k + 1];
      if forall k :: 0 <= k < |qs| ==> Awaiting(qs[k], rows) {
        assert forall k :: 0 <= k < |qs| - 1 ==> Awaiting(qs[1..][k], rows);
      }
    }
  }

  /** No id is queued twice, stated head first: the head's id does not come again, nor does any later one. */
  predicate QueuedOnce(qs: seq<BookingState>) {
    qs == [] ||
    ((forall k :: 1 <= k < |qs| ==> qs[k].bookingId != qs[0].bookingId) && QueuedOnce(qs[1..]))
  }

  /** `QueuedOnce` holds exactly when no two bookings of the list share an id. */
  lemma {:induction false} QueuedOnceDistinct(qs: seq<BookingState>)
    ensures QueuedOnce(qs) <==> DistinctIds(qs)
  {
    if qs != [] {
      QueuedOnceDistinct(qs[1..]);
      assert forall k :: 0 <= k < |qs| - 1 ==> qs[1..][k] == qs[k + 1];
    }
  }

  /** Storing another row leaves a list of waiting bookings waiting. */
  lemma {:induction false} AllAwaitingAfterAppend(qs: seq<BookingState>, rows: seq<Row>, row: Row)
    requires AllAwaiting(qs, rows)
    ensures AllAwaiting(qs, rows + [row])
  {
    if qs != [] {
      AwaitingAfterAppend(rows, row, qs[0]);
      AllAwaitingAfterAppend(qs[1..], rows, row);
    }
  }

  /** A waiting booking appended to a list of waiting bookings. */
  lemma {:induction false} AllAwaitingSnoc(qs: seq<BookingState>, x: BookingState, rows: seq<Row>)
    requires AllAwaiting(qs, rows) && Awaiting(x, rows)
    ensures AllAwaiting(qs + [x], rows)
  {
    if qs == [] {
      assert [x][1..] == [];
    } else {
      assert (qs + [x])[1..] == qs[1..] + [x];
      AllAwaitingSnoc(qs[1..], x, rows);
    }
  }

  /**
   * Storing a new pending row under an id not stored before, and queueing
   * its entity, keeps every queued booking waiting and no id queued twice.
   */
  lemma EnqueueNewRow(qs: seq<BookingState>, rows: seq<Row>, row: Row)
    requires AllAwaiting(qs, rows) && QueuedOnce(qs)
    requires row.id !in Ids(rows) && row.status == PENDING
    ensures AllAwaiting(qs, rows + [row]) && AllAwaiting(qs + [RowState(row)], rows + [row])
    ensures QueuedOnce(qs + [RowState(row)])
  {
    AllAwaitingAfterAppend(qs, rows, row);
    NewRowAwaiting(rows, row);
    AllAwaitingSnoc(qs, RowState(row), rows + [row]);
    var t := qs + [RowState(row)];
    QueuedOnceDistinct(qs);
    QueuedOnceDistinct(t);
    AllAwaitingEach(qs, rows);
    forall m, n | 0 <= m < n < |t| ensures t[m].bookingId != t[n].bookingId {
      if n == |qs| {
        assert Awaiting(qs[m], rows);
      }
    }
  }

  /**
   * Taking the head off a queue of waiting bookings and settling it leaves
   * the rest waiting with no id twice, and every row that was already
   * decided as it was.
   */
  lemma DequeueAndSettle(qs: seq<BookingState>, rows: seq<Row>)
    requires UniqueIds(rows) && AllAwaiting(qs, rows) && QueuedOnce(qs) && qs != []
    ensures Awaiting(qs[0], rows)
    ensures qs[0] !in qs[1..]
    ensures AllAwaiting(qs[1..], SettleRows(rows, qs[0])) && QueuedOnce(qs[1..])
    ensures DecidedKept(rows, SettleRows(rows, qs[0]))
  {
    DecidedKeptEach(rows, SettleRows(rows, qs[0]));
    SettleUnqueued(qs[1..], rows, qs[0]);
    SettleKeepsDecided(rows, qs[0]);
  }

  /** Settling a booking whose id is not queued leaves every queued booking waiting. */
  lemma SettleUnqueued(qs: seq<BookingState>, rows: seq<Row>, st: BookingState)
    requires UniqueIds(rows) && Persistable(st) && st.bookingId.Some?
    requires AllAwaiting(qs, rows)
    requires forall k :: 0 <= k < |qs| ==> qs[k].bookingId != st.bookingId
    ensures AllAwaiting(qs, SettleRows(rows, st))
  {
    AllAwaitingEach(qs, rows);
    AllAwaitingEach(qs, SettleRows(rows, st));
    forall k | 0 <= k < |qs| ensures Awaiting(qs[k], SettleRows(rows, st)) {
      AwaitingAfterSettle(rows, st, qs[k]);
    }
  }

  // ---------------------------------------------------------------------
  // Settlement in queue order

  /** No id is queued twice. */
  predicate DistinctIds(qs: seq<BookingState>) {
    forall m, n :: 0 <= m < n < |qs| ==> qs[m].bookingId != qs[n].bookingId
  }

  /**
   * The table after the worker has settled `qs`, head first, one at a time.
   * Every step keeps the rows and their ids in place.
   */
  function SettleAll(rows: seq<Row>, qs: seq<BookingState>): (r: seq<Row>)
    requires AllIdentified(qs)
    ensures |r| == |rows|
    ensures forall k :: 0 <= k < |rows| ==> r[k].id == rows[k].id
    decreases |qs|
  {
    if qs == [] then rows
    else
      var before := SettleAll(rows, qs[..|qs| - 1]);
      SettleRowsFrame(before, qs[|qs| - 1]);
      SettleRows(before, qs[|qs| - 1])
  }

  /** However long the queue, the accepted bookings of each room stay pairwise non-overlapping. */
  lemma {:induction false} SettleAllPreservesDisjoint(rows: seq<Row>, qs: seq<BookingState>)
    requires UniqueIds(rows) && AcceptedDisjoint(rows) && AllIdentified(qs)
    ensures UniqueIds(SettleAll(rows, qs)) && AcceptedDisjoint(SettleAll(rows, qs))
    decreases |qs|
  {
    if qs != [] {
      SettleAllPreservesDisjoint(rows, qs[..|qs| - 1]);
      SettlePreservesDisjoint(SettleAll(rows, qs[..|qs| - 1]), qs[|qs| - 1]);
    }
  }

  lemma SettleAllStep(rows: seq<Row>, qs: seq<BookingState>, n: int)
    requires AllIdentified(qs) && 0 <= n < |qs|
    ensures SettleAll(rows, qs[..n + 1]) == SettleRows(SettleAll(rows, qs[..n]), qs[n])
  {
    assert qs[..n + 1][..n] == qs[..n];
  }

  /** A row whose id is not among `qs[a..b]` is left alone by settling those entries. */
  lemma {:induction false} SettleAllStable(rows: seq<Row>, qs: seq<BookingState>, a: int, b: int, p: int)
    requires AllIdentified(qs) && 0 <= a <= b <= |qs| && 0 <= p < |rows|
    requires forall m :: a <= m < b ==> qs[m].bookingId != Some(rows[p].id)
    ensures SettleAll(rows, qs[..b])[p] == SettleAll(rows, qs[..a])[p]
  {
    if a < b {
      SettleAllStable(rows, qs, a, b - 1, p);
      SettleAllStep(rows, qs, b - 1);
      SettleRowsFrame(SettleAll(rows, qs[..b - 1]), qs[b - 1]);
    }
  }

  /**
   * A queued pending booking is decided at its own turn, against the table as
   * the bookings ahead of it left it, and no later turn changes its row.
   */
  lemma SettledAtTurn(rows: seq<Row>, qs: seq<BookingState>, i: int, p: int, b: int)
    requires AllIdentified(qs) && DistinctIds(qs)
    requires 0 <= i < b <= |qs| && 0 <= p < |rows| && Some(rows[p].id) == qs[i].bookingId
    requires qs[i].bookingStatus == Some(PENDING)
    ensures var r := SettleAll(rows, qs[..b])[p];
      && r.roomId == qs[i].roomId.value && r.startTime == qs[i].startTime.value
      && r.endTime == qs[i].endTime.value
      && r.status == (if HasConflict(SettleAll(rows, qs[..i]), qs[i]) then REJECTED else ACCEPTED)
  {
    assert AllIdentified(qs[..i]);
    var before := SettleAll(rows, qs[..i]);
    assert before[p].id == rows[p].id;
    SettleAllStep(rows, qs, i);
    SettleRowsAt(before, qs[i], p);
    assert forall m :: i + 1 <= m < b ==> qs[m].bookingId != Some(rows[p].id) by {
      forall m | i + 1 <= m < b ensures qs[m].bookingId != Some(rows[p].id) {
        assert qs[i].bookingId != qs[m].bookingId;
      }
    }
    SettleAllStable(rows, qs, i + 1, b, p);
  }

  /**
   * First submitted wins. Take two queued pending bookings for the same room
   * whose intervals overlap, `qs[i]` ahead of `qs[j]`. After the worker has
   * settled the whole queue in order, both are settled; the earlier one is
   * accepted exactly when it clashed with nothing accepted at its turn; and
   * if it was accepted, the later one is rejected.
   */
  lemma FirstSubmittedWins(rows: seq<Row>, qs: seq<BookingState>, i: int, j: int, pi: int, pj: int)
    requires AllIdentified(qs) && DistinctIds(qs)
    requires 0 <= i < j < |qs| && 0 <= pi < |rows| && 0 <= pj < |rows|
    requires Some(rows[pi].id) == qs[i].bookingId && Some(rows[pj].id) == qs[j].bookingId
    requires qs[i].bookingStatus == Some(PENDING) && qs[j].bookingStatus == Some(PENDING)
    requires qs[i].roomId == qs[j].roomId
    requires Overlap(qs[i].startTime.value, qs[i].endTime.value, qs[j].startTime.value, qs[j].endTime.value)
    ensures var done := SettleAll(rows, qs);
      && done[pi].status != PENDING && done[pj].status != PENDING
      && (done[pi].status == ACCEPTED <==> !HasConflict(SettleAll(rows, qs[..i]), qs[i]))
      && (done[pi].status == ACCEPTED ==> done[pj].status == REJECTED)
  {
    assert qs[..|qs|] == qs;
    var done := SettleAll(rows, qs);
    assert AllIdentified(qs[..i]) && AllIdentified(qs[..j]);
    var earlierClashed := HasConflict(SettleAll(rows, qs[..i]), qs[i]);
    assert done[pi].status == (if earlierClashed then REJECTED else ACCEPTED) by {
      SettledAtTurn(rows, qs, i, pi, |qs|);
    }
    assert done[pj].status != PENDING by {
      SettledAtTurn(rows, qs, j, pj, |qs|);
    }
    if !earlierClashed {
      var before := SettleAll(rows, qs[..j]);
      assert HasConflict(before, qs[j]) by {
        SettledAtTurn(rows, qs, i, pi, j);
        AcceptedRowBlocks(before, pi, qs[j]);
      }
      assert done[pj].status == REJECTED by {
        SettledAtTurn(rows, qs, j, pj, |qs|);
      }
    }
  }

  /** An accepted row of the same room whose interval overlaps makes the conflict query true. */
  lemma AcceptedRowBlocks(rows: seq<Row>, p: int, st: BookingState)
    requires Persistable(st) && 0 <= p < |rows|
    requires rows[p].status == ACCEPTED && rows[p].roomId == st.roomId.value
    requires Overlap(rows[p].startTime, rows[p].endTime, st.startTime.value, st.endTime.value)
    ensures HasConflict(rows, st)
  {
    assert Conflicts(rows[p], st.roomId.value, st.startTime.value, st.endTime.value);
    ExistsConflictingIff(rows, st.roomId.value, st.startTime.value, st.endTime.value);
  }

  /** Settling an entity that mirrors its own pending row changes only that row's status. */
  lemma SettleMirroredRow(rows: seq<Row>, p: int)
    requires UniqueIds(rows) && 0 <= p < |rows| && rows[p].status == PENDING
    ensures SettleRows(rows, RowState(rows[p])) ==
            rows[p := rows[p].(status := if HasConflict(rows, RowState(rows[p])) then REJECTED else ACCEPTED)]
  {
    var st := RowState(rows[p]);
    SettleRowsFrame(rows, st);
    SettleRowsAt(rows, st, p);
    forall k | 0 <= k < |rows| && k != p ensures rows[k].id != st.bookingId.value {
      assert rows[k].id != rows[p].id;
    }
  }

  /** A table with no accepted row blocks nothing. */
  lemma NothingAcceptedNoConflict(rows: seq<Row>, st: BookingState)
    requires Persistable(st)
    requires forall k :: 0 <= k < |rows| ==> rows[k].status != ACCEPTED
    ensures !HasConflict(rows, st)
  {
    ExistsConflictingIff(rows, st.roomId.value, st.startTime.value, st.endTime.value);
  }

  /**
   * Three requests for one room on one day, in queue order: 09:00-10:00,
   * 09:30-10:30 and 10:00-11:00.
   */
  function ScenarioRows(room: int, day: int, requested: int): seq<Row> {
    [Row(1, room, At(day, 9, 0), At(day, 10, 0), requested, PENDING),
     Row(2, room, At(day, 9, 30), At(day, 10, 30), requested + 1, PENDING),
     Row(3, room, At(day, 10, 0), At(day, 11, 0), requested + 2, PENDING)]
  }

  /** The queue of the scenario: three pending requests with ids 1, 2 and 3. */
  lemma ScenarioQueue(room: int, day: int, requested: int)
    ensures var rows := ScenarioRows(room, day, requested);
      var qs := Mirror(rows);
      && |qs| == 3 && DistinctIds(qs)
      && forall k :: 0 <= k < 3 ==> qs[k].bookingStatus == Some(PENDING) && qs[k].bookingId == Some(rows[k].id)
  {
    var rows := ScenarioRows(room, day, requested);
    assert forall k :: 0 <= k < 3 ==> rows[k].id == k + 1;
  }

  lemma ScenarioFirstAccepted(room: int, day: int, requested: int, b: int)
    requires 1 <= b <= 3
    ensures var rows := ScenarioRows(room, day, requested);
      var r := SettleAll(rows, Mirror(rows)[..b])[0];
      r.status == ACCEPTED && r.endTime == At(day, 10, 0)
  {
    var rows := ScenarioRows(room, day, requested);
    var qs := Mirror(rows);
    ScenarioQueue(room, day, requested);
    assert !HasConflict(SettleAll(rows, qs[..0]), qs[0]) by {
      assert qs[..0] == [];
      NothingAcceptedNoConflict(rows, qs[0]);
    }
    SettledAtTurn(rows, qs, 0, 0, b);
  }

  lemma ScenarioSecondRejected(room: int, day: int, requested: int, b: int)
    requires 2 <= b <= 3
    ensures var rows := ScenarioRows(room, day, requested);
      SettleAll(rows, Mirror(rows)[..b])[1].status == REJECTED
  {
    var rows := ScenarioRows(room, day, requested);
    var qs := Mirror(rows)[..b];
    assert DistinctIds(qs) && AllIdentified(qs) && qs[0] == Mirror(rows)[0] && qs[1] == Mirror(rows)[1] by {
      ScenarioQueue(room, day, requested);
    }
    assert qs[..b] == qs;
    assert SettleAll(rows, qs)[0].status == ACCEPTED by {
      ScenarioFirstAccepted(room, day, requested, b);
    }
    FirstSubmittedWins(rows, qs, 0, 1, 0, 1);
  }

  /** When the third request's turn comes, nothing accepted clashes with it. */
  lemma ScenarioThirdUnblocked(room: int, day: int, requested: int)
    ensures var rows := ScenarioRows(room, day, requested);
      !HasConflict(SettleAll(rows, Mirror(rows)[..2]), Mirror(rows)[2])
  {
    var rows := ScenarioRows(room, day, requested);
    var qs := Mirror(rows);
    var mid := SettleAll(rows, qs[..2]);
    assert mid[0].status == ACCEPTED && mid[0].endTime == At(day, 10, 0) by {
      ScenarioFirstAccepted(room, day, requested, 2);
    }
    assert mid[1].status == REJECTED by {
      ScenarioSecondRejected(room, day, requested, 2);
    }
    assert mid[2] == rows[2] by {
      ScenarioQueue(room, day, requested);
      assert qs[..0] == [];
      SettleAllStable(rows, qs, 0, 2, 2);
    }
    assert |mid| == 3 && qs[2] == RowState(rows[2]);
    forall k | 0 <= k < |mid| ensures !Conflicts(mid[k], room, At(day, 10, 0), At(day, 11, 0)) {
      if k == 2 {
        assert mid[k].status == PENDING;
      }
    }
    ExistsConflictingIff(mid, room, At(day, 10, 0), At(day, 11, 0));
  }

  lemma ScenarioThirdAccepted(room: int, day: int, requested: int)
    ensures var rows := ScenarioRows(room, day, requested);
      SettleAll(rows, Mirror(rows))[2].status == ACCEPTED
  {
    var rows := ScenarioRows(room, day, requested);
    var qs := Mirror(rows);
    assert qs[..3] == qs;
    var r := SettleAll(rows, qs)[2];
    var blocked := HasConflict(SettleAll(rows, qs[..2]), qs[2]);
    assert r.status == (if blocked then REJECTED else ACCEPTED) by {
      ScenarioQueue(room, day, requested);
      SettledAtTurn(rows, qs, 2, 2, 3);
    }
    assert !blocked by {
      ScenarioThirdUnblocked(room, day, requested);
    }
  }

  /**
   * The first request is accepted, the second overlaps it and is rejected,
   * the third only touches the first at 10:00 and is accepted.
   */
  lemma OverlapThenTouchScenario(room: int, day: int, requested: int)
    ensures var rows := ScenarioRows(room, day, requested);
      var done := SettleAll(rows, Mirror(rows));
      done[0].status == ACCEPTED && done[1].status == REJECTED && done[2].status == ACCEPTED
  {
    var rows := ScenarioRows(room, day, requested);
    assert Mirror(rows)[..3] == Mirror(rows);
    ScenarioFirstAccepted(room, day, requested, 3);
    ScenarioSecondRejected(room, day, requested, 3);
    ScenarioThirdAccepted(room, day, requested);
  }

  // ---------------------------------------------------------------------
  // The service

  datatype Result<T> = Ok(value: T) | Err(reason: Rejection)

  class BookingService {
    const queue: BookingQueue
    const store: BookingStore
    /** The ids the room repository knows; the core never adds or removes rooms. */
    const rooms: set<int>

    /**
     * The store's own invariant, the queue's first-in first-out log and the
     * accepted bookings of each room pairwise non-overlapping.
     */
    ghost predicate Consistent()
      reads this, queue, store
    {
      queue.Valid() && store.Valid() && AcceptedDisjoint(store.rows)
    }

    /**
     * `Consistent`, and besides every queued booking stored and still
     * pending (persist, then enqueue; settle only once taken off), and no id
     * queued twice.
     */
    ghost predicate Valid()
      reads this, queue, store, queue.items
    {
      && Consistent()
      && AllAwaiting(States(queue.items), store.rows) && QueuedOnce(States(queue.items))
    }

    constructor (queue: BookingQueue, store: BookingStore, rooms: set<int>)
      requires queue.Valid() && store.Valid() && AcceptedDisjoint(store.rows)
      requires AllAwaiting(States(queue.items), store.rows) && QueuedOnce(States(queue.items))
      ensures Valid() && this.queue == queue && this.store == store && this.rooms == rooms
    {
      this.queue, this.store, this.rooms := queue, store, rooms;
    }

    /** `getBooking(id)`: the store's `findById`. */
    method GetBooking(id: int) returns (r: Option<Booking>)
      ensures r.None? <==> id !in Ids(store.rows)
      ensures r.Some? ==> fresh(r.value) && r.value.State() == RowState(FindById(store.rows, id).value)
    {
      r := store.FindEntity(id);
    }

    /**
     * `createNewBooking`: validate against the clock reading `now`; then,
     * within one transaction, check the room and persist a pending booking
     * whose creation instant is `createdAt`; then enqueue it and return its
     * id. A failure leaves the store and the queue as they were.
     */
    method CreateNewBooking(roomId: int, startTime: int, endTime: int, now: int, createdAt: int)
      returns (r: Result<int>)
      requires Valid()
      modifies store, queue
      ensures Valid()
      ensures ValidateBookingTime(startTime, endTime, now).Fail? ==>
                && r == Err(ValidateBookingTime(startTime, endTime, now).reason)
                && store.rows == old(store.rows) && store.saves == old(store.saves)
                && store.nextId == old(store.nextId)
                && queue.items == old(queue.items)
                && queue.added == old(queue.added) && queue.consumed == old(queue.consumed)
      ensures ValidateBookingTime(startTime, endTime, now).Pass? && roomId !in rooms ==>
                && r == Err(RoomNotFound)
                && store.rows == old(store.rows) && store.saves == old(store.saves)
                && store.nextId == old(store.nextId)
                && queue.items == old(queue.items)
                && queue.added == old(queue.added) && queue.consumed == old(queue.consumed)
      ensures ValidateBookingTime(startTime, endTime, now).Pass? && roomId in rooms ==>
                && r == Ok(old(store.nextId))
                && store.rows == old(store.rows) + [Row(old(store.nextId), roomId, startTime, endTime, createdAt, PENDING)]
                && store.saves == old(store.saves) + 1 && store.nextId == old(store.nextId) + 1
                && |queue.items| == |old(queue.items)| + 1
                && queue.items[..|old(queue.items)|] == old(queue.items)
                && fresh(queue.items[|old(queue.items)|])
                && queue.items[|old(queue.items)|].State() == RowState(store.rows[|store.rows| - 1])
                && queue.added == old(queue.added) + [queue.items[|old(queue.items)|]]
                && queue.consumed == old(queue.consumed)
    {
      var outcome := ValidateBookingTime(startTime, endTime, now);
      if outcome.Fail? {
        return Err(outcome.reason);
      }
      if roomId !in rooms {
        return Err(RoomNotFound);
      }
      var id := Admit(roomId, startTime, endTime, createdAt);
      r := Ok(id);
    }

    /**
     * The part of `createNewBooking` after validation and the room lookup: a
     * new pending booking is persisted, which assigns its id and request
     * time, and then put at the tail of the queue.
     */
    method Admit(roomId: int, startTime: int, endTime: int, createdAt: int) returns (id: int)
      requires Valid()
      modifies store, queue
      ensures Valid() && id == old(store.nextId)
      ensures store.rows == old(store.rows) + [Row(id, roomId, startTime, endTime, createdAt, PENDING)]
      ensures store.saves == old(store.saves) + 1 && store.nextId == old(store.nextId) + 1
      ensures |queue.items| == |old(queue.items)| + 1
      ensures queue.items[..|old(queue.items)|] == old(queue.items)
      ensures fresh(queue.items[|old(queue.items)|])
      ensures queue.items[|old(queue.items)|].State() == RowState(store.rows[|store.rows| - 1])
      ensures queue.added == old(queue.added) + [queue.items[|old(queue.items)|]]
      ensures queue.consumed == old(queue.consumed)
    {
      var b := SaveNewBooking(roomId, startTime, endTime, createdAt);
      ghost var waiting := queue.items;
      queue.Add(b);
      id := b.bookingId.value;
      assert queue.items == waiting + [b];
      StatesSnoc(waiting, b);
    }

    /**
     * The transaction of `createNewBooking`: a new pending entity is built
     * and saved. Its row is new and pending, so the queue with the entity
     * appended still awaits settlement with no id twice.
     */
    method SaveNewBooking(roomId: int, startTime: int, endTime: int, createdAt: int) returns (b: Booking)
      requires Valid()
      modifies store
      ensures Valid() && fresh(b)
      ensures store.rows == old(store.rows) + [Row(old(store.nextId), roomId, startTime, endTime, createdAt, PENDING)]
      ensures store.saves == old(store.saves) + 1 && store.nextId == old(store.nextId) + 1
      ensures b.State() == RowState(store.rows[|store.rows| - 1])
      ensures AllAwaiting(States(queue.items) + [b.State()], store.rows)
      ensures QueuedOnce(States(queue.items) + [b.State()])
    {
      b := NewRequest(roomId, startTime, endTime);
      ghost var before := store.rows;
      ghost var qs := States(queue.items);
      store.Persist(b, createdAt);
      ghost var row := store.rows[|before|];
      assert States(queue.items) == qs;
      assert AcceptedDisjoint(store.rows) by {
        AppendUnacceptedRow(before, row);
      }
      assert b.State() == RowState(row);
      IdBelow(before, row.id, row.id);
      EnqueueNewRow(qs, before, row);
    }

    /**
     * `settlePendingBooking`: a booking that is not pending is left alone
     * and not saved; a pending one is rejected or accepted as the conflict
     * query decides and saved once.
     */
    method SettlePendingBooking(b: Booking)
      requires Consistent() && StoredIn(b.State(), store.rows)
      modifies b, store
      ensures Consistent() && store.nextId == old(store.nextId)
      ensures b.State() == Settled(old(store.rows), old(b.State()))
      ensures store.rows == SettleRows(old(store.rows), old(b.State()))
      ensures store.saves == old(store.saves) + (if old(b.bookingStatus) == Some(PENDING) then 1 else 0)
      ensures b !in queue.items ==> States(queue.items) == old(States(queue.items))
    {
      if b.bookingStatus != Some(PENDING) {
        return;
      }
      ghost var st := b.State();
      ghost var items := queue.items;
      label Before:
      if ExistsConflictingBookings(store.rows, b.roomId.value, b.startTime.value, b.endTime.value) {
        b.SetBookingStatus(REJECTED);
      } else {
        b.SetBookingStatus(ACCEPTED);
      }
      SettlePreservesDisjoint(store.rows, st);
      store.Merge(b);
      if b !in items {
        forall k | 0 <= k < |items| ensures items[k].State() == old@Before(items[k].State()) {
          assert items[k] != b;
        }
      }
    }

    /**
     * One turn of the worker loop: take the head of the queue and settle it.
     * Where the source blocks on an empty queue, this is called only on a
     * non-empty one.
     */
    method ProcessNext()
      requires Valid() && queue.items != []
      modifies queue, store, queue.items[0]
      ensures Valid()
      ensures queue.items == old(queue.items)[1..]
      ensures queue.consumed == old(queue.consumed) + [old(queue.items)[0]]
      ensures old(queue.items)[0].State() == Settled(old(store.rows), old(queue.items[0].State()))
      ensures store.rows == SettleRows(old(store.rows), old(queue.items[0].State()))
      ensures store.nextId == old(store.nextId)
      ensures store.saves == old(store.saves) + (if old(queue.items[0].bookingStatus) == Some(PENDING) then 1 else 0)
      ensures DecidedKept(old(store.rows), store.rows)
    {
      ghost var rows := store.rows;
      ghost var qs := States(queue.items);
      assert Awaiting(qs[0], rows) && qs[0] !in qs[1..] by {
        DequeueAndSettle(qs, rows);
      }
      var b := queue.Consume();
      ghost var rest := queue.items;
      assert b.State() == qs[0] && States(rest) == qs[1..];
      StateListed(rest, b);
      assert b !in rest;
      SettlePendingBooking(b);
      assert queue.items == rest && States(rest) == qs[1..];
      assert store.rows == SettleRows(rows, qs[0]);
      DequeueAndSettle(qs, rows);
    }
  }

  /** The entity `createNewBooking` fills in before saving it: a pending request with no id yet. */
  method NewRequest(roomId: int, startTime: int, endTime: int) returns (b: Booking)
    ensures fresh(b)
    ensures b.State() == BookingState(None, Some(roomId), Some(startTime), Some(endTime), None, Some(PENDING))
  {
    b := new Booking();
    b.SetRoom(roomId);
    b.SetStartTime(startTime);
    b.SetEndTime(endTime);
    b.SetBookingStatus(PENDING);
  }

  /**
   * Start-up: the queue is built and seeded with the pending bookings before
   * the service takes submissions.
   */
  method StartUp(store: BookingStore, rooms: set<int>) returns (s: BookingService)
    requires store.Valid() && AcceptedDisjoint(store.rows)
    ensures s.Valid() && s.store == store && s.rooms == rooms && fresh(s.queue)
    ensures Holds(s.queue.items, FindAllPendingBookings(store.rows))
    ensures s.queue.added == s.queue.items && s.queue.consumed == []
  {
    var q := new BookingQueue();
    q.Init(store);
    assert q.items[0..] == q.items;
    var pending := FindAllPendingBookings(store.rows);
    var qs := States(q.items);
    assert AllAwaiting(qs, store.rows) by {
      AllAwaitingEach(qs, store.rows);
      forall k | 0 <= k < |qs| ensures Awaiting(qs[k], store.rows) {
        PendingRowsAwaiting(store.rows, k);
      }
    }
    assert QueuedOnce(qs) by {
      QueuedOnceDistinct(qs);
      PendingIdsUnique(store.rows);
      forall m, n | 0 <= m < n < |qs| ensures qs[m].bookingId != qs[n].bookingId {
        assert qs[m].bookingId == Some(pending[m].id) && qs[n].bookingId == Some(pending[n].id);
      }
    }
    s := new BookingService(q, store, rooms);
  }

  /**
   * The bookings a running service has queued meet what `FirstSubmittedWins`
   * and `SettledAtTurn` ask of a queue: every one identified and pending, and
   * no id twice.
   */
  lemma QueueIsSettleable(s: BookingService)
    requires s.Valid()
    ensures var qs := States(s.queue.items);
      && AllIdentified(qs) && DistinctIds(qs)
      && forall k :: 0 <= k < |qs| ==> qs[k].bookingStatus == Some(PENDING)
  {
    var qs := States(s.queue.items);
    AllAwaitingEach(qs, s.store.rows);
    QueuedOnceDistinct(qs);
    forall k | 0 <= k < |qs| ensures Persistable(qs[k]) && qs[k].bookingId.Some? && qs[k].bookingStatus == Some(PENDING) {
      assert Awaiting(qs[k], s.store.rows);
    }
  }
}
