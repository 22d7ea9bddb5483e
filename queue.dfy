/**
 * The admission queue: a first-in first-out hand-off of booking entities
 * from the submission path to the single settlement worker, seeded at
 * start-up with the bookings the store still holds as pending. The source's
 * queue is bounded by `Integer.MAX_VALUE` entries; this one is not.
 */
module Queue {
  import opened BookingModel
  import opened Repository

  class BookingQueue {
    /** The waiting bookings, head first. */
    var items: seq<Booking>
    /** Every booking ever put in, and every booking ever taken out, in order. */
    ghost var added: seq<Booking>
    ghost var consumed: seq<Booking>

    /**
     * First in, first out: what has been taken out, followed by what still
     * waits, is exactly what was put in.
     */
    ghost predicate Valid()
      reads this
    {
      added == consumed + items
    }

    constructor ()
      ensures Valid() && items == [] && added == [] && consumed == []
    {
      items, added, consumed := [], [], [];
    }

    /**
     * `init`: appends one new entity per pending row, in the order
     * `findAllPendingBookings` lists them.
     */
    method Init(store: BookingStore)
      requires Valid()
      modifies this
      ensures Valid() && consumed == old(consumed)
      ensures |old(items)| <= |items| && items[..|old(items)|] == old(items)
      ensures added == old(added) + items[|old(items)|..]
      ensures Holds(items[|old(items)|..], FindAllPendingBookings(store.rows))
      ensures forall k :: |old(items)| <= k < |items| ==> fresh(items[k])
    {
      var loaded := store.LoadPending();
      ghost var before := items;
      assert (consumed + before) + loaded == consumed + (before + loaded);
      items := items + loaded;
      added := added + loaded;
      assert items[|before|..] == loaded;
    }

    /** `add`: at the tail. The model has no capacity; the source throws when full. */
    method Add(b: Booking)
      requires Valid()
      modifies this
      ensures Valid() && items == old(items) + [b]
      ensures added == old(added) + [b] && consumed == old(consumed)
    {
      items := items + [b];
      added := added + [b];
    }

    /**
     * `consume`: the head. Where the source blocks on an empty queue, this
     * is called only on a non-empty one.
     */
    method Consume() returns (b: Booking)
      requires Valid() && items != []
      modifies this
      ensures Valid() && b == old(items)[0] && items == old(items)[1..]
      ensures consumed == old(consumed) + [b] && added == old(added)
    {
      b := items[0];
      items := items[1..];
      consumed := consumed + [b];
    }
  }

  /** The bookings taken out so far are the first ones put in, in the same order. */
  lemma ConsumedArePrefixOfAdded(q: BookingQueue)
    requires q.Valid()
    ensures |q.consumed| <= |q.added|
    ensures forall k :: 0 <= k < |q.consumed| ==> q.consumed[k] == q.added[k]
  {
  }
}
