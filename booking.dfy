/**
 * The `Booking` entity: a mutable object whose setters overwrite its fields,
 * whose equality is decided by its id alone, and whose hash code is
 * `Objects.hash(bookingId)`.
 *
 * Java's `null` is `None`; a `Long` id is an unbounded `int` (the store hands
 * out ids from 1 upwards); the room reference is the room's id; instants are
 * minutes, as in module Validation.
 */
module BookingModel {

  datatype Option<T> = None | Some(value: T)

  /** Stored by name in the `booking_status` column. */
  datatype BookingStatus = PENDING | ACCEPTED | REJECTED

  /** The values of the six fields of a `Booking` at one moment. */
  datatype BookingState = BookingState(
    bookingId: Option<int>,
    roomId: Option<int>,
    startTime: Option<int>,
    endTime: Option<int>,
    requestTime: Option<int>,
    bookingStatus: Option<BookingStatus>)

  /** Every column declared `nullable = false` has a value. */
  predicate Persistable(st: BookingState) {
    st.roomId.Some? && st.startTime.Some? && st.endTime.Some? && st.bookingStatus.Some?
  }

  const MinInt := -0x8000_0000
  const MaxInt := 0x7FFF_FFFF
  const TwoTo32 := 0x1_0000_0000
  const TwoTo64 := 0x1_0000_0000_0000_0000

  /** Java's narrowing to `int`: keep the low 32 bits, read them as two's complement. */
  function ToInt32(x: int): (r: int)
    ensures MinInt <= r <= MaxInt
    ensures (r - x) % TwoTo32 == 0
    ensures MinInt <= x <= MaxInt ==> r == x
  {
    var low := x % TwoTo32;
    if low > MaxInt then low - TwoTo32 else low
  }

  /** `Long.hashCode(v)`, that is `(int) (v ^ (v >>> 32))` on the 64-bit pattern of `v`. */
  function LongHashCode(v: int): (h: int)
    ensures MinInt <= h <= MaxInt
  {
    var bits := v % TwoTo64;
    ToInt32(Xor(bits % TwoTo32, bits / TwoTo32))
  }

  /** An id that fits in 31 bits has no high word, so it is its own hash code. */
  lemma SmallLongHashCode(v: int)
    ensures 0 <= v <= MaxInt ==> LongHashCode(v) == v
  {
    if 0 <= v <= MaxInt {
      var bits := v % TwoTo64;
      assert bits % TwoTo32 == v && bits / TwoTo32 == 0;
      XorWithZero(v);
    }
  }

  /** Bitwise exclusive or of two non-negative numbers, one bit at a time. */
  function Xor(a: nat, b: nat): (r: nat)
    ensures r <= a + b
    decreases a + b
  {
    if a == 0 && b == 0 then 0
    else (a % 2 + b % 2) % 2 + 2 * Xor(a / 2, b / 2)
  }

  function Pow2(n: nat): nat {
    if n == 0 then 1 else 2 * Pow2(n - 1)
  }

  /** Exclusive or of two `n`-bit numbers is an `n`-bit number. */
  lemma {:induction false} XorBelow(a: nat, b: nat, n: nat)
    requires a < Pow2(n) && b < Pow2(n)
    ensures Xor(a, b) < Pow2(n)
    decreases n
  {
    if a != 0 || b != 0 {
      XorBelow(a / 2, b / 2, n - 1);
    }
  }

  /** `Pow2` unfolded byte by byte up to a 32-bit word. */
  lemma Pow2Of32()
    ensures Pow2(32) == TwoTo32
  {
    assert Pow2(8) == 0x100;
    assert Pow2(16) == 0x1_0000;
    assert Pow2(24) == 0x100_0000;
  }

  /** In particular the two 32-bit words of a `long` xor to a 32-bit word. */
  lemma XorOfWords(a: nat, b: nat)
    requires a < TwoTo32 && b < TwoTo32
    ensures Xor(a, b) < TwoTo32
  {
    Pow2Of32();
    XorBelow(a, b, 32);
  }

  lemma {:induction false} XorWithZero(a: nat)
    ensures Xor(a, 0) == a
  {
    if a != 0 {
      XorWithZero(a / 2);
    }
  }

  /**
   * `Objects.hash(bookingId)`: `31 * 1` plus the hash of the single element,
   * 0 for `null`, in wrapping 32-bit arithmetic.
   */
  function IdHash(id: Option<int>): (h: int)
    ensures MinInt <= h <= MaxInt
    ensures id.None? ==> h == 31
    ensures id.Some? && 0 <= id.value <= MaxInt - 31 ==> h == 31 + id.value
  {
    match id
    case None => 31
    case Some(v) =>
      SmallLongHashCode(v);
      ToInt32(31 + LongHashCode(v))
  }

  class Booking {
    var bookingId: Option<int>
    var roomId: Option<int>
    var startTime: Option<int>
    var endTime: Option<int>
    var requestTime: Option<int>
    var bookingStatus: Option<BookingStatus>

    function State(): BookingState
      reads this
    {
      BookingState(bookingId, roomId, startTime, endTime, requestTime, bookingStatus)
    }

    /** `new Booking()`: every field starts out `null`. */
    constructor ()
      ensures State() == BookingState(None, None, None, None, None, None)
    {
      bookingId, roomId, startTime, endTime, requestTime, bookingStatus :=
        None, None, None, None, None, None;
    }

    /** An entity loaded from the store, with every field given. */
    constructor Loaded(st: BookingState)
      ensures State() == st
    {
      bookingId, roomId, startTime, endTime, requestTime, bookingStatus :=
        st.bookingId, st.roomId, st.startTime, st.endTime, st.requestTime, st.bookingStatus;
    }

    method SetBookingId(id: int)
      modifies this`bookingId
      ensures State() == old(State()).(bookingId := Some(id))
    {
      bookingId := Some(id);
    }

    method SetRoom(room: int)
      modifies this`roomId
      ensures State() == old(State()).(roomId := Some(room))
    {
      roomId := Some(room);
    }

    method SetStartTime(t: int)
      modifies this`startTime
      ensures State() == old(State()).(startTime := Some(t))
    {
      startTime := Some(t);
    }

    method SetEndTime(t: int)
      modifies this`endTime
      ensures State() == old(State()).(endTime := Some(t))
    {
      endTime := Some(t);
    }

    method SetRequestTime(t: int)
      modifies this`requestTime
      ensures State() == old(State()).(requestTime := Some(t))
    {
      requestTime := Some(t);
    }

    method SetBookingStatus(s: BookingStatus)
      modifies this`bookingStatus
      ensures State() == old(State()).(bookingStatus := Some(s))
    {
      bookingStatus := Some(s);
    }

    /**
     * `equals`: the same object, or another booking with the same id. Two
     * bookings that were never saved (both ids `null`) are equal.
     */
    predicate Equals(o: Booking?)
      reads this, o
      ensures Equals(o) <==> o != null && bookingId == o.bookingId
    {
      if this == o then true
      else if o == null then false
      else bookingId == o.bookingId
    }

    function HashCode(): (h: int)
      reads this
      ensures MinInt <= h <= MaxInt
    {
      IdHash(bookingId)
    }
  }

  /** `equals` is an equivalence on non-null bookings... */
  lemma EqualsIsEquivalence(a: Booking, b: Booking, c: Booking)
    ensures a.Equals(a)
    ensures a.Equals(b) ==> b.Equals(a)
    ensures a.Equals(b) && b.Equals(c) ==> a.Equals(c)
  {
  }

  /** ...and `hashCode` agrees with it. */
  lemma EqualBookingsHashAlike(a: Booking, b: Booking)
    requires a.Equals(b)
    ensures a.HashCode() == b.HashCode()
  {
  }
}
