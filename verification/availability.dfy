/** Slot availability: a slot takes at most one active (pending or
    confirmed) booking, and an `availability_slots` row may block it. The
    capacity check runs first. */
module Availability {
  import opened Results
  import opened Records

  /** One booking per slot ("for MVP"). */
  const MaxConcurrentBookings := 1

  datatype AvailabilityError =
    | SlotTaken     // "This time slot is no longer available."
    | SlotBlocked   // "This time slot is blocked."

  /** The `findMany` query of `checkAvailability`: the bookings that hold
      `slot`, in store order. */
  function BookingsHolding(bookings: seq<Booking>, slot: Slot): (r: seq<Booking>)
    ensures |r| <= |bookings|
    ensures forall b :: b in r <==> b in bookings && Holds(b, slot)
    ensures forall b :: multiset(r)[b] == if Holds(b, slot) then multiset(bookings)[b] else 0
    decreases |bookings|
  {
    if |bookings| == 0 then []
    else
      assert bookings == [bookings[0]] + bookings[1..];
      var rest := BookingsHolding(bookings[1..], slot);
      if Holds(bookings[0], slot) then [bookings[0]] + rest else rest
  }

  /** `checkAvailability`. `blocks` is the `availability_slots` table: a
      slot key mapped to its `isAvailable` flag; a slot without a row is
      not blocked. */
  function CheckAvailability(bookings: seq<Booking>, blocks: map<Slot, bool>, slot: Slot): (r: Outcome<AvailabilityError>)
    ensures r == Fail(SlotTaken) <==>
      exists i :: 0 <= i < |bookings| && Holds(bookings[i], slot)
    ensures r == Fail(SlotBlocked) <==>
      && (forall i :: 0 <= i < |bookings| ==> !Holds(bookings[i], slot))
      && slot in blocks && !blocks[slot]
    ensures r == Pass <==>
      && (forall i :: 0 <= i < |bookings| ==> !Holds(bookings[i], slot))
      && (slot !in blocks || blocks[slot])
  {
    var existing := BookingsHolding(bookings, slot);
    assert |existing| > 0 ==> existing[0] in existing;
    if |existing| >= MaxConcurrentBookings then Fail(SlotTaken)
    else if slot in blocks && !blocks[slot] then Fail(SlotBlocked)
    else Pass
  }

  lemma {:induction false} NoHolderNothingFound(bookings: seq<Booking>, slot: Slot)
    requires forall i :: 0 <= i < |bookings| ==> !Holds(bookings[i], slot)
    ensures BookingsHolding(bookings, slot) == []
    decreases |bookings|
  {
    if |bookings| > 0 {
      NoHolderNothingFound(bookings[1..], slot);
    }
  }

  /** No two bookings of the store hold the same slot. */
  predicate SingleOccupancy(bookings: seq<Booking>) {
    forall i, j :: 0 <= i < j < |bookings| ==> !Holds(bookings[j], bookings[i].slot) || !Holds(bookings[i], bookings[i].slot)
  }

  /** Under single occupancy the `findMany` query never returns more than
      the slot's capacity. */
  lemma {:induction false} SingleOccupancyWithinCapacity(bookings: seq<Booking>, slot: Slot)
    requires SingleOccupancy(bookings)
    ensures |BookingsHolding(bookings, slot)| <= MaxConcurrentBookings
    decreases |bookings|
  {
    if |bookings| > 0 {
      var rest := bookings[1..];
      assert SingleOccupancy(rest) by {
        forall i, j | 0 <= i < j < |rest|
          ensures !Holds(rest[j], rest[i].slot) || !Holds(rest[i], rest[i].slot)
        {
          assert rest[i] == bookings[i + 1] && rest[j] == bookings[j + 1];
        }
      }
      SingleOccupancyWithinCapacity(rest, slot);
      if Holds(bookings[0], slot) {
        forall j | 0 <= j < |rest| ensures !Holds(rest[j], slot) {
          assert rest[j] == bookings[j + 1];
        }
        NoHolderNothingFound(rest, slot);
      }
    }
  }

  /** Adding a booking to a slot the availability check passed keeps
      single occupancy: the check is what stops double booking. */
  lemma AddAfterPassKeepsSingleOccupancy(bookings: seq<Booking>, blocks: map<Slot, bool>, b: Booking)
    requires SingleOccupancy(bookings)
    requires CheckAvailability(bookings, blocks, b.slot) == Pass
    ensures SingleOccupancy(bookings + [b])
  {
    var bs := bookings + [b];
    forall i, j | 0 <= i < j < |bs|
      ensures !Holds(bs[j], bs[i].slot) || !Holds(bs[i], bs[i].slot)
    {
      if j == |bookings| {
        assert bs[i] == bookings[i];
      } else {
        assert bs[i] == bookings[i] && bs[j] == bookings[j];
      }
    }
  }
}
