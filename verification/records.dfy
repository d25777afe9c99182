/** The persistent booking record and the values it is keyed by.
    Calendar days are day numbers; clock times are hour/minute pairs. */
module Records {
  import opened Results

  /** A wall-clock time as `parse(scheduledTime, 'HH:mm', ...)` yields it. */
  datatype Clock = Clock(hour: int, minute: int)

  /** The key of a bookable slot: a day and a clock time. It is also the
      key of an `availability_slots` row. */
  datatype Slot = Slot(date: int, time: Clock)

  datatype BookingStatus = Pending | Confirmed | Completed | Cancelled

  /** A row of the `bookings` table, as `create` inserts it. */
  datatype Booking = Booking(
    id: string,
    bookingReference: string,
    customerId: string,
    serviceId: string,
    addressId: string,
    slot: Slot,
    durationMinutes: int,
    totalPrice: int,
    status: BookingStatus,
    specialInstructions: Option<string>)

  /** A booking holds its slot while it is pending or confirmed;
      cancelled and completed bookings free it. */
  predicate Holds(b: Booking, slot: Slot) {
    b.slot == slot && (b.status == Pending || b.status == Confirmed)
  }
}
