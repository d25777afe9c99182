/** The booking-creation engine: `create` validates the request, checks
    the service, the scheduling rules and the slot's availability, in
    that order, then upserts the customer, adds the address, generates the
    reference and inserts the booking with its first status-history
    entry. Only the last step runs inside the store's transaction. */
module Bookings {
  import opened Results
  import opened Records
  import opened BookingDto
  import opened Scheduling
  import opened Availability
  import opened BookingReference
  import opened Customers

  /** A row of the `services` table, as far as `create` reads it. */
  datatype Service = Service(id: string, basePrice: int, durationMinutes: int, isActive: bool)

  /** A row of `booking_status_history`; `fromStatus` is null for the
      entry written when the booking is created. */
  datatype HistoryEntry = HistoryEntry(
    bookingId: string,
    fromStatus: Option<BookingStatus>,
    toStatus: BookingStatus,
    changedBy: string,
    notes: string)

  /** The tables `create` reads and writes. `services` is keyed by id and
      `availabilitySlots` maps a slot to its `isAvailable` flag. */
  datatype Store = Store(
    services: map<string, Service>,
    customers: seq<Customer>,
    addresses: seq<Address>,
    bookings: seq<Booking>,
    history: seq<HistoryEntry>,
    availabilitySlots: map<Slot, bool>)

  /** What `create` takes from outside the request: the current day and
      year, the number of bookings created this year, the configured
      reference prefix, the drawn random suffix, and the ids the database
      assigns to new rows. */
  datatype Context = Context(
    today: int,
    year: nat,
    bookingsThisYear: nat,
    prefixEnv: Option<string>,
    randomSuffix: nat,
    customerId: string,
    addressId: string,
    bookingId: string)

  datatype BookingError =
    | InvalidRequest                           // 400 from the validation pipe
    | ServiceNotFound                          // NotFoundException
    | ServiceInactive                          // BadRequestException
    | Unschedulable(rule: ScheduleError)       // BadRequestException
    | Unavailable(conflict: AvailabilityError) // BadRequestException
    | CreateFailed                             // InternalServerErrorException

  /** The store after the call, and the booking or the error. */
  datatype CreateOutcome = CreateOutcome(store: Store, result: Result<Booking, BookingError>)

  /** The history entry written with every new booking. */
  function CreationEntry(bookingId: string): HistoryEntry {
    HistoryEntry(bookingId, None, Pending, "system", "Booking created")
  }

  /** `validateService`: the service with the requested id, when there is
      one and it is active. */
  function ValidateService(services: map<string, Service>, serviceId: string): (r: Result<Service, BookingError>)
    ensures r == Failure(ServiceNotFound) <==> serviceId !in services
    ensures r == Failure(ServiceInactive) <==> serviceId in services && !services[serviceId].isActive
    ensures r.Success? <==> serviceId in services && services[serviceId].isActive
    ensures r.Success? ==> r.value == services[serviceId]
  {
    if serviceId !in services then Failure(ServiceNotFound)
    else if !services[serviceId].isActive then Failure(ServiceInactive)
    else Success(services[serviceId])
  }

  /** `calculatePrice`: a booking costs its service's base price; the
      request carries no room counts or cleaning type. */
  function BookingPrice(service: Service): (p: int)
    ensures p == service.basePrice
  {
    service.basePrice
  }

  /** The slot a valid request asks for: its day, and the clock reading
      `split(':').map(Number)` takes from its time. */
  function RequestedSlot(dto: CreateBookingDto): (slot: Slot)
    requires MatchesTimePattern(dto.scheduledTime)
    ensures slot == Slot(dto.scheduledDate, Clock(ClockFields(dto.scheduledTime).0, ClockFields(dto.scheduledTime).1))
    ensures 0 <= slot.time.hour <= 23 && 0 <= slot.time.minute <= 59
    ensures ClockText(slot.time.hour, slot.time.minute) == dto.scheduledTime
  {
    ClockFieldsRoundTrip(dto.scheduledTime);
    var hm := ClockFields(dto.scheduledTime);
    Slot(dto.scheduledDate, Clock(hm.0, hm.1))
  }

  /** The request is valid and names an active service. */
  predicate ServiceAccepted(store: Store, dto: CreateBookingDto) {
    && ValidRequest(dto)
    && dto.serviceId in store.services
    && store.services[dto.serviceId].isActive
  }

  /** The first three steps pass as well as the scheduling checks. */
  predicate ScheduleAccepted(store: Store, dto: CreateBookingDto, ctx: Context) {
    && ServiceAccepted(store, dto)
    && var slot := RequestedSlot(dto);
       ValidateScheduling(slot.date, ctx.today, slot.time.hour, slot.time.minute) == Pass
  }

  /** Every check passes, the availability check included. */
  predicate ChecksPass(store: Store, dto: CreateBookingDto, ctx: Context) {
    && ScheduleAccepted(store, dto, ctx)
    && CheckAvailability(store.bookings, store.availabilitySlots, RequestedSlot(dto)) == Pass
  }

  /** The reference `create` generates for the request. */
  function NewReference(store: Store, ctx: Context): string
    requires ctx.randomSuffix < 1000
  {
    GenerateBookingReference(store.bookings, ctx.prefixEnv, ctx.year, ctx.bookingsThisYear, ctx.randomSuffix)
  }

  /** `create`. */
  function CreateBooking(store: Store, dto: CreateBookingDto, ctx: Context): (out: CreateOutcome)
    requires EmailsUnique(store.customers)
    requires ctx.randomSuffix < 1000
    // the checks, in order; a rejection writes nothing
    ensures !ValidRequest(dto) ==> out == CreateOutcome(store, Failure(InvalidRequest))
    ensures ValidRequest(dto) && dto.serviceId !in store.services ==>
      out == CreateOutcome(store, Failure(ServiceNotFound))
    ensures ValidRequest(dto) && dto.serviceId in store.services && !store.services[dto.serviceId].isActive ==>
      out == CreateOutcome(store, Failure(ServiceInactive))
    ensures ServiceAccepted(store, dto) ==>
      var slot := RequestedSlot(dto);
      var check := ValidateScheduling(slot.date, ctx.today, slot.time.hour, slot.time.minute);
      check.Fail? ==> out == CreateOutcome(store, Failure(Unschedulable(check.error)))
    ensures ScheduleAccepted(store, dto, ctx) ==>
      var check := CheckAvailability(store.bookings, store.availabilitySlots, RequestedSlot(dto));
      check.Fail? ==> out == CreateOutcome(store, Failure(Unavailable(check.error)))
    // once every check passes, the outcome hangs on the reference alone
    ensures out.result.Success? || out.result == Failure(CreateFailed) <==> ChecksPass(store, dto, ctx)
    ensures out.result == Failure(CreateFailed) <==>
      ChecksPass(store, dto, ctx) && ReferenceTaken(store.bookings, NewReference(store, ctx))
    // the customer and address are written before the transaction, so
    // they stay written when it fails; bookings and history do not
    ensures out.result == Failure(CreateFailed) ==>
      && out.store.bookings == store.bookings
      && out.store.history == store.history
      && out.store.customers == UpsertCustomer(store.customers, dto.customer, ctx.customerId).0
      && out.store.addresses == store.addresses +
           [CreateAddress(UpsertCustomer(store.customers, dto.customer, ctx.customerId).1.id, dto.address, ctx.addressId)]
    // the booking inserted
    ensures out.result.Success? ==>
      var b := out.result.value;
      var service := store.services[dto.serviceId];
      var (customers, customer) := UpsertCustomer(store.customers, dto.customer, ctx.customerId);
      && b.id == ctx.bookingId
      && b.status == Pending
      && b.totalPrice == service.basePrice
      && b.durationMinutes == service.durationMinutes
      && b.serviceId == service.id
      && b.slot == RequestedSlot(dto)
      && b.specialInstructions == NullIfEmpty(dto.specialInstructions)
      && b.bookingReference == NewReference(store, ctx)
      && !ReferenceTaken(store.bookings, b.bookingReference)
      && b.customerId == customer.id
      && out.store.customers == customers
      && out.store.addresses == store.addresses + [CreateAddress(customer.id, dto.address, ctx.addressId)]
      && b.addressId == ctx.addressId
      && out.store.bookings == store.bookings + [b]
      && out.store.history == store.history + [CreationEntry(b.id)]
    ensures out.store.services == store.services
    ensures out.store.availabilitySlots == store.availabilitySlots
  {
    if !ValidRequest(dto) then CreateOutcome(store, Failure(InvalidRequest))
    else
      match ValidateService(store.services, dto.serviceId)
      case Failure(e) => CreateOutcome(store, Failure(e))
      case Success(service) =>
        var slot := RequestedSlot(dto);
        match ValidateScheduling(slot.date, ctx.today, slot.time.hour, slot.time.minute)
        case Fail(e) => CreateOutcome(store, Failure(Unschedulable(e)))
        case Pass =>
          match CheckAvailability(store.bookings, store.availabilitySlots, slot)
          case Fail(e) => CreateOutcome(store, Failure(Unavailable(e)))
          case Pass =>
            var totalPrice := BookingPrice(service);
            var (customers, customer) := UpsertCustomer(store.customers, dto.customer, ctx.customerId);
            var address := CreateAddress(customer.id, dto.address, ctx.addressId);
            var written := store.(customers := customers, addresses := store.addresses + [address]);
            var reference := NewReference(store, ctx);
            if ReferenceTaken(store.bookings, reference) then
              // the unique constraint on bookingReference aborts the transaction
              CreateOutcome(written, Failure(CreateFailed))
            else
              var booking := Booking(
                ctx.bookingId, reference, customer.id, service.id, address.id, slot,
                service.durationMinutes, totalPrice, Pending, NullIfEmpty(dto.specialInstructions));
              CreateOutcome(
                written.(bookings := store.bookings + [booking], history := store.history + [CreationEntry(booking.id)]),
                Success(booking))
  }

  /** No two bookings share a reference. */
  predicate ReferencesUnique(bookings: seq<Booking>) {
    forall i, j :: 0 <= i < j < |bookings| ==> bookings[i].bookingReference != bookings[j].bookingReference
  }

  /** Every booking has its creation entry, in the same order. */
  predicate HistoryMatches(bookings: seq<Booking>, history: seq<HistoryEntry>) {
    |history| == |bookings| && forall i :: 0 <= i < |bookings| ==> history[i] == CreationEntry(bookings[i].id)
  }

  /** What the store keeps true across calls to `create`. */
  predicate StoreInvariant(store: Store) {
    && EmailsUnique(store.customers)
    && SingleOccupancy(store.bookings)
    && ReferencesUnique(store.bookings)
    && HistoryMatches(store.bookings, store.history)
  }

  /** `create` keeps the store invariant, whatever its outcome: no slot is
      double booked, no reference is reused, no booking is inserted
      without its history entry and no email gets a second customer. */
  lemma CreatePreservesInvariant(store: Store, dto: CreateBookingDto, ctx: Context)
    requires StoreInvariant(store)
    requires ctx.randomSuffix < 1000
    ensures StoreInvariant(CreateBooking(store, dto, ctx).store)
  {
    var out := CreateBooking(store, dto, ctx);
    if ChecksPass(store, dto, ctx) {
      UpsertKeepsOneCustomerPerEmail(store.customers, dto.customer, ctx.customerId);
      if out.result.Success? {
        AddAfterPassKeepsSingleOccupancy(store.bookings, store.availabilitySlots, out.result.value);
      }
    }
  }

  /** Every booking `create` inserts is pending, in a slot the scheduling
      rules accept for the day it was made, and the only booking holding
      that slot, whatever else the store holds: the availability check
      passed, so no stored booking held the slot before. */
  lemma CreatedBookingIsBookable(store: Store, dto: CreateBookingDto, ctx: Context)
    requires EmailsUnique(store.customers)
    requires ctx.randomSuffix < 1000
    requires CreateBooking(store, dto, ctx).result.Success?
    ensures var out := CreateBooking(store, dto, ctx);
      var b := out.result.value;
      && b.status == Pending
      && ctx.today + 1 <= b.slot.date <= ctx.today + 90
      && b.slot in BookableSlots(ctx.today)
      && |BookingsHolding(out.store.bookings, b.slot)| == 1
  {
    var out := CreateBooking(store, dto, ctx);
    var b := out.result.value;
    AcceptedIffBookable(b.slot.date, ctx.today, b.slot.time.hour, b.slot.time.minute);
    var r := BookingsHolding(out.store.bookings, b.slot);
    assert out.store.bookings == store.bookings + [b];
    forall x ensures multiset(r)[x] == multiset{b}[x] {
      assert Holds(x, b.slot) ==> x !in store.bookings;
    }
    assert multiset(r) == multiset{b};
    assert |r| == |multiset(r)|;
  }

  /** The fallback suffix is not probed: when the year's count is stale so
      that the candidate reference is taken, and the drawn suffix lands on
      a taken reference too, the insert hits the unique constraint and
      `create` fails, yet the new customer it upserted before the
      transaction stays written. */
  lemma FailedCreateKeepsCustomer(store: Store, dto: CreateBookingDto, ctx: Context)
    requires EmailsUnique(store.customers)
    requires ctx.randomSuffix < 1000
    requires ChecksPass(store, dto, ctx)
    requires forall i :: 0 <= i < |store.customers| ==> store.customers[i].email != dto.customer.email
    requires var candidate := Candidate(ReferencePrefix(ctx.prefixEnv), ctx.year, ctx.bookingsThisYear);
      && ReferenceTaken(store.bookings, candidate)
      && ReferenceTaken(store.bookings, candidate + "-" + SuffixText(ctx.randomSuffix))
    ensures var out := CreateBooking(store, dto, ctx);
      && out.result == Failure(CreateFailed)
      && out.store.bookings == store.bookings
      && |out.store.customers| == |store.customers| + 1
      && out.store.customers[|store.customers|].email == dto.customer.email
  {
    var candidate := Candidate(ReferencePrefix(ctx.prefixEnv), ctx.year, ctx.bookingsThisYear);
    assert NewReference(store, ctx) == candidate + "-" + SuffixText(ctx.randomSuffix);
  }
}
