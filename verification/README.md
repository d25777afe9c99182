# Booking reservation rules of a cleaning-service booking API

A Dafny model of the booking core of a NestJS booking service: the rules
`BookingsService.create` applies before it inserts a booking, the room-based
`PricingService`, and the field rules of the `CreateBookingDto` request body
that the global validation pipe enforces before the service runs.

Modules, leaves first:

- `Results` (results.dfy): `Option`, `Result` and `Outcome`, standing for
  nullable fields and thrown exceptions.
- `Text` (text.dfy): the JavaScript string operations the rules rely on.
  These are `Number#toString` and `Number(...)` on digit strings,
  `padStart` and `split`, each with its inverse and a round-trip lemma.
- `BookingDto` (booking_dto.dfy): the request body and its validators. It
  covers the `HH:mm` pattern and the `split(':').map(Number)` reading of an
  accepted time, the phone and country patterns, and the length caps.
- `Pricing` (pricing.dfy): the rate table, `calculatePrice` and `getRates`.
- `Records` (records.dfy): clock times, slots, booking statuses and the
  booking row.
- `Scheduling` (scheduling.dfy): the lead-time window, business hours and
  half-hour rules, checked in the code's order.
- `Availability` (availability.dfy): one active booking per slot, plus the
  optional blocked-slot table.
- `BookingReference` (reference.dfy): `PREFIX-YYYY-NNNNNN` references with
  the three-digit fallback suffix, and a parser that reads them back.
- `Customers` (customers.dfy): the customer upsert by email and address
  creation.
- `Bookings` (bookings.dfy): the store, `create` with its order of checks
  and the record it inserts, and the invariants `create` keeps.

Calendar days are integer day numbers and "today" is a parameter. Clock
times are hour/minute pairs. Prices are integers. The store is a set of
immutable sequences and maps. Everything `create` takes from its
surroundings is a field of `Bookings.Context`:

- the current day and year;
- the count of bookings created this year;
- `BOOKING_REFERENCE_PREFIX`;
- the value `Math.random` draws for the suffix, constrained to 0–999;
- the ids the database assigns to new rows.

Behaviour of the code worth noting:

- `create` runs only the booking insert and its history entry inside the
  store transaction. The customer upsert and the address insert happen
  before it and are not rolled back when the insert fails.
  `Bookings.FailedCreateKeepsCustomer` states this.
- Bookings are priced at the service's base price. The room-based
  `PricingService` is a separate calculator that `create` never calls, and
  neither of them adds tax.
- Business hours end at 18:00: the last bookable start is 17:30.
- There is no retry when the reference collides. The fallback suffix is
  never checked against the store, so a duplicate reference reaches the
  insert. The unique constraint on `bookingReference` then fails it.
  `create` reports `CreateFailed` (the `InternalServerErrorException`).
  That `bookingReference` is unique is inferred from the
  `findUnique({ where: { bookingReference } })` call, since the database
  schema is not part of this model.

## Model

| member | source | states |
|---|---|---|
| Text.DecimalRoundTrip | src/modules/bookings/bookings.service.ts:284 | `Number` reads back exactly the integer that `toString` wrote |
| Text.PaddedDecimalRoundTrip | src/modules/bookings/bookings.service.ts:284 | a number zero-padded to any width still reads as that number |
| Text.PadStart | src/modules/bookings/bookings.service.ts:284 | padStart never truncates: the input is the suffix of the result, and the result's length is the larger of the width and the input's length |
| Text.JoinSplit | src/modules/bookings/bookings.service.ts:153 | joining the pieces of `split` gives back the original string |
| Text.SplitJoin | src/modules/bookings/bookings.service.ts:153 | splitting pieces that hold no separator, once joined, gives back the pieces |
| BookingDto.TimePatternMeaning | src/modules/bookings/dto/create-booking.dto.ts:106 | the `HH:mm` pattern accepts exactly two digits, ':', two digits, with hour 00–23 and minutes 00–59 (both directions) |
| BookingDto.ClockFields | src/modules/bookings/bookings.service.ts:153 | on an accepted time, `split(':').map(Number)` yields the hour field's value in 0–23 and the minute field's value in 0–59 |
| BookingDto.TimeSplitsInTwo | src/modules/bookings/bookings.service.ts:153 | an accepted time splits at ':' into exactly two digit fields, the hour and the minutes |
| BookingDto.ClockTextRoundTrip | src/modules/bookings/dto/create-booking.dto.ts:106 | every clock reading written as `HH:mm` is accepted and parses back to that reading |
| BookingDto.ClockFieldsRoundTrip | src/modules/bookings/dto/create-booking.dto.ts:106 | every accepted time is the `HH:mm` spelling of the reading it parses to |
| BookingDto.PhonePatternMeaning | src/modules/bookings/dto/create-booking.dto.ts:75 | the phone pattern accepts exactly 2–15 digits with no leading zero, optionally after one '+' (both directions) |
| BookingDto.ValidRequestBounds | src/modules/bookings/dto/create-booking.dto.ts:22-115 | a valid request has names of 2–100 characters, street ≤ 255, unit ≤ 50, city and state ≤ 100, postal code ≤ 20, notes ≤ 1000, a two-letter upper-case country when given, and a time that parses to a real clock reading |
| Customers.StoredCountry | src/modules/bookings/dto/create-booking.dto.ts:48-52 | the stored country is the given code, or "US" when it is absent or empty; for a valid request it is always two upper-case letters |
| Pricing.GetRates | src/pricing/pricing.service.ts:50-52 | `getRates(t)` is the rate-table row for t, and both of its rates are positive |
| Pricing.RateTable | src/pricing/pricing.service.ts:17-30 | REGULAR is 20/15, DEEP is 22/18 and MOVE_OUT_MOVE_IN is 25/20 (bedroom/bathroom) |
| Pricing.CalculatePrice | src/pricing/pricing.service.ts:32-48 | the bedroom line is bedrooms × the bedroom rate `getRates` gives, the bathroom line is bathrooms × its bathroom rate, and the total is exactly their sum |
| Pricing.TotalIsRoomByRoomBill | src/pricing/pricing.service.ts:37-41 | the total equals billing each listed room at its own rate and adding up, in whatever order the rooms are listed |
| Pricing.PricesNonNegative | src/pricing/pricing.service.ts:39-41 | non-negative room counts give non-negative line prices and total |
| Pricing.AddingARoomAddsItsRate | src/pricing/pricing.service.ts:39-41 | one more bedroom or bathroom raises the total by exactly that room's rate, so the total strictly grows |
| Pricing.TiersOrdered | src/pricing/pricing.service.ts:17-41 | for the same rooms, total(REGULAR) ≤ total(DEEP) ≤ total(MOVE_OUT_MOVE_IN) |
| Pricing.RegularThreeBedTwoBath | src/pricing/pricing.service.ts:18-21 | a REGULAR clean of 3 bedrooms and 2 bathrooms costs 60 + 30 = 90 |
| Scheduling.ValidateScheduling | src/modules/bookings/bookings.service.ts:132-167 | accepted iff today+1 ≤ date ≤ today+90, 8 ≤ hour < 18 and minutes ∈ {0, 30}; otherwise exactly the first failing check of too-soon, too-far, hours, minutes is reported |
| Scheduling.AcceptedIffBookable | src/modules/bookings/bookings.service.ts:134-166 | the checks accept a date and time exactly when the slot is among the 90 × 20 bookable slots: every half hour from 08:00 to 17:30 on each of the 90 days from tomorrow |
| Availability.BookingsHolding | src/modules/bookings/bookings.service.ts:180-188 | the query returns exactly the stored bookings in that slot whose status is pending or confirmed, each as often as it is stored, so its length is the number of holders |
| Availability.CheckAvailability | src/modules/bookings/bookings.service.ts:172-214 | rejected as taken iff some pending or confirmed booking holds the slot; otherwise rejected as blocked iff the slot has a row with `isAvailable = false`; cancelled or completed bookings and absent rows never reject |
| Availability.SingleOccupancyWithinCapacity | src/modules/bookings/bookings.service.ts:190-193 | in a store without double bookings, a slot's query never returns more than `maxConcurrentBookings` (1) bookings |
| Availability.AddAfterPassKeepsSingleOccupancy | src/modules/bookings/bookings.service.ts:190-197 | adding a booking to a slot the check passed leaves no slot double booked |
| BookingReference.ReferencePrefix | src/modules/bookings/bookings.service.ts:271 | the prefix is the configured one when that is set and non-empty, otherwise "BK" |
| BookingReference.Counter | src/modules/bookings/bookings.service.ts:284 | the counter is at least six digits, reads as count + 1, and ends with the unpadded digits of count + 1 |
| BookingReference.SuffixText | src/modules/bookings/bookings.service.ts:294-296 | the suffix is exactly three digits and reads as the drawn value 0–999 |
| BookingReference.GenerateBookingReference | src/modules/bookings/bookings.service.ts:269-301 | the result starts with the candidate; it is the candidate unchanged (and free) when no booking holds it, and otherwise the candidate, '-' and three digits reading the drawn suffix |
| BookingReference.GeneratedReferenceParses | src/modules/bookings/bookings.service.ts:270-297 | every generated reference parses back to the year, count + 1 and, only on collision, the drawn suffix |
| BookingReference.CandidatesDistinct | src/modules/bookings/bookings.service.ts:284-285 | within one year, different counts never produce the same candidate reference |
| Customers.UpsertCustomer | src/modules/bookings/bookings.service.ts:228-243 | the written customer has the request's email, names and phone; a known email keeps its row and id, a new one is appended with a fresh id, and customers with other emails are unchanged |
| Customers.UpsertKeepsOneCustomerPerEmail | src/modules/bookings/bookings.service.ts:229-230 | after an upsert, emails stay unique and exactly one customer has the request's email |
| Customers.UpsertIdempotent | src/modules/bookings/bookings.service.ts:228-243 | upserting the same customer twice gives the same table and row as upserting once |
| Customers.CreateAddress | src/modules/bookings/bookings.service.ts:248-263 | the address belongs to the customer and copies the request's street, city, state and postal code; an absent or empty unit is stored as null; the country is the request's non-empty code or else "US", so for a valid request it is a two-letter code |
| Bookings.ValidateService | src/modules/bookings/bookings.service.ts:113-127 | NotFound iff no service has the id, BadRequest iff it exists but is inactive, and otherwise that service |
| Results.NullIfEmpty | src/modules/bookings/bookings.service.ts:78 | special instructions (and, at line 256, the apartment unit) are stored as null exactly when absent or empty, and as given otherwise |
| Bookings.BookingPrice | src/modules/bookings/bookings.service.ts:221-223 | a booking costs its service's base price; the request carries no room counts or cleaning type |
| Bookings.RequestedSlot | src/modules/bookings/bookings.service.ts:72-73 | the slot is the request's day and the hour and minute that `parse(scheduledTime, 'HH:mm')` reads; both are in range, and the request's time is exactly the `HH:mm` spelling of that reading |
| Bookings.CreateBooking | src/modules/bookings/bookings.service.ts:32-108 | checks run in order (request, service, scheduling, availability) and any rejection writes nothing; once all pass, the outcome depends only on whether the reference is taken; a success inserts one pending booking priced at the service's base price, in the requested slot, with the generated unused reference, the upserted customer and the new address, plus exactly one history entry null→pending by "system" |
| Bookings.CreatePreservesInvariant | src/modules/bookings/bookings.service.ts:43-96 | `create` never double-books a slot, never reuses a reference, never inserts a booking without its creation entry and never gives an email a second customer |
| Bookings.CreatedBookingIsBookable | src/modules/bookings/bookings.service.ts:37-46 | in any store, a booking `create` inserts is pending, 1–90 days ahead, in a bookable slot, and the only booking holding that slot, since the passed availability check means no stored booking held it |
| Bookings.FailedCreateKeepsCustomer | src/modules/bookings/bookings.service.ts:52-65 | when both the candidate reference and its suffixed form are taken, `create` fails, yet the new customer stays written |

## Left out

- The global validation pipe (src/main.ts:28-37) is modelled as `create`'s first gate, `InvalidRequest`. Its `@IsEmail`, `@IsUUID` and `@IsDateString` checks are not modelled: the email is only required and capped at 255, the service id only required, and the date arrives as a day number.
- A booking's slot is keyed by its day and its time of day. The code stores `parse(scheduledTime, 'HH:mm', new Date())`, a full timestamp on the day of the request, and matches `scheduledTime` against it in `checkAvailability`. The model assumes the database's `scheduledTime` and `slotTime` columns keep only the time of day, so two requests for the same slot made on different days compare equal. If those columns kept the date part, existing bookings would only match requests made on their own creation day. `Availability.SingleOccupancy` and `Bookings.CreatePreservesInvariant` rest on this assumption, and the database schema is not part of this model.
- Request dates that carry a time of day (ISO date-time strings) are not modelled: every date is a whole day, as `parseISO` gives for `YYYY-MM-DD`.
- Time zones, daylight-saving days and `date-fns` parsing are not modelled; today and the year are parameters.
- String lengths count characters, not UTF-16 code units.
- Concurrency is not modelled. The availability check and the reference generation run outside the transaction, and `create` is modelled as one sequential step. Nothing is claimed about concurrent callers.
- `Math.random`, the per-year `count` query, `process.env` and id generation are inputs (see `Bookings.Context`).
- `Prisma.Decimal` and `Number` conversions are not modelled: prices are integers.
- Pricing.CalculatePrice: room counts are integers. The source accepts any JavaScript number, fractional ones included.
- `getAllRates` returns the table itself, which is `Pricing.Rates`.
- `mapToResponseDto`, `findByReference` and `findAll` are not modelled; `create` returns the inserted booking row.
- Status transitions, cancellation, cleaner assignment, tax and retry on collision are not modelled: the code has none of them.
- Email sending and the email and invoice templates are not modelled (presentation and I/O).
- The controller and the module wiring are not modelled.
