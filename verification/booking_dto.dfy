/** The request body of `POST /bookings` and the field rules the global
    validation pipe enforces on it before the booking service sees it:
    required and length-capped text fields, the two-letter country code,
    the E.164-style phone number and the `HH:mm` clock time. */
module BookingDto {
  import opened Results
  import opened Text

  const MaxEmailLength := 255
  const MinNameLength := 2
  const MaxNameLength := 100
  const MaxStreetAddressLength := 255
  const MaxApartmentUnitLength := 50
  const MaxCityLength := 100
  const MaxStateProvinceLength := 100
  const MaxPostalCodeLength := 20
  const MaxCountryLength := 2
  const MaxSpecialInstructionsLength := 1000

  datatype CustomerDto = CustomerDto(
    email: string,
    firstName: string,
    lastName: string,
    phone: string)

  /** `country` is `None` when the request leaves it out; the class
      initialiser then supplies "US" (see `Customers.StoredCountry`). */
  datatype AddressDto = AddressDto(
    streetAddress: string,
    apartmentUnit: Option<string>,
    city: string,
    stateProvince: string,
    postalCode: string,
    country: Option<string>)

  /** `scheduledDate` is the requested calendar day as a day number. */
  datatype CreateBookingDto = CreateBookingDto(
    customer: CustomerDto,
    address: AddressDto,
    serviceId: string,
    scheduledDate: int,
    scheduledTime: string,
    specialInstructions: Option<string>)

  /** `@IsNotEmpty() @MaxLength(max)` */
  predicate RequiredText(s: string, max: nat) {
    s != "" && |s| <= max
  }

  /** `@IsOptional() @MaxLength(max)`: an absent value is not checked. */
  predicate OptionalText(s: Option<string>, max: nat) {
    s.None? || |s.value| <= max
  }

  /** `@IsNotEmpty() @MinLength(2) @MaxLength(100)` */
  predicate ValidName(s: string) {
    s != "" && MinNameLength <= |s| <= MaxNameLength
  }

  predicate IsUpperLetter(c: char) {
    'A' <= c <= 'Z'
  }

  /** `/^[A-Z]{2}$/` */
  predicate IsCountryCode(s: string) {
    |s| == 2 && IsUpperLetter(s[0]) && IsUpperLetter(s[1])
  }

  /** `@IsOptional() @MaxLength(2) @Matches(/^[A-Z]{2}$/)` */
  predicate ValidCountry(country: Option<string>) {
    match country
    case None => true
    case Some(s) => |s| <= MaxCountryLength && IsCountryCode(s)
  }

  /** `/^\+?[1-9]\d{1,14}$/`, read left to right: an optional '+', one digit
      from 1 to 9, then one to fourteen digits. */
  predicate MatchesPhonePattern(s: string) {
    var body := if |s| > 0 && s[0] == '+' then s[1..] else s;
    && 1 <= |body|
    && '1' <= body[0] <= '9'
    && 1 <= |body| - 1 <= 14
    && AllDigits(body[1..])
  }

  /** The digits of an E.164 number: two to fifteen, the first not zero. */
  predicate E164Digits(d: string) {
    2 <= |d| <= 15 && AllDigits(d) && d[0] != '0'
  }

  /** The phone pattern accepts exactly an E.164 digit string, with or
      without one leading '+'. */
  lemma PhonePatternMeaning(s: string)
    ensures MatchesPhonePattern(s) <==>
      exists d :: E164Digits(d) && (s == d || s == ['+'] + d)
  {
    if MatchesPhonePattern(s) {
      var d := if |s| > 0 && s[0] == '+' then s[1..] else s;
      assert d == [d[0]] + d[1..];
      assert E164Digits(d);
      if |s| > 0 && s[0] == '+' {
        assert s == ['+'] + d;
      }
    }
    if exists d :: E164Digits(d) && (s == d || s == ['+'] + d) {
      var d :| E164Digits(d) && (s == d || s == ['+'] + d);
      if s == ['+'] + d {
        assert s[1..] == d;
      }
      assert forall i :: 0 <= i < |d[1..]| ==> d[1..][i] == d[i + 1];
    }
  }

  /** `/^([01]\d|2[0-3]):([0-5]\d)$/`, read as written: an hour field that is
      '0' or '1' then any digit, or '2' then '0' to '3'; a colon; a minute
      field that is '0' to '5' then any digit. */
  predicate MatchesTimePattern(s: string) {
    && |s| == 5
    && (((s[0] == '0' || s[0] == '1') && IsDigit(s[1])) || (s[0] == '2' && '0' <= s[1] <= '3'))
    && s[2] == ':'
    && '0' <= s[3] <= '5' && IsDigit(s[4])
  }

  function TwoDigitValue(tens: char, units: char): nat
    requires IsDigit(tens) && IsDigit(units)
  {
    10 * DigitValue(tens) + DigitValue(units)
  }

  /** The time pattern accepts exactly two digits, a colon and two digits,
      whose hour reads 00 to 23 and whose minutes read 00 to 59. */
  lemma TimePatternMeaning(s: string)
    ensures MatchesTimePattern(s) <==>
      && |s| == 5
      && IsDigit(s[0]) && IsDigit(s[1]) && s[2] == ':' && IsDigit(s[3]) && IsDigit(s[4])
      && TwoDigitValue(s[0], s[1]) <= 23
      && TwoDigitValue(s[3], s[4]) <= 59
  {
  }

  /** The pattern-accepted time splits at ':' into its hour and minute
      digits. */
  lemma TimeSplitsInTwo(s: string)
    requires MatchesTimePattern(s)
    ensures Split(s, ':') == [s[..2], s[3..]]
    ensures AllDigits(s[..2]) && AllDigits(s[3..])
    ensures DecimalValue(s[..2]) == TwoDigitValue(s[0], s[1])
    ensures DecimalValue(s[3..]) == TwoDigitValue(s[3], s[4])
  {
    assert s == s[..2] + [':'] + s[3..];
    SplitAtFirstSeparator(s[..2], ':', s[3..]);
    SplitWithoutSeparator(s[3..], ':');
    assert s[..2][..1] == s[..1] && s[..1][..0] == [];
    assert DecimalValue(s[..1]) == DigitValue(s[0]);
    assert s[3..][..1] == [s[3]] && [s[3]][..0] == [];
    assert DecimalValue([s[3]]) == DigitValue(s[3]);
  }

  /** `scheduledTime.split(':').map(Number)` on a pattern-accepted time:
      the hour and minute it names, always a real clock reading. */
  function ClockFields(s: string): (hm: (int, int))
    requires MatchesTimePattern(s)
    ensures 0 <= hm.0 <= 23 && 0 <= hm.1 <= 59
    ensures hm.0 == TwoDigitValue(s[0], s[1]) && hm.1 == TwoDigitValue(s[3], s[4])
  {
    TimeSplitsInTwo(s);
    var parts := Split(s, ':');
    (DecimalValue(parts[0]), DecimalValue(parts[1]))
  }

  /** An independent reading of the `HH:mm` format: the five characters
      that name an hour and a minute. */
  function ClockText(hour: nat, minute: nat): (s: string)
    requires hour < 24 && minute < 60
    ensures MatchesTimePattern(s)
  {
    [DigitChar(hour / 10), DigitChar(hour % 10), ':', DigitChar(minute / 10), DigitChar(minute % 10)]
  }

  /** Every clock reading written as `HH:mm` is accepted and reads back as
      itself. */
  lemma ClockTextRoundTrip(hour: nat, minute: nat)
    requires hour < 24 && minute < 60
    ensures ClockFields(ClockText(hour, minute)) == (hour, minute)
  {
  }

  /** Every accepted time is the `HH:mm` text of the reading it parses to,
      so the pattern admits no other spelling. */
  lemma ClockFieldsRoundTrip(s: string)
    requires MatchesTimePattern(s)
    ensures ClockText(ClockFields(s).0, ClockFields(s).1) == s
  {
    var hm := ClockFields(s);
    assert DigitChar(hm.0 / 10) == s[0] by {
      assert DigitChar(DigitValue(s[0])) == s[0];
    }
    assert DigitChar(hm.1 / 10) == s[3] by {
      assert DigitChar(DigitValue(s[3])) == s[3];
    }
  }

  predicate ValidCustomer(c: CustomerDto) {
    && RequiredText(c.email, MaxEmailLength)
    && ValidName(c.firstName)
    && ValidName(c.lastName)
    && c.phone != ""
    && MatchesPhonePattern(c.phone)
  }

  predicate ValidAddress(a: AddressDto) {
    && RequiredText(a.streetAddress, MaxStreetAddressLength)
    && OptionalText(a.apartmentUnit, MaxApartmentUnitLength)
    && RequiredText(a.city, MaxCityLength)
    && RequiredText(a.stateProvince, MaxStateProvinceLength)
    && RequiredText(a.postalCode, MaxPostalCodeLength)
    && ValidCountry(a.country)
  }

  /** Everything the validation pipe checks of a booking request and this
      model can express (see README for the format checks left out). */
  predicate ValidRequest(dto: CreateBookingDto) {
    && ValidCustomer(dto.customer)
    && ValidAddress(dto.address)
    && dto.serviceId != ""
    && dto.scheduledTime != ""
    && MatchesTimePattern(dto.scheduledTime)
    && OptionalText(dto.specialInstructions, MaxSpecialInstructionsLength)
  }

  /** A valid request respects every length cap and its time parses into a
      clock reading, so the hour and minute checks downstream are well
      defined. */
  lemma ValidRequestBounds(dto: CreateBookingDto)
    requires ValidRequest(dto)
    ensures 2 <= |dto.customer.firstName| <= 100 && 2 <= |dto.customer.lastName| <= 100
    ensures 1 <= |dto.address.streetAddress| <= 255
    ensures dto.address.apartmentUnit.Some? ==> |dto.address.apartmentUnit.value| <= 50
    ensures 1 <= |dto.address.city| <= 100 && 1 <= |dto.address.stateProvince| <= 100
    ensures 1 <= |dto.address.postalCode| <= 20
    ensures dto.address.country.Some? ==> IsCountryCode(dto.address.country.value)
    ensures dto.specialInstructions.Some? ==> |dto.specialInstructions.value| <= 1000
    ensures 2 <= |dto.customer.phone| <= 16
    ensures 0 <= ClockFields(dto.scheduledTime).0 <= 23
    ensures 0 <= ClockFields(dto.scheduledTime).1 <= 59
  {
  }
}
