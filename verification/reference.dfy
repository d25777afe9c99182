/** Booking references of the form PREFIX-YYYY-NNNNNN: the configured
    prefix (default "BK"), the current year and the year's booking count
    plus one, zero-padded to at least six digits. When a booking already
    holds that reference a three-digit random suffix is appended. */
module BookingReference {
  import opened Results
  import opened Text
  import opened Records

  const DefaultPrefix := "BK"
  const CounterWidth := 6
  const SuffixWidth := 3

  /** `process.env.BOOKING_REFERENCE_PREFIX || 'BK'`: an unset or empty
      variable falls back to the default. */
  function ReferencePrefix(env: Option<string>): (p: string)
    ensures env.Some? && env.value != "" ==> p == env.value
    ensures env.None? || env.value == "" ==> p == "BK"
    ensures p != ""
  {
    match env
    case Some(s) => if s != "" then s else DefaultPrefix
    case None => DefaultPrefix
  }

  /** `(count + 1).toString().padStart(6, '0')`: at least six digits,
      reading `count + 1`, and never cut short. */
  function Counter(count: nat): (c: string)
    ensures |c| == if |ToDecimal(count + 1)| < 6 then 6 else |ToDecimal(count + 1)|
    ensures AllDigits(c)
    ensures DecimalValue(c) == count + 1
    ensures |ToDecimal(count + 1)| <= |c| && c[|c| - |ToDecimal(count + 1)|..] == ToDecimal(count + 1)
  {
    PaddedDecimalRoundTrip(count + 1, CounterWidth);
    PadStart(ToDecimal(count + 1), CounterWidth, '0')
  }

  /** `Math.floor(Math.random() * 1000).toString().padStart(3, '0')` for
      a drawn value `suffix` in 0..999: exactly three digits reading it. */
  function SuffixText(suffix: nat): (s: string)
    requires suffix < 1000
    ensures |s| == 3 && AllDigits(s)
    ensures DecimalValue(s) == suffix
  {
    PaddedDecimalRoundTrip(suffix, SuffixWidth);
    ToDecimalLength(suffix, 3);
    PadStart(ToDecimal(suffix), SuffixWidth, '0')
  }

  /** The first reference tried for the year's next booking. */
  function Candidate(prefix: string, year: nat, count: nat): string {
    prefix + "-" + ToDecimal(year) + "-" + Counter(count)
  }

  /** The `findUnique` probe: some stored booking holds `reference`. */
  predicate ReferenceTaken(bookings: seq<Booking>, reference: string) {
    exists i :: 0 <= i < |bookings| && bookings[i].bookingReference == reference
  }

  /** `generateBookingReference`. `year` is the current year, `count` the
      number of bookings created this year and `randomSuffix` the drawn
      fallback suffix. */
  function GenerateBookingReference(
    bookings: seq<Booking>, prefixEnv: Option<string>, year: nat, count: nat, randomSuffix: nat): (r: string)
    requires randomSuffix < 1000
    ensures var candidate := Candidate(ReferencePrefix(prefixEnv), year, count);
      && candidate <= r
      && (!ReferenceTaken(bookings, candidate) ==> r == candidate && !ReferenceTaken(bookings, r))
      && (ReferenceTaken(bookings, candidate) ==>
            && |r| == |candidate| + 4
            && r[|candidate|] == '-'
            && AllDigits(r[|candidate| + 1..])
            && DecimalValue(r[|candidate| + 1..]) == randomSuffix)
  {
    var candidate := Candidate(ReferencePrefix(prefixEnv), year, count);
    if ReferenceTaken(bookings, candidate) then
      var r := candidate + "-" + SuffixText(randomSuffix);
      assert r[|candidate| + 1..] == SuffixText(randomSuffix);
      r
    else
      candidate
  }

  /** The fields a reference is made of. */
  datatype ReferenceFields = ReferenceFields(year: nat, sequence: nat, suffix: Option<nat>)

  /** Reads a reference back, given the prefix it was made with: after
      "prefix-", two or three '-'-separated digit fields. */
  function ParseReference(prefix: string, r: string): Option<ReferenceFields> {
    var head := prefix + "-";
    if |r| < |head| || r[..|head|] != head then None
    else
      var parts := Split(r[|head|..], '-');
      if (|parts| == 2 || |parts| == 3) && forall k :: 0 <= k < |parts| ==> AllDigits(parts[k]) then
        Some(ReferenceFields(
          DecimalValue(parts[0]),
          DecimalValue(parts[1]),
          if |parts| == 3 then Some(DecimalValue(parts[2])) else None))
      else None
  }

  /** A prefix followed by '-'-joined digit fields reads back as those
      fields. */
  lemma ParseJoinedFields(prefix: string, parts: seq<string>)
    requires |parts| == 2 || |parts| == 3
    requires forall k :: 0 <= k < |parts| ==> AllDigits(parts[k])
    ensures ParseReference(prefix, prefix + "-" + Join(parts, '-')) == Some(ReferenceFields(
      DecimalValue(parts[0]),
      DecimalValue(parts[1]),
      if |parts| == 3 then Some(DecimalValue(parts[2])) else None))
  {
    var head := prefix + "-";
    var r := head + Join(parts, '-');
    forall k | 0 <= k < |parts| ensures '-' !in parts[k] {
      DigitsExclude(parts[k], '-');
    }
    SplitJoin(parts, '-');
    assert r[..|head|] == head;
    assert r[|head|..] == Join(parts, '-');
  }

  lemma JoinThree(a: string, b: string, c: string)
    ensures Join([a, b, c], '-') == a + "-" + b + "-" + c
  {
    assert [a, b, c][1..] == [b, c];
    JoinTwo(b, c);
    assert Join([a, b, c], '-') == a + "-" + (b + "-" + c);
  }

  lemma JoinTwo(a: string, b: string)
    ensures Join([a, b], '-') == a + "-" + b
  {
    assert [a, b][1..] == [b];
  }

  lemma ParseCandidate(prefix: string, year: nat, count: nat)
    ensures ParseReference(prefix, Candidate(prefix, year, count))
      == Some(ReferenceFields(year, count + 1, None))
  {
    var y := ToDecimal(year);
    var c := Counter(count);
    DecimalRoundTrip(year);
    JoinTwo(y, c);
    assert Candidate(prefix, year, count) == prefix + "-" + Join([y, c], '-');
    ParseJoinedFields(prefix, [y, c]);
  }

  lemma ParseSuffixedCandidate(prefix: string, year: nat, count: nat, randomSuffix: nat)
    requires randomSuffix < 1000
    ensures ParseReference(prefix, Candidate(prefix, year, count) + "-" + SuffixText(randomSuffix))
      == Some(ReferenceFields(year, count + 1, Some(randomSuffix)))
  {
    var y := ToDecimal(year);
    var c := Counter(count);
    var s := SuffixText(randomSuffix);
    DecimalRoundTrip(year);
    JoinThree(y, c, s);
    assert Candidate(prefix, year, count) + "-" + s == prefix + "-" + Join([y, c, s], '-');
    ParseJoinedFields(prefix, [y, c, s]);
  }

  /** Every generated reference reads back as the current year, the year's
      count plus one and, only when the candidate was taken, the drawn
      suffix. */
  lemma GeneratedReferenceParses(
    bookings: seq<Booking>, prefixEnv: Option<string>, year: nat, count: nat, randomSuffix: nat)
    requires randomSuffix < 1000
    ensures var prefix := ReferencePrefix(prefixEnv);
      var taken := ReferenceTaken(bookings, Candidate(prefix, year, count));
      ParseReference(prefix, GenerateBookingReference(bookings, prefixEnv, year, count, randomSuffix))
        == Some(ReferenceFields(year, count + 1, if taken then Some(randomSuffix) else None))
  {
    var prefix := ReferencePrefix(prefixEnv);
    if ReferenceTaken(bookings, Candidate(prefix, year, count)) {
      ParseSuffixedCandidate(prefix, year, count, randomSuffix);
    } else {
      ParseCandidate(prefix, year, count);
    }
  }

  /** Two different counts in the same year never give the same candidate,
      so the plain counter only collides when the count is stale. */
  lemma CandidatesDistinct(prefixEnv: Option<string>, year: nat, count1: nat, count2: nat)
    requires count1 != count2
    ensures Candidate(ReferencePrefix(prefixEnv), year, count1) != Candidate(ReferencePrefix(prefixEnv), year, count2)
  {
    ParseCandidate(ReferencePrefix(prefixEnv), year, count1);
    ParseCandidate(ReferencePrefix(prefixEnv), year, count2);
  }
}
