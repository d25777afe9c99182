/** The scheduling rules a new booking must satisfy: a lead time of one to
    ninety days counted from the start of today, a start hour within
    business hours (08:00 up to, not including, 18:00) and a start on the
    hour or the half hour. Checks run in that order; the first failure is
    the one reported. */
module Scheduling {
  import opened Results
  import opened Records

  const MinLeadDays := 1
  const MaxLeadDays := 90
  const OpeningHour := 8
  const ClosingHour := 18

  datatype ScheduleError =
    | TooSoon                // "Booking must be made at least 1 day in advance"
    | TooFar                 // "Bookings can only be made up to 90 days in advance"
    | OutsideBusinessHours   // "Bookings are only available between 8:00 AM and 6:00 PM"
    | NotOnHalfHour          // "Bookings must be scheduled on the hour or half-hour"

  /** `validateScheduling`: `date` and `today` are day numbers (`today` is
      the start of the current day); `hour` and `minute` are the two
      numbers the time string splits into. */
  function ValidateScheduling(date: int, today: int, hour: int, minute: int): (r: Outcome<ScheduleError>)
    ensures r == Pass <==>
      today + 1 <= date <= today + 90 && 8 <= hour < 18 && (minute == 0 || minute == 30)
    ensures r == Fail(TooSoon) <==> date < today + 1
    ensures r == Fail(TooFar) <==> today + 1 <= date && today + 90 < date
    ensures r == Fail(OutsideBusinessHours) <==>
      today + 1 <= date <= today + 90 && !(8 <= hour < 18)
    ensures r == Fail(NotOnHalfHour) <==>
      today + 1 <= date <= today + 90 && 8 <= hour < 18 && minute != 0 && minute != 30
  {
    if date < today + MinLeadDays then Fail(TooSoon)
    else if date > today + MaxLeadDays then Fail(TooFar)
    else if hour < OpeningHour || hour >= ClosingHour then Fail(OutsideBusinessHours)
    else if minute != 0 && minute != 30 then Fail(NotOnHalfHour)
    else Pass
  }

  /** The start times of a day, listed independently of the checks: every
      half hour from 08:00 to 17:30. */
  function BookableTimes(): (ts: seq<Clock>)
    ensures |ts| == 20
    ensures ts[0] == Clock(8, 0) && ts[19] == Clock(17, 30)
  {
    seq(20, i requires 0 <= i < 20 => Clock(8 + i / 2, (i % 2) * 30))
  }

  /** Every slot that can be booked today: the twenty start times of each
      of the ninety days from tomorrow on. */
  function BookableSlots(today: int): (ss: seq<Slot>)
    ensures |ss| == 90 * 20
  {
    seq(90 * 20, i requires 0 <= i < 90 * 20 => Slot(today + 1 + i / 20, BookableTimes()[i % 20]))
  }

  lemma BookableTimeIndex(hour: int, minute: int)
    requires 8 <= hour < 18 && (minute == 0 || minute == 30)
    ensures BookableTimes()[2 * (hour - 8) + minute / 30] == Clock(hour, minute)
  {
  }

  /** The checks accept a date and time exactly when that slot is one of
      the bookable slots. */
  lemma AcceptedIffBookable(date: int, today: int, hour: int, minute: int)
    ensures ValidateScheduling(date, today, hour, minute) == Pass <==>
      Slot(date, Clock(hour, minute)) in BookableSlots(today)
  {
    var ss := BookableSlots(today);
    var slot := Slot(date, Clock(hour, minute));
    if ValidateScheduling(date, today, hour, minute) == Pass {
      var t := 2 * (hour - 8) + minute / 30;
      BookableTimeIndex(hour, minute);
      var i := (date - today - 1) * 20 + t;
      assert 0 <= i < 90 * 20;
      assert i / 20 == date - today - 1 && i % 20 == t;
      assert ss[i] == slot;
    }
    if slot in ss {
      var i :| 0 <= i < |ss| && ss[i] == slot;
      var t := i % 20;
      assert BookableTimes()[t] == Clock(8 + t / 2, (t % 2) * 30);
    }
  }
}
