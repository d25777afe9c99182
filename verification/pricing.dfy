/** The room-based price calculator: a fixed rate table per cleaning type,
    and a price of bedrooms times the bedroom rate plus bathrooms times the
    bathroom rate. Amounts are whole currency units. */
module Pricing {

  datatype CleaningType = Regular | Deep | MoveOutMoveIn

  datatype PricingRates = PricingRates(bedroomRate: int, bathroomRate: int)

  datatype PriceCalculation = PriceCalculation(bedroomPrice: int, bathroomPrice: int, totalPrice: int)

  /** The `rates` table. */
  const Rates: map<CleaningType, PricingRates> := map[
    Regular := PricingRates(20, 15),
    Deep := PricingRates(22, 18),
    MoveOutMoveIn := PricingRates(25, 20)
  ]

  /** The table has a row for every cleaning type. */
  lemma RatesCoverEveryType(t: CleaningType)
    ensures t in Rates
  {
    match t {
      case Regular =>
      case Deep =>
      case MoveOutMoveIn =>
    }
  }

  /** `getRates`: the row of the rate table for a cleaning type. */
  function GetRates(t: CleaningType): (r: PricingRates)
    ensures t in Rates && r == Rates[t]
    ensures r.bedroomRate > 0 && r.bathroomRate > 0
  {
    RatesCoverEveryType(t);
    Rates[t]
  }

  /** `calculatePrice`. */
  function CalculatePrice(t: CleaningType, bedrooms: int, bathrooms: int): (p: PriceCalculation)
    ensures p.bedroomPrice == bedrooms * GetRates(t).bedroomRate
    ensures p.bathroomPrice == bathrooms * GetRates(t).bathroomRate
    ensures p.totalPrice == p.bedroomPrice + p.bathroomPrice
  {
    var rates := GetRates(t);
    var bedroomPrice := bedrooms * rates.bedroomRate;
    var bathroomPrice := bathrooms * rates.bathroomRate;
    PriceCalculation(bedroomPrice, bathroomPrice, bedroomPrice + bathroomPrice)
  }

  /** The rate table as the service lists it. */
  lemma RateTable()
    ensures GetRates(Regular) == PricingRates(20, 15)
    ensures GetRates(Deep) == PricingRates(22, 18)
    ensures GetRates(MoveOutMoveIn) == PricingRates(25, 20)
  {
  }

  /** A home to be cleaned, as the list of its rooms. */
  datatype Room = Bedroom | Bathroom

  function CountRooms(rooms: seq<Room>, kind: Room): (n: nat)
    ensures n <= |rooms|
    decreases |rooms|
  {
    if |rooms| == 0 then 0
    else (if rooms[0] == kind then 1 else 0) + CountRooms(rooms[1..], kind)
  }

  /** An independent reading of the price: bill each room at its rate and
      add up the bill. */
  function Bill(t: CleaningType, rooms: seq<Room>): int
    decreases |rooms|
  {
    if |rooms| == 0 then 0
    else
      var rate := if rooms[0] == Bedroom then GetRates(t).bedroomRate else GetRates(t).bathroomRate;
      rate + Bill(t, rooms[1..])
  }

  /** The calculated total is the room-by-room bill, whatever order the
      rooms are listed in. */
  lemma {:induction false} TotalIsRoomByRoomBill(t: CleaningType, rooms: seq<Room>)
    ensures CalculatePrice(t, CountRooms(rooms, Bedroom), CountRooms(rooms, Bathroom)).totalPrice == Bill(t, rooms)
    decreases |rooms|
  {
    if |rooms| > 0 {
      TotalIsRoomByRoomBill(t, rooms[1..]);
      var b := CountRooms(rooms[1..], Bedroom);
      var c := CountRooms(rooms[1..], Bathroom);
      var r := GetRates(t);
      if rooms[0] == Bedroom {
        assert (b + 1) * r.bedroomRate == b * r.bedroomRate + r.bedroomRate;
      } else {
        assert (c + 1) * r.bathroomRate == c * r.bathroomRate + r.bathroomRate;
      }
    }
  }

  /** Non-negative room counts give non-negative prices. */
  lemma PricesNonNegative(t: CleaningType, bedrooms: int, bathrooms: int)
    requires bedrooms >= 0 && bathrooms >= 0
    ensures CalculatePrice(t, bedrooms, bathrooms).bedroomPrice >= 0
    ensures CalculatePrice(t, bedrooms, bathrooms).bathroomPrice >= 0
    ensures CalculatePrice(t, bedrooms, bathrooms).totalPrice >= 0
  {
  }

  /** One more bedroom or bathroom raises the total by exactly that room's
      rate, so adding a room never lowers the price. */
  lemma AddingARoomAddsItsRate(t: CleaningType, bedrooms: int, bathrooms: int)
    ensures CalculatePrice(t, bedrooms + 1, bathrooms).totalPrice
         == CalculatePrice(t, bedrooms, bathrooms).totalPrice + GetRates(t).bedroomRate
    ensures CalculatePrice(t, bedrooms, bathrooms + 1).totalPrice
         == CalculatePrice(t, bedrooms, bathrooms).totalPrice + GetRates(t).bathroomRate
    ensures CalculatePrice(t, bedrooms, bathrooms).totalPrice < CalculatePrice(t, bedrooms + 1, bathrooms).totalPrice
    ensures CalculatePrice(t, bedrooms, bathrooms).totalPrice < CalculatePrice(t, bedrooms, bathrooms + 1).totalPrice
  {
  }

  /** For the same rooms, a deep clean costs at least a regular one and a
      move-out/move-in clean at least a deep one. */
  lemma TiersOrdered(bedrooms: int, bathrooms: int)
    requires bedrooms >= 0 && bathrooms >= 0
    ensures CalculatePrice(Regular, bedrooms, bathrooms).totalPrice <= CalculatePrice(Deep, bedrooms, bathrooms).totalPrice
    ensures CalculatePrice(Deep, bedrooms, bathrooms).totalPrice <= CalculatePrice(MoveOutMoveIn, bedrooms, bathrooms).totalPrice
  {
  }

  /** A regular clean of three bedrooms and two bathrooms: 60 + 30 = 90. */
  lemma RegularThreeBedTwoBath()
    ensures CalculatePrice(Regular, 3, 2) == PriceCalculation(60, 30, 90)
  {
  }
}
