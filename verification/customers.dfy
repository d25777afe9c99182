/** The customer and address rows `create` writes before its transaction:
    the customer is upserted by email (created when new, its contact
    fields overwritten when known), and a new address is added for it. */
module Customers {
  import opened Results
  import opened BookingDto

  datatype Customer = Customer(
    id: string,
    email: string,
    firstName: string,
    lastName: string,
    phone: string)

  datatype Address = Address(
    id: string,
    customerId: string,
    streetAddress: string,
    apartmentUnit: Option<string>,
    city: string,
    stateProvince: string,
    postalCode: string,
    country: string)

  /** The `customers` table keeps one row per email (the upsert key). */
  predicate EmailsUnique(customers: seq<Customer>) {
    forall i, j :: 0 <= i < j < |customers| ==> customers[i].email != customers[j].email
  }

  /** The position of the customer with `email`, if there is one. */
  function FindByEmail(customers: seq<Customer>, email: string): (r: Option<nat>)
    ensures r.Some? ==> r.value < |customers| && customers[r.value].email == email
    ensures r.None? ==> forall i :: 0 <= i < |customers| ==> customers[i].email != email
    decreases |customers|
  {
    if |customers| == 0 then None
    else if customers[|customers| - 1].email == email then Some(|customers| - 1)
    else FindByEmail(customers[..|customers| - 1], email)
  }

  /** `upsertCustomer`: updates the first name, last name and phone of the
      customer with the request's email, or adds a customer with id
      `freshId`; returns the table and the customer row written. The email
      is the table's unique upsert key. */
  function UpsertCustomer(customers: seq<Customer>, dto: CustomerDto, freshId: string): (r: (seq<Customer>, Customer))
    requires EmailsUnique(customers)
    ensures var (table, c) := r;
      && c.email == dto.email && c.firstName == dto.firstName
      && c.lastName == dto.lastName && c.phone == dto.phone
      && c in table
      && (|table| == |customers| || |table| == |customers| + 1)
      && (forall i :: 0 <= i < |customers| && customers[i].email != dto.email ==> table[i] == customers[i])
      && (forall i :: 0 <= i < |customers| && customers[i].email == dto.email ==>
            |table| == |customers| && table[i] == c && c.id == customers[i].id)
      && ((forall i :: 0 <= i < |customers| ==> customers[i].email != dto.email) ==>
            table == customers + [c] && c.id == freshId)
  {
    match FindByEmail(customers, dto.email)
    case Some(i) =>
      var c := Customer(customers[i].id, dto.email, dto.firstName, dto.lastName, dto.phone);
      assert customers[i := c][i] == c;
      (customers[i := c], c)
    case None =>
      var c := Customer(freshId, dto.email, dto.firstName, dto.lastName, dto.phone);
      (customers + [c], c)
  }

  /** Number of customers with a given email. */
  function CountEmail(customers: seq<Customer>, email: string): nat
    decreases |customers|
  {
    if |customers| == 0 then 0
    else (if customers[0].email == email then 1 else 0) + CountEmail(customers[1..], email)
  }

  lemma {:induction false} UniqueEmailCountsOnce(customers: seq<Customer>, k: nat)
    requires EmailsUnique(customers) && k < |customers|
    ensures CountEmail(customers, customers[k].email) == 1
    decreases |customers|
  {
    var rest := customers[1..];
    assert EmailsUnique(rest) by {
      forall i, j | 0 <= i < j < |rest| ensures rest[i].email != rest[j].email {
        assert rest[i] == customers[i + 1] && rest[j] == customers[j + 1];
      }
    }
    if k == 0 {
      forall j | 0 <= j < |rest| ensures rest[j].email != customers[0].email {
        assert rest[j] == customers[j + 1];
      }
      AbsentCountsZero(rest, customers[0].email);
    } else {
      assert rest[k - 1] == customers[k];
      UniqueEmailCountsOnce(rest, k - 1);
    }
  }

  lemma {:induction false} AbsentCountsZero(customers: seq<Customer>, email: string)
    requires forall i :: 0 <= i < |customers| ==> customers[i].email != email
    ensures CountEmail(customers, email) == 0
    decreases |customers|
  {
    if |customers| > 0 {
      AbsentCountsZero(customers[1..], email);
    }
  }

  /** After an upsert the table still has one row per email, and exactly
      one of them carries the request's email and contact fields. */
  lemma UpsertKeepsOneCustomerPerEmail(customers: seq<Customer>, dto: CustomerDto, freshId: string)
    requires EmailsUnique(customers)
    ensures var (table, c) := UpsertCustomer(customers, dto, freshId);
      && EmailsUnique(table)
      && CountEmail(table, dto.email) == 1
  {
    var (table, c) := UpsertCustomer(customers, dto, freshId);
    forall i, j | 0 <= i < j < |table| ensures table[i].email != table[j].email {
      if j == |customers| {
        assert table[j] == c;
        assert customers[i].email != dto.email;
      } else if customers[i].email == dto.email {
        assert customers[j].email != dto.email;
      } else if customers[j].email == dto.email {
      }
    }
    var k :| 0 <= k < |table| && table[k] == c;
    UniqueEmailCountsOnce(table, k);
  }

  /** Upserting the same customer twice leaves the table as the first
      upsert left it, and writes the same row. */
  lemma UpsertIdempotent(customers: seq<Customer>, dto: CustomerDto, freshId1: string, freshId2: string)
    requires EmailsUnique(customers)
    ensures var (table, c) := UpsertCustomer(customers, dto, freshId1);
      UpsertCustomer(table, dto, freshId2) == (table, c)
  {
    var (table, c) := UpsertCustomer(customers, dto, freshId1);
    UpsertKeepsOneCustomerPerEmail(customers, dto, freshId1);
    var k :| 0 <= k < |table| && table[k] == c;
    var (table2, c2) := UpsertCustomer(table, dto, freshId2);
    assert table[k].email == dto.email;
    assert c2.id == table[k].id;
    assert c2 == c;
    assert table2 == table[k := c];
    assert table[k := c] == table;
  }

  /** The stored country: the request's code when it gave a non-empty one,
      otherwise "US" (the request's default, and `country || 'US'`). */
  function StoredCountry(country: Option<string>): (c: string)
    ensures country.Some? && country.value != "" ==> c == country.value
    ensures country.None? || country.value == "" ==> c == "US"
    ensures ValidCountry(country) ==> IsCountryCode(c)
  {
    match country
    case Some(s) => if s != "" then s else "US"
    case None => "US"
  }

  /** `createAddress`: a new address row for the customer; an absent or
      empty apartment unit is stored as null. */
  function CreateAddress(customerId: string, dto: AddressDto, freshId: string): (a: Address)
    ensures a.customerId == customerId && a.id == freshId
    ensures a.streetAddress == dto.streetAddress && a.city == dto.city
    ensures a.stateProvince == dto.stateProvince && a.postalCode == dto.postalCode
    ensures a.apartmentUnit.None? <==> dto.apartmentUnit.None? || dto.apartmentUnit.value == ""
    ensures a.apartmentUnit.Some? ==> a.apartmentUnit == dto.apartmentUnit
    ensures a.country == StoredCountry(dto.country)
    ensures ValidAddress(dto) ==> IsCountryCode(a.country)
  {
    Address(freshId, customerId, dto.streetAddress, NullIfEmpty(dto.apartmentUnit), dto.city,
            dto.stateProvince, dto.postalCode, StoredCountry(dto.country))
  }
}
