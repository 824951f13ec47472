/**
  * The route catalogue: origin city -> destination city -> the ordered
  * offers on that route, the city list shown to the user, and the
  * read-only availability check.
  */
module Catalog {
  import opened Wrappers
  import opened Text

  /** One flight option; `price` is in whole currency units. */
  datatype Offer = Offer(airline: string, departure: string, price: int, duration: string)

  /** Origin -> destination -> offers, in the order they are listed. */
  type Routes = map<string, map<string, seq<Offer>>>

  /** The catalogue the assistant is created with. */
  const Flights: Routes := map[
    "New York" := map[
      "Los Angeles" := [
        Offer("SkyWings", "08:00", 299, "5h 30m"),
        Offer("AeroFly", "14:30", 329, "5h 45m"),
        Offer("CloudJet", "19:15", 279, "5h 20m")],
      "Miami" := [
        Offer("SunAir", "06:45", 189, "3h 15m"),
        Offer("TropicWings", "16:20", 209, "3h 05m")],
      "Chicago" := [
        Offer("WindyCity Express", "10:30", 159, "2h 45m"),
        Offer("GreatLakes Air", "18:45", 179, "2h 30m")]],
    "Los Angeles" := map[
      "New York" := [
        Offer("EastCoast Air", "07:00", 319, "5h 15m"),
        Offer("TransContinental", "12:45", 289, "5h 25m")],
      "Seattle" := [
        Offer("PacificWings", "09:15", 149, "2h 40m"),
        Offer("NorthWest Air", "15:30", 169, "2h 50m")]],
    "Miami" := map[
      "New York" := [
        Offer("Atlantic Express", "11:20", 199, "3h 10m"),
        Offer("Coastal Air", "17:40", 219, "3h 20m")]],
    "Chicago" := map[
      "New York" := [
        Offer("Midwest Express", "08:30", 169, "2h 35m"),
        Offer("Central Air", "14:15", 189, "2h 40m")]],
    "Seattle" := map[
      "Los Angeles" := [
        Offer("Coast to Coast", "13:00", 159, "2h 45m"),
        Offer("Western Wings", "20:30", 139, "2h 55m")]]
  ]

  /** The catalogue lists offers from `source` to `destination` (exact, case-sensitive keys). */
  predicate HasRoute(cat: Routes, source: string, destination: string) {
    source in cat && destination in cat[source]
  }

  /** Every city the catalogue names, as an origin or as a destination. */
  function CityNames(cat: Routes): set<string> {
    cat.Keys + (set o, d | o in cat.Keys && d in cat[o].Keys :: d)
  }

  /** `get_available_cities`: the catalogue's cities, sorted, each once. */
  function AvailableCities(cat: Routes): (r: seq<string>)
    ensures StrictlySorted(r)
    ensures forall c :: c in r <==> c in CityNames(cat)
  {
    SortedList(CityNames(cat))
  }

  /** `[c for c in cities if c != source]`. */
  function Others(cities: seq<string>, source: Option<string>): (r: seq<string>)
    ensures forall c :: c in r <==> c in cities && Some(c) != source
  {
    if cities == [] then []
    else (if Some(cities[0]) != source then [cities[0]] else []) + Others(cities[1..], source)
  }

  /** Leaving out a city that is not in the list leaves the list as it is. */
  lemma {:induction false} OthersWithout(cities: seq<string>, source: Option<string>)
    requires source.None? || source.value !in cities
    ensures Others(cities, source) == cities
  {
    if cities != [] {
      OthersWithout(cities[1..], source);
    }
  }

  /**
    * When `cities[i]` occurs only once, the destinations offered after
    * choosing it are all the other cities, in the same order.
    */
  lemma {:induction false} OthersRemovesOne(cities: seq<string>, i: nat)
    requires i < |cities| && cities[i] !in cities[..i] && cities[i] !in cities[i + 1..]
    ensures Others(cities, Some(cities[i])) == cities[..i] + cities[i + 1..]
  {
    var rest := cities[1..];
    OthersFirst(cities, Some(cities[i]));
    if i == 0 {
      OthersWithout(rest, Some(cities[0]));
      assert cities[..0] + cities[1..] == rest;
    } else {
      assert cities[0] == cities[..i][0];
      assert rest[i - 1] == cities[i];
      assert rest[..i - 1] == cities[1..i];
      assert rest[i..] == cities[i + 1..];
      OthersRemovesOne(rest, i - 1);
      assert cities[..i] == [cities[0]] + rest[..i - 1];
    }
  }

  lemma OthersFirst(cities: seq<string>, source: Option<string>)
    requires cities != []
    ensures Others(cities, source)
            == (if Some(cities[0]) != source then [cities[0]] else []) + Others(cities[1..], source)
  {
  }

  /** In a strictly sorted list every city occurs once. */
  lemma SortedOnce(cities: seq<string>, i: nat)
    requires StrictlySorted(cities) && i < |cities|
    ensures cities[i] !in cities[..i] && cities[i] !in cities[i + 1..]
  {
    LexIrreflexive(cities[i]);
    forall j | 0 <= j < |cities| && j != i ensures cities[j] != cities[i] {
      if j < i { assert LexLess(cities[j], cities[i]); } else { assert LexLess(cities[i], cities[j]); }
    }
  }

  /** An offer as the user sees it, numbered from 1. */
  datatype NumberedOffer = NumberedOffer(number: nat, offer: Offer)

  /** `enumerate(offers, 1)`. */
  function Numbered(offers: seq<Offer>): seq<NumberedOffer> {
    seq(|offers|, i requires 0 <= i < |offers| => NumberedOffer(i + 1, offers[i]))
  }

  /** What `check_flight_availability` answers. */
  datatype Availability =
    | SameCity
    | Listed(source: string, destination: string, options: seq<NumberedOffer>)
    | NoFlights(source: string, destination: string)

  /** `check_flight_availability(source, destination)`. */
  function CheckFlightAvailability(cat: Routes, source: string, destination: string): Availability {
    if Lower(source) == Lower(destination) then SameCity
    else if HasRoute(cat, source, destination) then
      Listed(source, destination, Numbered(cat[source][destination]))
    else NoFlights(source, destination)
  }

  /**
    * Equal cities (ignoring case) are refused before the catalogue is looked
    * at; otherwise the offers are listed exactly when the ordered pair is a
    * route, as the catalogue's offers in catalogue order, numbered from 1.
    */
  lemma {:induction false} AvailabilityMeaning(cat: Routes, source: string, destination: string)
    ensures CheckFlightAvailability(cat, source, destination).SameCity?
            <==> Lower(source) == Lower(destination)
    ensures CheckFlightAvailability(cat, source, destination).Listed?
            <==> Lower(source) != Lower(destination) && HasRoute(cat, source, destination)
    ensures CheckFlightAvailability(cat, source, destination).Listed? ==>
              var options := CheckFlightAvailability(cat, source, destination).options;
              var offers := cat[source][destination];
              |options| == |offers| &&
              forall i :: 0 <= i < |offers| ==> options[i].number == i + 1 && options[i].offer == offers[i]
  {
  }

  /** A city pair with a route in one direction only: the lookup is not symmetric. */
  lemma AvailabilityNotSymmetric()
    ensures var cat: Routes := map["Boston" := map["Denver" := [Offer("X", "09:00", 100, "4h")]]];
            CheckFlightAvailability(cat, "Boston", "Denver").Listed?
            && CheckFlightAvailability(cat, "Denver", "Boston").NoFlights?
  {
    var cat: Routes := map["Boston" := map["Denver" := [Offer("X", "09:00", 100, "4h")]]];
    assert Lower("Boston")[0] == 'b' && Lower("Denver")[0] == 'd';
  }

  /** The lookup is case-sensitive: a lower-case spelling of a route is not found. */
  lemma AvailabilityCaseSensitive()
    ensures CheckFlightAvailability(Flights, "Miami", "New York").Listed?
    ensures CheckFlightAvailability(Flights, "miami", "new york").NoFlights?
  {
    assert Lower("Miami")[0] == 'm' && Lower("New York")[0] == 'n';
    assert Lower("miami")[0] == 'm' && Lower("new york")[0] == 'n';
    assert "miami" !in Flights;
  }

  lemma SampleCityNames()
    ensures CityNames(Flights) == {"New York", "Los Angeles", "Miami", "Chicago", "Seattle"}
  {
    assert Flights.Keys == {"New York", "Los Angeles", "Miami", "Chicago", "Seattle"};
    forall o, d | o in Flights.Keys && d in Flights[o].Keys ensures d in Flights.Keys {
    }
  }

  lemma SampleOrder()
    ensures StrictlySorted(["Chicago", "Los Angeles", "Miami", "New York", "Seattle"])
  {
    var xs := ["Chicago", "Los Angeles", "Miami", "New York", "Seattle"];
    assert LexLess(xs[0], xs[1]) && LexLess(xs[1], xs[2]) && LexLess(xs[2], xs[3]) && LexLess(xs[3], xs[4]);
    LexTransitive(xs[0], xs[1], xs[2]);
    LexTransitive(xs[1], xs[2], xs[3]);
    LexTransitive(xs[2], xs[3], xs[4]);
    LexTransitive(xs[0], xs[2], xs[3]);
    LexTransitive(xs[1], xs[3], xs[4]);
    LexTransitive(xs[0], xs[3], xs[4]);
  }

  /** The sample catalogue's cities, in the order the assistant lists and scans them. */
  lemma SampleCities()
    ensures AvailableCities(Flights) == ["Chicago", "Los Angeles", "Miami", "New York", "Seattle"]
  {
    SampleCityNames();
    SampleOrder();
    SortedUnique(AvailableCities(Flights), ["Chicago", "Los Angeles", "Miami", "New York", "Seattle"]);
  }
}
