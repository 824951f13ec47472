/**
  * Concrete conversations with the sample catalogue, replayed through the
  * `Turn` specification: a booking of the first offer (SkyWings) on the
  * route of the help text's example, New York to Los Angeles; an unknown
  * city at the departure step; and "Chicago" at the departure step, which
  * the greeting test swallows although the catalogue has a New York to
  * Chicago route.
  *
  * Each message is passed in as a parameter equal to its literal text, and
  * every keyword test is discharged by a character the message lacks, so
  * the verifier never unfolds the string functions over a literal.
  */
module Scenarios {
  import opened Wrappers
  import opened Text
  import opened Catalog
  import opened Seats
  import opened Conversation
  import ConversationProperties
  import LedgerProperties

  lemma Absent(s: string, w: string, k: nat)
    requires k < |w| && w[k] !in s
    ensures !Contains(s, w)
  {
    ContainsAt(s, w);
  }

  lemma NoneOf(s: string, ws: seq<string>)
    requires forall w | w in ws :: !Contains(s, w)
    ensures !ContainsAny(s, ws)
  {
  }

  lemma ReadsAs(message: string, m: string)
    requires Unpadded(message) && Lower(message) == m
    ensures Normalize(message) == m
  {
    StripUnpadded(message);
  }

  // One lemma per keyword group of `process_message`: each keyword has a
  // character (at the given position) that the message lacks.

  lemma NoGreeting(s: string, a: nat, b: nat, c: nat, d: nat)
    requires a < 5 && b < 2 && c < 3 && d < 5
    requires "hello"[a] !in s && "hi"[b] !in s && "hey"[c] !in s && "start"[d] !in s
    ensures !ContainsAny(s, GreetingWords)
  {
    Absent(s, "hello", a); Absent(s, "hi", b); Absent(s, "hey", c); Absent(s, "start", d);
    NoneOf(s, GreetingWords);
  }

  lemma NoCheck(s: string, a: nat, b: nat, c: nat, d: nat)
    requires a < 5 && b < 12 && c < 7 && d < 6
    requires "check"[a] !in s && "availability"[b] !in s && "flights"[c] !in s && "search"[d] !in s
    ensures !ContainsAny(s, CheckWords)
  {
    Absent(s, "check", a); Absent(s, "availability", b); Absent(s, "flights", c); Absent(s, "search", d);
    NoneOf(s, CheckWords);
  }

  lemma NoBook(s: string, a: nat, b: nat, c: nat)
    requires a < 4 && b < 7 && c < 7
    requires "book"[a] !in s && "booking"[b] !in s && "reserve"[c] !in s
    ensures !ContainsAny(s, BookWords)
  {
    Absent(s, "book", a); Absent(s, "booking", b); Absent(s, "reserve", c);
    NoneOf(s, BookWords);
  }

  lemma NoReport(s: string, a: nat, b: nat)
    requires a < 6 && b < 7
    requires "report"[a] !in s && "summary"[b] !in s
    ensures !ContainsAny(s, ReportWords)
  {
    Absent(s, "report", a); Absent(s, "summary", b);
    NoneOf(s, ReportWords);
  }

  lemma NoHelp(s: string, a: nat, b: nat)
    requires a < 4 && b < 8
    requires "help"[a] !in s && "commands"[b] !in s
    ensures !ContainsAny(s, HelpWords)
  {
    Absent(s, "help", a); Absent(s, "commands", b);
    NoneOf(s, HelpWords);
  }

  lemma NoReset(s: string, a: nat, b: nat, c: nat)
    requires a < 5 && b < 10 && c < 6
    requires "reset"[a] !in s && "start over"[b] !in s && "cancel"[c] !in s
    ensures !ContainsAny(s, ResetWords)
  {
    Absent(s, "reset", a); Absent(s, "start over", b); Absent(s, "cancel", c);
    NoneOf(s, ResetWords);
  }

  // ---------------------------------------------------------------------
  // The messages of the sample conversation, normalised and classified
  // ---------------------------------------------------------------------

  lemma BookNormal() ensures Normalize("book") == "book" { ReadsAs("book", "book"); }
  lemma NewYorkNormal() ensures Normalize("New York") == "new york" { ReadsAs("New York", "new york"); }
  lemma LosAngelesNormal() ensures Normalize("Los Angeles") == "los angeles" { ReadsAs("Los Angeles", "los angeles"); }
  lemma AtlantisNormal() ensures Normalize("Atlantis") == "atlantis" { ReadsAs("Atlantis", "atlantis"); }
  lemma DetailsNormal()
    ensures Normalize("Name: Ann Lee, Age: 29") == "name: ann lee, age: 29"
  {
    ReadsAs("Name: Ann Lee, Age: 29", "name: ann lee, age: 29");
  }

  lemma BookIntent()
    ensures Classify("book") == BookFlight
  {
    var s := "book";
    NoGreeting(s, 0, 0, 0, 0);
    NoCheck(s, 0, 0, 0, 0);
    assert StartsWith(s, BookWords[0]);
  }

  lemma NewYorkIntent()
    ensures Classify("new york") == Unmatched
  {
    var s := "new york";
    NoGreeting(s, 0, 0, 0, 0);
    NoCheck(s, 0, 0, 0, 0);
    NoBook(s, 0, 0, 2);
    NoReport(s, 2, 0);
    NoHelp(s, 0, 0);
    NoReset(s, 2, 0, 0);
  }

  lemma LosAngelesIntent()
    ensures Classify("los angeles") == Unmatched
  {
    var s := "los angeles";
    NoGreeting(s, 0, 0, 0, 1);
    NoCheck(s, 0, 1, 0, 3);
    NoBook(s, 0, 0, 0);
    NoReport(s, 0, 1);
    NoHelp(s, 0, 0);
    NoReset(s, 0, 1, 0);
  }

  lemma AtlantisIntent()
    ensures Classify("atlantis") == Unmatched
  {
    var s := "atlantis";
    NoGreeting(s, 0, 0, 0, 3);
    NoCheck(s, 0, 1, 0, 1);
    NoBook(s, 0, 0, 0);
    NoReport(s, 0, 1);
    NoHelp(s, 0, 0);
    NoReset(s, 0, 3, 0);
  }

  lemma DetailsIntent()
    ensures Classify("name: ann lee, age: 29") == Unmatched
  {
    var s := "name: ann lee, age: 29";
    DetailsNoEarlyKeyword(s);
    DetailsNoLateKeyword(s);
  }

  lemma DetailsNoEarlyKeyword(s: string)
    requires s == "name: ann lee, age: 29"
    ensures !ContainsAny(s, GreetingWords) && !ContainsAny(s, CheckWords) && !ContainsAny(s, BookWords)
  {
    R1(s); R2(s); R3(s);
  }
  lemma R1(s: string)
    requires s == "name: ann lee, age: 29"
    ensures !ContainsAny(s, GreetingWords)
  {
    NoGreeting(s, 0, 0, 0, 0);
  }
  lemma R2(s: string)
    requires s == "name: ann lee, age: 29"
    ensures !ContainsAny(s, CheckWords)
  {
    NoCheck(s, 0, 1, 0, 0);
  }
  lemma R3(s: string)
    requires s == "name: ann lee, age: 29"
    ensures !ContainsAny(s, BookWords)
  {
    NoBook(s, 0, 0, 0);
  }

  lemma DetailsNoLateKeyword(s: string)
    requires s == "name: ann lee, age: 29"
    ensures !ContainsAny(s, ReportWords) && !ContainsAny(s, HelpWords) && !ContainsAny(s, ResetWords)
  {
    NoReport(s, 0, 0);
    NoHelp(s, 0, 0);
    NoReset(s, 0, 0, 0);
  }

  // ---------------------------------------------------------------------
  // The city scan on the sample messages
  // ---------------------------------------------------------------------

  const SampleList: seq<string> := ["Chicago", "Los Angeles", "Miami", "New York", "Seattle"]

  /** The first city of `cities` the message mentions is `cities[i]`. */
  lemma FirstMentioned(cities: seq<string>, m: string, i: nat)
    requires i < |cities| && Mentions(m, cities[i])
    requires forall c | c in cities[..i] :: !Mentions(m, c)
    ensures FirstCity(cities, m) == Some(cities[i])
  {
    var r := FirstCityIndex(cities, m);
  }

  lemma NoCityMentioned(cities: seq<string>, m: string)
    requires forall c | c in cities :: !Mentions(m, c)
    ensures FirstCity(cities, m) == None
  {
  }

  /** A lower-case message lacking some letter of a city's name does not mention it. */
  lemma NotMentioned(m: string, city: string, k: nat)
    requires NoUpper(m) && k < |city| && LowerChar(city[k]) !in m
    ensures !Mentions(m, city)
  {
    ConversationProperties.LowerOfNoUpper(m);
    Absent(m, Lower(city), k);
  }

  /** A message that is the city's name in lower case mentions it. */
  lemma Mentioned(m: string, city: string)
    requires NoUpper(m) && Lower(city) == m
    ensures Mentions(m, city)
  {
    ConversationProperties.LowerOfNoUpper(m);
    assert StartsWith(m, m);
  }

  lemma NewYorkPicked(m: string, cities: seq<string>)
    requires m == "new york" && cities == SampleList
    ensures FirstCity(cities, m) == Some("New York")
  {
    NotMentioned(m, "Chicago", 0);
    NotMentioned(m, "Los Angeles", 0);
    NotMentioned(m, "Miami", 0);
    Mentioned(m, "New York");
    assert cities[..3] == ["Chicago", "Los Angeles", "Miami"];
    FirstMentioned(cities, m, 3);
  }

  lemma LosAngelesPicked(m: string, cities: seq<string>)
    requires m == "los angeles" && cities == SampleList
    ensures FirstCity(cities, m) == Some("Los Angeles")
  {
    NotMentioned(m, "Chicago", 0);
    Mentioned(m, "Los Angeles");
    assert cities[..1] == ["Chicago"];
    FirstMentioned(cities, m, 1);
  }

  lemma AtlantisNotACity(m: string, cities: seq<string>)
    requires m == "atlantis" && cities == SampleList
    ensures FirstCity(cities, m) == None
  {
    NotMentioned(m, "Chicago", 0);
    NotMentioned(m, "Los Angeles", 1);
    NotMentioned(m, "Miami", 0);
    NotMentioned(m, "New York", 1);
    NotMentioned(m, "Seattle", 1);
    NoCityMentioned(cities, m);
  }

  // ---------------------------------------------------------------------
  // One turn at a time
  // ---------------------------------------------------------------------

  const SkyWings: Offer := Offer("SkyWings", "08:00", 299, "5h 30m")

  /** The offers from New York to Los Angeles, in catalogue order. */
  const NewYorkLosAngeles: seq<Offer> := [
    SkyWings, Offer("AeroFly", "14:30", 329, "5h 45m"), Offer("CloudJet", "19:15", 279, "5h 20m")]

  const SkyWingsKey: string := "New York-Los Angeles-SkyWings"

  lemma TurnBook(st: State, message: string, seat: string)
    requires message == "book"
    requires SessionOk(Flights, st.session) && st.session.step == Start
    ensures Turn(Flights, st, message, seat) == (st.(session := EmptySession.(step := GetSource)), AskSource(SampleList))
  {
    BookNormal();
    BookIntent();
    ConversationProperties.StartOfBooking(Flights, st, message, seat);
    SampleCities();
  }

  /** A message with no keyword, inside a booking, goes to the current step. */
  lemma Delegated(st: State, message: string, m: string, seat: string)
    requires SessionOk(Flights, st.session) && st.session.step != Start
    requires Normalize(message) == m && Classify(m) == Unmatched
    ensures Turn(Flights, st, message, seat) == Flow(Flights, st, m, seat)
  {
    ConversationProperties.TurnDelegates(Flights, st, message, seat);
  }

  lemma TurnNewYork(st: State, message: string, seat: string)
    requires message == "New York"
    requires SessionOk(Flights, st.session) && st.session == EmptySession.(step := GetSource)
    ensures Turn(Flights, st, message, seat)
            == (st.(session := EmptySession.(source := Some("New York"), step := GetDestination)),
                SourceChosen("New York", ["Chicago", "Los Angeles", "Miami", "Seattle"]))
  {
    var m := "new york";
    SourceNewYork(st, m, seat);
    NewYorkNormal();
    NewYorkIntent();
    Delegated(st, message, m, seat);
  }

  lemma SourceNewYork(st: State, m: string, seat: string)
    requires m == "new york"
    requires SessionOk(Flights, st.session) && st.session == EmptySession.(step := GetSource)
    ensures Flow(Flights, st, m, seat)
            == (st.(session := EmptySession.(source := Some("New York"), step := GetDestination)),
                SourceChosen("New York", ["Chicago", "Los Angeles", "Miami", "Seattle"]))
  {
    SampleCities();
    NewYorkPicked(m, SampleList);
    OthersThanNewYork(SampleList);
    ConversationProperties.SourceFlow(Flights, st, m, seat, Some("New York"));
  }

  lemma OthersThanNewYork(cities: seq<string>)
    requires cities == SampleList
    ensures Others(cities, Some("New York")) == ["Chicago", "Los Angeles", "Miami", "Seattle"]
  {
    SampleOrder();
    SortedOnce(cities, 3);
    OthersRemovesOne(cities, 3);
    WithoutFourth(cities);
  }

  lemma WithoutFourth(xs: seq<string>)
    requires |xs| == 5
    ensures xs[..3] + xs[4..] == [xs[0], xs[1], xs[2], xs[4]]
  {
  }

  lemma TurnLosAngeles(st: State, message: string, seat: string)
    requires message == "Los Angeles"
    requires SessionOk(Flights, st.session)
    requires st.session == EmptySession.(source := Some("New York"), step := GetDestination)
    ensures Turn(Flights, st, message, seat)
            == (st.(session := EmptySession.(source := Some("New York"), destination := Some("Los Angeles"),
                                             step := SelectFlight)),
                FlightsListed("New York", "Los Angeles", Numbered(NewYorkLosAngeles)))
  {
    var m := "los angeles";
    DestinationLosAngeles(st, m, seat);
    LosAngelesNormal();
    LosAngelesIntent();
    Delegated(st, message, m, seat);
  }

  lemma DestinationLosAngeles(st: State, m: string, seat: string)
    requires m == "los angeles"
    requires SessionOk(Flights, st.session)
    requires st.session == EmptySession.(source := Some("New York"), step := GetDestination)
    ensures Flow(Flights, st, m, seat)
            == (st.(session := EmptySession.(source := Some("New York"), destination := Some("Los Angeles"),
                                             step := SelectFlight)),
                FlightsListed("New York", "Los Angeles", Numbered(NewYorkLosAngeles)))
  {
    SampleCities();
    LosAngelesPicked(m, SampleList);
    NewYorkToLosAngeles();
    ConversationProperties.DestinationFlow(Flights, st, m, seat, Some("Los Angeles"));
  }

  lemma NewYorkToLosAngeles()
    ensures HasRoute(Flights, "New York", "Los Angeles")
    ensures Flights["New York"]["Los Angeles"] == NewYorkLosAngeles
  {
  }

  lemma TurnAtlantis(st: State, message: string, seat: string)
    requires message == "Atlantis"
    requires SessionOk(Flights, st.session) && st.session == EmptySession.(step := GetSource)
    ensures Turn(Flights, st, message, seat) == (st, InvalidSource(SampleList))
  {
    var m := "atlantis";
    SourceAtlantis(st, m, seat);
    AtlantisNormal();
    AtlantisIntent();
    Delegated(st, message, m, seat);
  }

  lemma SourceAtlantis(st: State, m: string, seat: string)
    requires m == "atlantis"
    requires SessionOk(Flights, st.session) && st.session.step == GetSource
    ensures Flow(Flights, st, m, seat) == (st, InvalidSource(SampleList))
  {
    SampleCities();
    AtlantisNotACity(m, SampleList);
    ConversationProperties.SourceFlow(Flights, st, m, seat, None);
  }

  lemma TurnOne(st: State, message: string, seat: string)
    requires message == "1"
    requires SessionOk(Flights, st.session)
    requires st.session == EmptySession.(source := Some("New York"), destination := Some("Los Angeles"),
                                         step := SelectFlight)
    ensures Turn(Flights, st, message, seat)
            == (st.(session := st.session.(selectedFlight := Some(SkyWings), step := GetPassengerDetails)),
                FlightSelected(SkyWings))
  {
    NewYorkToLosAngeles();
    assert Decimal(1) == "1";
    ConversationProperties.DisplayedNumberSelectsOffer(Flights, st, 1, seat);
  }

  /** The booking the sample conversation produces, numbered `n`, on seat `seat`. */
  function AnnLee(n: nat, seat: string): Booking {
    Booking(BookingNumber(n), "ann lee", 29, "New York", "Los Angeles", "SkyWings", "08:00", "5h 30m", 299, seat)
  }

  lemma AnnLeeDetails(m: string)
    requires m == "name: ann lee, age: 29"
    ensures ReadPassenger(m) == Passenger("ann lee", 29)
  {
    assert Decimal(29) == "29";
    assert m == "name: " + "ann lee" + ", age: " + Decimal(29);
    assert Unpadded("ann lee");
    ConversationProperties.ReadPassengerRoundTrip("ann lee", 29);
  }

  lemma SkyWingsKeyIs()
    ensures FlightKey("New York", "Los Angeles", SkyWings.airline) == SkyWingsKey
  {
  }

  /** The session of the sample conversation once the passenger's details are read. */
  const AnnLeeSession: Session :=
    Session(Some("New York"), Some("Los Angeles"), Some(SkyWings), Some("ann lee"), Some(29), GetPassengerDetails)

  lemma CompleteAnnLee(st: State, seat: string)
    requires LedgerOk(Flights, st) && st.session == AnnLeeSession
    requires |Issued(st.seats, SkyWingsKey)| < Capacity
    ensures Complete(st, seat)
            == (State(EmptySession, st.counter + 1,
                      st.seats[SkyWingsKey := Issued(st.seats, SkyWingsKey) + [seat]],
                      st.bookings + [AnnLee(st.counter, seat)]),
                Confirmed(AnnLee(st.counter, seat)))
  {
    SkyWingsKeyIs();
    ConversationProperties.FlightFullExactlyWhenSoldOut(Flights, st, seat);
  }

  lemma DetailsFlow(st: State, message: string, seat: string)
    requires SessionOk(Flights, st.session)
    requires st.session == AnnLeeSession.(passengerName := None, passengerAge := None)
    requires message == "Name: Ann Lee, Age: 29"
    ensures Turn(Flights, st, message, seat) == Complete(st.(session := AnnLeeSession), seat)
  {
    var m := "name: ann lee, age: 29";
    DetailsAnnLee(st, m, seat);
    DetailsNormal();
    DetailsIntent();
    Delegated(st, message, m, seat);
  }

  lemma DetailsAnnLee(st: State, m: string, seat: string)
    requires m == "name: ann lee, age: 29"
    requires SessionOk(Flights, st.session)
    requires st.session == AnnLeeSession.(passengerName := None, passengerAge := None)
    ensures Flow(Flights, st, m, seat) == Complete(st.(session := AnnLeeSession), seat)
  {
    AnnLeeDetails(m);
    ConversationProperties.DetailsStepBooks(Flights, st, m, seat, "ann lee", 29);
    assert st.session.(passengerName := Some("ann lee"), passengerAge := Some(29)) == AnnLeeSession;
  }

  lemma CompleteAfterDetails(st: State, seat: string)
    requires LedgerOk(Flights, st)
    requires st.session == AnnLeeSession.(passengerName := None, passengerAge := None)
    requires |Issued(st.seats, SkyWingsKey)| < Capacity
    ensures Complete(st.(session := AnnLeeSession), seat)
            == (State(EmptySession, st.counter + 1,
                      st.seats[SkyWingsKey := Issued(st.seats, SkyWingsKey) + [seat]],
                      st.bookings + [AnnLee(st.counter, seat)]),
                Confirmed(AnnLee(st.counter, seat)))
  {
    LedgerProperties.LedgerIgnoresSession(Flights, st, AnnLeeSession);
    CompleteAnnLee(st.(session := AnnLeeSession), seat);
  }

  lemma TurnDetails(st: State, message: string, seat: string)
    requires LedgerOk(Flights, st) && SessionOk(Flights, st.session)
    requires st.session == AnnLeeSession.(passengerName := None, passengerAge := None)
    requires |Issued(st.seats, SkyWingsKey)| < Capacity
    requires message == "Name: Ann Lee, Age: 29"
    ensures Turn(Flights, st, message, seat)
            == (State(EmptySession, st.counter + 1,
                      st.seats[SkyWingsKey := Issued(st.seats, SkyWingsKey) + [seat]],
                      st.bookings + [AnnLee(st.counter, seat)]),
                Confirmed(AnnLee(st.counter, seat)))
  {
    DetailsFlow(st, message, seat);
    CompleteAfterDetails(st, seat);
  }

  // ---------------------------------------------------------------------
  // Whole conversations
  // ---------------------------------------------------------------------

  const SampleMessages: seq<string> := ["book", "New York", "Los Angeles", "1", "Name: Ann Lee, Age: 29"]

  lemma SessionsOk(st1: State, st2: State, st3: State, st4: State)
    requires st1.session == EmptySession.(step := GetSource)
    requires st2.session == EmptySession.(source := Some("New York"), step := GetDestination)
    requires st3.session == EmptySession.(source := Some("New York"), destination := Some("Los Angeles"),
                                          step := SelectFlight)
    requires st4.session == AnnLeeSession.(passengerName := None, passengerAge := None)
    ensures SessionOk(Flights, st1.session) && SessionOk(Flights, st2.session)
    ensures SessionOk(Flights, st3.session) && SessionOk(Flights, st4.session)
  {
    SampleCityNames();
    NewYorkToLosAngeles();
  }

  lemma Messages(m0: string, m1: string, m2: string, m3: string, m4: string)
    requires [m0, m1, m2, m3, m4] == SampleMessages
    ensures m0 == "book" && m1 == "New York" && m2 == "Los Angeles" && m3 == "1"
    ensures m4 == "Name: Ann Lee, Age: 29"
  {
    assert [m0, m1, m2, m3, m4][4] == m4;
  }

  /** The first four turns of the sample conversation, each moving the booking one step. */
  lemma SampleSteps(st0: State, st1: State, st2: State, st3: State, st4: State,
                    m0: string, m1: string, m2: string, m3: string, seat: string)
    requires SessionOk(Flights, st0.session) && st0.session.step == Start
    requires m0 == "book" && m1 == "New York" && m2 == "Los Angeles" && m3 == "1"
    requires st1 == st0.(session := EmptySession.(step := GetSource))
    requires st2 == st0.(session := EmptySession.(source := Some("New York"), step := GetDestination))
    requires st3 == st0.(session := EmptySession.(source := Some("New York"), destination := Some("Los Angeles"),
                                                  step := SelectFlight))
    requires st4 == st0.(session := AnnLeeSession.(passengerName := None, passengerAge := None))
    ensures SessionOk(Flights, st1.session) && SessionOk(Flights, st2.session)
    ensures SessionOk(Flights, st3.session) && SessionOk(Flights, st4.session)
    ensures Turn(Flights, st0, m0, seat) == (st1, AskSource(SampleList))
    ensures Turn(Flights, st1, m1, seat)
            == (st2, SourceChosen("New York", ["Chicago", "Los Angeles", "Miami", "Seattle"]))
    ensures Turn(Flights, st2, m2, seat)
            == (st3, FlightsListed("New York", "Los Angeles", Numbered(NewYorkLosAngeles)))
    ensures Turn(Flights, st3, m3, seat) == (st4, FlightSelected(SkyWings))
  {
    SessionsOk(st1, st2, st3, st4);
    TurnBook(st0, m0, seat);
    TurnNewYork(st1, m1, seat);
    TurnLosAngeles(st2, m2, seat);
    TurnOne(st3, m3, seat);
  }

  /** The last turn of the sample conversation books the flight. */
  lemma SampleConfirms(st0: State, st4: State, m4: string, seat: string)
    requires LedgerOk(Flights, st0)
    requires st4 == st0.(session := AnnLeeSession.(passengerName := None, passengerAge := None))
    requires SessionOk(Flights, st4.session)
    requires |Issued(st4.seats, SkyWingsKey)| < Capacity
    requires m4 == "Name: Ann Lee, Age: 29"
    ensures Turn(Flights, st4, m4, seat)
            == (State(EmptySession, st4.counter + 1,
                      st4.seats[SkyWingsKey := Issued(st4.seats, SkyWingsKey) + [seat]],
                      st4.bookings + [AnnLee(st4.counter, seat)]),
                Confirmed(AnnLee(st4.counter, seat)))
  {
    LedgerProperties.LedgerIgnoresSession(Flights, st0, st4.session);
    TurnDetails(st4, m4, seat);
  }

  /**
    * "book", "New York", "Los Angeles", "1", "Name: Ann Lee, Age: 29",
    * from any consistent state between bookings: each turn moves one step
    * (through the states `st1` .. `st4`), and the last one confirms a
    * SkyWings booking for "ann lee" (lower-cased), aged 29, numbered with
    * the counter, on the drawn seat, appends it to the ledger, records the
    * seat under the flight key and starts the session over.
    */
  lemma SampleBooking(st0: State, st1: State, st2: State, st3: State, st4: State,
                      m0: string, m1: string, m2: string, m3: string, m4: string, seat: string)
    requires Consistent(Flights, st0) && st0.session.step == Start
    requires |Issued(st0.seats, SkyWingsKey)| < Capacity
    requires [m0, m1, m2, m3, m4] == SampleMessages
    requires st1 == st0.(session := EmptySession.(step := GetSource))
    requires st2 == st0.(session := EmptySession.(source := Some("New York"), step := GetDestination))
    requires st3 == st0.(session := EmptySession.(source := Some("New York"), destination := Some("Los Angeles"),
                                                  step := SelectFlight))
    requires st4 == st0.(session := AnnLeeSession.(passengerName := None, passengerAge := None))
    ensures SessionOk(Flights, st1.session) && SessionOk(Flights, st2.session)
    ensures SessionOk(Flights, st3.session) && SessionOk(Flights, st4.session)
    ensures Turn(Flights, st0, m0, seat) == (st1, AskSource(SampleList))
    ensures Turn(Flights, st1, m1, seat)
            == (st2, SourceChosen("New York", ["Chicago", "Los Angeles", "Miami", "Seattle"]))
    ensures Turn(Flights, st2, m2, seat)
            == (st3, FlightsListed("New York", "Los Angeles", Numbered(NewYorkLosAngeles)))
    ensures Turn(Flights, st3, m3, seat) == (st4, FlightSelected(SkyWings))
    ensures Turn(Flights, st4, m4, seat)
            == (State(EmptySession, st4.counter + 1,
                      st4.seats[SkyWingsKey := Issued(st4.seats, SkyWingsKey) + [seat]],
                      st4.bookings + [AnnLee(st4.counter, seat)]),
                Confirmed(AnnLee(st4.counter, seat)))
  {
    Messages(m0, m1, m2, m3, m4);
    SampleSteps(st0, st1, st2, st3, st4, m0, m1, m2, m3, seat);
    SampleConfirms(st0, st4, m4, seat);
  }

  /** The booking numbers printed from the first two counter values. */
  lemma FirstNumbers()
    ensures BookingNumber(1000) == "FL1000" && BookingNumber(1001) == "FL1001"
  {
    assert Decimal(1000) == "1000" && Decimal(1001) == "1001";
  }

  lemma FirstConfirmation(st0: State, st4: State, message: string, seat: string)
    requires st0 == InitialState
    requires st4 == st0.(session := AnnLeeSession.(passengerName := None, passengerAge := None))
    requires SessionOk(Flights, st4.session)
    requires message == "Name: Ann Lee, Age: 29"
    ensures Turn(Flights, st4, message, seat)
            == (State(EmptySession, 1001, map[SkyWingsKey := [seat]], [AnnLee(1000, seat)]),
                Confirmed(AnnLee(1000, seat)))
  {
    LedgerProperties.InitialConsistent(Flights);
    FirstSeat(st4.seats, SkyWingsKey, seat);
    var b := AnnLee(st4.counter, seat);
    assert st4.bookings + [b] == [b];
    SampleConfirms(st0, st4, message, seat);
  }

  lemma FirstSeat(seats: map<string, seq<string>>, key: string, seat: string)
    requires seats == map[]
    ensures |Issued(seats, key)| == 0
    ensures seats[key := Issued(seats, key) + [seat]] == map[key := [seat]]
  {
    assert Issued(seats, key) + [seat] == [seat];
  }

  /**
    * The first booking of a fresh assistant is "FL1000": the sample
    * conversation, run from the initial state, leaves one booking on the
    * ledger, the drawn seat as the only seat issued for its flight, a
    * counter of 1001 (so the next booking is "FL1001") and a consistent
    * state.
    */
  lemma FirstBookingOfTheDay(st4: State, message: string, seat: string)
    requires st4 == InitialState.(session := AnnLeeSession.(passengerName := None, passengerAge := None))
    requires message == "Name: Ann Lee, Age: 29"
    requires IsSeatCode(seat)
    ensures SessionOk(Flights, st4.session)
    ensures Turn(Flights, st4, message, seat)
            == (State(EmptySession, 1001, map[SkyWingsKey := [seat]], [AnnLee(1000, seat)]),
                Confirmed(AnnLee(1000, seat)))
    ensures AnnLee(1000, seat).bookingNumber == "FL1000" && BookingNumber(1001) == "FL1001"
    ensures Consistent(Flights, Turn(Flights, st4, message, seat).0)
  {
    SessionsOk(st4.(session := EmptySession.(step := GetSource)),
               st4.(session := EmptySession.(source := Some("New York"), step := GetDestination)),
               st4.(session := EmptySession.(source := Some("New York"), destination := Some("Los Angeles"),
                                             step := SelectFlight)),
               st4);
    FirstConfirmation(InitialState, st4, message, seat);
    FirstNumbers();
    SkyWingsKeyIs();
    LedgerProperties.InitialConsistent(Flights);
    LedgerProperties.LedgerIgnoresSession(Flights, InitialState, st4.session);
    LedgerProperties.TurnKeepsConsistent(Flights, st4, message, seat);
  }

  /** "Chicago" as a reply to "Where are you flying from?" greets the user and starts over. */
  lemma TurnChicago(st: State, message: string, seat: string)
    requires message == "Chicago"
    requires SessionOk(Flights, st.session)
    ensures Turn(Flights, st, message, seat) == (st.(session := EmptySession), Welcome(SampleList))
  {
    ReadsAs(message, "chicago");
    assert StartsWith("chicago", "chicago");
    ConversationProperties.ChicagoIsAGreeting("chicago");
    ConversationProperties.ResetCommandsClearSession(Flights, st, message, seat);
    SampleCities();
  }
}
