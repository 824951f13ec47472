/**
  * The booking conversation as a pure transition function: one assistant
  * state, one raw input line and the seat the random draw settles on give
  * the next state and a tagged reply. The class in module Assistant is
  * proved to follow it.
  */
module Conversation {
  import opened Wrappers
  import opened Text
  import opened Catalog
  import opened Seats

  // ---------------------------------------------------------------------
  // State
  // ---------------------------------------------------------------------

  datatype Step = Start | GetSource | GetDestination | SelectFlight | GetPassengerDetails

  /** `current_session`; `None` fields are the dictionary's `None` values. */
  datatype Session = Session(
    source: Option<string>,
    destination: Option<string>,
    selectedFlight: Option<Offer>,
    passengerName: Option<string>,
    passengerAge: Option<int>,
    step: Step)

  /** The session `reset_session` installs. */
  const EmptySession: Session := Session(None, None, None, None, None, Start)

  /** One entry of `bookings` (the booking date is not modelled). */
  datatype Booking = Booking(
    bookingNumber: string,
    passengerName: string,
    passengerAge: int,
    source: string,
    destination: string,
    airline: string,
    departureTime: string,
    duration: string,
    price: int,
    seatNumber: string)

  /** Everything the assistant changes: session, counter, issued seats per flight key, ledger. */
  datatype State = State(
    session: Session,
    counter: nat,
    seats: map<string, seq<string>>,
    bookings: seq<Booking>)

  const FirstBookingNumber: nat := 1000

  const InitialState: State := State(EmptySession, FirstBookingNumber, map[], [])

  /** The assistant's answers, one tag per kind of response text. */
  datatype Reply =
    | Welcome(cities: seq<string>)
    | CheckUsage(cities: seq<string>)
    | RouteCheck(result: Availability)
    | AskSource(cities: seq<string>)
    | SummaryReport
    | HelpText
    | SessionReset
    | NotUnderstood
    | SourceChosen(source: string, destinations: seq<string>)
    | InvalidSource(cities: seq<string>)
    | SameAsSource
    | FlightsListed(source: string, destination: string, options: seq<NumberedOffer>)
    | NoRoute(shownSource: Option<string>, destination: string)
    | InvalidDestination(destinations: seq<string>)
    | FlightSelected(offer: Offer)
    | InvalidOption(count: nat)
    | NotAnOption
    | DetailsFormat
    | AgeNotNumber
    | AgeOutOfRange
    | Confirmed(booking: Booking)
    | FlightFull
    | StepNotUnderstood
    | EmptyMessage

  // ---------------------------------------------------------------------
  // Reading the message
  // ---------------------------------------------------------------------

  const GreetingWords: seq<string> := ["hello", "hi", "hey", "start"]
  const CheckWords: seq<string> := ["check", "availability", "flights", "search"]
  const BookWords: seq<string> := ["book", "booking", "reserve"]
  const ReportWords: seq<string> := ["report", "summary"]
  const HelpWords: seq<string> := ["help", "commands"]
  const ResetWords: seq<string> := ["reset", "start over", "cancel"]

  datatype Intent = Greet | CheckRoute | BookFlight | ShowReport | ShowHelp | ResetRequest | Unmatched

  /** `message.strip().lower()`. */
  function Normalize(message: string): string {
    Lower(Strip(message))
  }

  /** The keyword tests of `process_message`, in their order. */
  function Classify(m: string): Intent {
    if ContainsAny(m, GreetingWords) then Greet
    else if ContainsAny(m, CheckWords) then CheckRoute
    else if ContainsAny(m, BookWords) then BookFlight
    else if ContainsAny(m, ReportWords) then ShowReport
    else if ContainsAny(m, HelpWords) then ShowHelp
    else if ContainsAny(m, ResetWords) then ResetRequest
    else Unmatched
  }

  /**
    * The route named by a check command: the title-cased token after the
    * token "from" and the one after the first token "to".
    */
  function ParseRoute(m: string): Option<(string, string)> {
    if !(Contains(m, "from") && Contains(m, "to")) then None
    else
      var parts := Split(m);
      match (IndexOf(parts, "from"), IndexOf(parts, "to"))
      case (Some(f), Some(t)) =>
        if f < t && f + 1 < |parts| && t + 1 < |parts|
        then Some((Title(parts[f + 1]), Title(parts[t + 1])))
        else None
      case _ => None
  }

  /** The reply to a check command. */
  function CheckReply(cat: Routes, m: string): Reply {
    match ParseRoute(m)
    case Some((source, destination)) => RouteCheck(CheckFlightAvailability(cat, source, destination))
    case None => CheckUsage(AvailableCities(cat))
  }

  /** `city.lower() in message.lower()`. */
  predicate Mentions(m: string, city: string) {
    Contains(Lower(m), Lower(city))
  }

  /** The position of the first city of `cities` that the message mentions. */
  function FirstCityIndex(cities: seq<string>, m: string): (r: Option<nat>)
    ensures r.Some? ==> r.value < |cities| && Mentions(m, cities[r.value])
    ensures forall j :: 0 <= j < |cities| && (r.None? || j < r.value) ==> !Mentions(m, cities[j])
  {
    if cities == [] then None
    else if Mentions(m, cities[0]) then Some(0)
    else match FirstCityIndex(cities[1..], m)
      case None => None
      case Some(k) => Some(k + 1)
  }

  /** The first city of `cities` that the message mentions. */
  function FirstCity(cities: seq<string>, m: string): Option<string> {
    match FirstCityIndex(cities, m)
    case None => None
    case Some(i) => Some(cities[i])
  }

  /** `if city:` on the scan's result: neither `None` nor the empty name counts as a city. */
  predicate Named(city: Option<string>) {
    city.Some? && city.value != []
  }

  /** The value of a `key` segment (`name:` or `age:`), if the segment is one. */
  function SegmentValue(part: string, key: string): Option<string> {
    var p := Strip(part);
    if StartsWith(Lower(p), key) then Some(Strip(p[|key|..])) else None
  }

  /** The value of the last segment of `parts` that starts with `key`. */
  function LastValue(parts: seq<string>, key: string): Option<string> {
    if parts == [] then None
    else match SegmentValue(parts[|parts| - 1], key)
      case Some(v) => Some(v)
      case None => LastValue(parts[..|parts| - 1], key)
  }

  datatype Details = Passenger(name: string, age: int) | MissingField | AgeNotInteger | AgeInvalid

  /** The passenger-details parser of the `get_passenger_details` step. */
  function ReadPassenger(m: string): Details {
    var parts := SplitOn(m, ',');
    var name := LastValue(parts, "name:");
    var age := LastValue(parts, "age:");
    if name.Some? && name.value != [] && age.Some? && age.value != [] then
      match ParseInt(age.value)
      case None => AgeNotInteger
      case Some(a) => if a < 0 || a > 120 then AgeInvalid else Passenger(name.value, a)
    else MissingField
  }

  // ---------------------------------------------------------------------
  // Booking numbers, flight keys, issued seats
  // ---------------------------------------------------------------------

  /** `f"FL{counter}"`. */
  function BookingNumber(n: nat): (r: string)
    ensures |r| > 2 && r[..2] == "FL" && AllDigits(r[2..])
    ensures r[2] != '0' || n == 0
  {
    var r := "FL" + Decimal(n);
    assert r[2..] == Decimal(n);
    r
  }

  /** The number a booking number was printed from (0 for anything else). */
  function SerialOf(number: string): nat {
    if |number| >= 2 && AllDigits(number[2..]) then DigitsValue(number[2..]) else 0
  }

  /** `f"{source}-{destination}-{airline}"`. */
  function FlightKey(source: string, destination: string, airline: string): string {
    source + "-" + destination + "-" + airline
  }

  function BookingKey(b: Booking): string {
    FlightKey(b.source, b.destination, b.airline)
  }

  /** The seats issued for `key` (`[]` before the first draw on it). */
  function Issued(seats: map<string, seq<string>>, key: string): seq<string> {
    if key in seats then seats[key] else []
  }

  /** The seats of the bookings on flight `key`, in booking order. */
  function SeatsOf(bookings: seq<Booking>, key: string): seq<string> {
    if bookings == [] then []
    else
      var last := bookings[|bookings| - 1];
      SeatsOf(bookings[..|bookings| - 1], key) + (if BookingKey(last) == key then [last.seatNumber] else [])
  }

  // ---------------------------------------------------------------------
  // Invariants
  // ---------------------------------------------------------------------

  /** What each step guarantees about the other session fields. */
  ghost predicate SessionOk(cat: Routes, ss: Session) {
    match ss.step
    case Start => ss == EmptySession
    case GetSource => ss == EmptySession.(step := GetSource)
    case GetDestination =>
      Named(ss.source) && ss.source.value in CityNames(cat)
      && ss == EmptySession.(source := ss.source, step := GetDestination)
    case SelectFlight =>
      ss.source.Some? && ss.destination.Some? && ss.source != ss.destination
      && HasRoute(cat, ss.source.value, ss.destination.value)
      && ss == EmptySession.(source := ss.source, destination := ss.destination, step := SelectFlight)
    case GetPassengerDetails =>
      ss.source.Some? && ss.destination.Some? && ss.source != ss.destination
      && HasRoute(cat, ss.source.value, ss.destination.value)
      && ss.selectedFlight.Some? && ss.selectedFlight.value in cat[ss.source.value][ss.destination.value]
      && ss == EmptySession.(source := ss.source, destination := ss.destination,
                             selectedFlight := ss.selectedFlight, step := GetPassengerDetails)
  }

  /** A ledger entry: numbered below the counter, a catalogue offer, a valid passenger and seat. */
  ghost predicate BookingOk(cat: Routes, b: Booking, counter: nat) {
    b.bookingNumber == BookingNumber(SerialOf(b.bookingNumber))
    && FirstBookingNumber <= SerialOf(b.bookingNumber) < counter
    && NoUpper(b.passengerName) && 0 <= b.passengerAge <= 120
    && b.source != b.destination && HasRoute(cat, b.source, b.destination)
    && Offer(b.airline, b.departureTime, b.price, b.duration) in cat[b.source][b.destination]
    && IsSeatCode(b.seatNumber)
  }

  ghost predicate EntriesOk(cat: Routes, st: State) {
    forall i :: 0 <= i < |st.bookings| ==> BookingOk(cat, st.bookings[i], st.counter)
  }

  ghost predicate NumbersIncrease(st: State) {
    forall i, j :: 0 <= i < j < |st.bookings| ==>
      SerialOf(st.bookings[i].bookingNumber) < SerialOf(st.bookings[j].bookingNumber)
  }

  ghost predicate SeatsMatchBookings(st: State) {
    forall key :: key in st.seats ==> st.seats[key] == SeatsOf(st.bookings, key) && NoDup(st.seats[key])
  }

  ghost predicate KeysIssued(st: State) {
    forall i :: 0 <= i < |st.bookings| ==> BookingKey(st.bookings[i]) in st.seats
  }

  /**
    * The ledger invariant: the counter never falls below its seed, booking
    * numbers increase along the ledger, and each flight key's issued seats
    * are exactly the seats of its bookings, without repetition.
    */
  ghost predicate LedgerOk(cat: Routes, st: State) {
    st.counter >= FirstBookingNumber && EntriesOk(cat, st) && NumbersIncrease(st)
    && SeatsMatchBookings(st) && KeysIssued(st)
  }

  ghost predicate Consistent(cat: Routes, st: State) {
    SessionOk(cat, st.session) && LedgerOk(cat, st)
  }

  // ---------------------------------------------------------------------
  // Transitions
  // ---------------------------------------------------------------------

  /** Every field `complete_booking` reads is set. */
  predicate Filled(ss: Session) {
    ss.source.Some? && ss.destination.Some? && ss.selectedFlight.Some?
    && ss.passengerName.Some? && ss.passengerAge.Some?
  }

  /**
    * `complete_booking`, given the seat the draw settles on. When every seat
    * of the flight key is already issued the source's draw never returns;
    * here the booking fails with `FlightFull` instead.
    */
  function Complete(st: State, seat: string): (State, Reply)
    requires Filled(st.session)
  {
    var ss := st.session;
    var offer := ss.selectedFlight.value;
    var key := FlightKey(ss.source.value, ss.destination.value, offer.airline);
    var taken := Issued(st.seats, key);
    if !HasFreeSeat(taken) then
      (State(EmptySession, st.counter + 1, st.seats, st.bookings), FlightFull)
    else
      var b := Booking(BookingNumber(st.counter), ss.passengerName.value, ss.passengerAge.value,
                       ss.source.value, ss.destination.value, offer.airline, offer.departure,
                       offer.duration, offer.price, seat);
      (State(EmptySession, st.counter + 1, st.seats[key := taken + [seat]], st.bookings + [b]), Confirmed(b))
  }

  /** `handle_booking_flow(m)` on an already normalised message. */
  function Flow(cat: Routes, st: State, m: string, seat: string): (State, Reply)
    requires SessionOk(cat, st.session)
  {
    var cities := AvailableCities(cat);
    var ss := st.session;
    match ss.step
    case Start => (st, StepNotUnderstood)
    case GetSource =>
      var c := FirstCity(cities, m);
      if Named(c) then
        (st.(session := ss.(source := c, step := GetDestination)), SourceChosen(c.value, Others(cities, c)))
      else (st, InvalidSource(cities))
    case GetDestination =>
      var d := FirstCity(cities, m);
      if !Named(d) then (st, InvalidDestination(Others(cities, ss.source)))
      else if d == ss.source then (st, SameAsSource)
      else if HasRoute(cat, ss.source.value, d.value) then
        (st.(session := ss.(destination := d, step := SelectFlight)),
         FlightsListed(ss.source.value, d.value, Numbered(cat[ss.source.value][d.value])))
      else
        // The reply is built after the reset, so it shows the cleared source.
        (st.(session := EmptySession), NoRoute(EmptySession.source, d.value))
    case SelectFlight =>
      (match ParseInt(Strip(m))
       case None => (st, NotAnOption)
       case Some(k) =>
         var offers := cat[ss.source.value][ss.destination.value];
         if 1 <= k <= |offers| then
           (st.(session := ss.(selectedFlight := Some(offers[k - 1]), step := GetPassengerDetails)),
            FlightSelected(offers[k - 1]))
         else (st, InvalidOption(|offers|)))
    case GetPassengerDetails =>
      (match ReadPassenger(m)
       case Passenger(name, age) =>
         Complete(st.(session := ss.(passengerName := Some(name), passengerAge := Some(age))), seat)
       case MissingField => (st, DetailsFormat)
       case AgeNotInteger => (st, AgeNotNumber)
       case AgeInvalid => (st, AgeOutOfRange))
  }

  /** `process_message(message)`. */
  function Turn(cat: Routes, st: State, message: string, seat: string): (State, Reply)
    requires SessionOk(cat, st.session)
  {
    var m := Normalize(message);
    match Classify(m)
    case Greet => (st.(session := EmptySession), Welcome(AvailableCities(cat)))
    case CheckRoute => (st, CheckReply(cat, m))
    case BookFlight =>
      if st.session.step == Start then
        (st.(session := st.session.(step := GetSource)), AskSource(AvailableCities(cat)))
      else Flow(cat, st, m, seat)
    case ShowReport => (st, SummaryReport)
    case ShowHelp => (st, HelpText)
    case ResetRequest => (st.(session := EmptySession), SessionReset)
    case Unmatched =>
      if st.session.step != Start then Flow(cat, st, m, seat) else (st, NotUnderstood)
  }

  /** `chatbot_response(message, history)`: blank input never reaches the assistant. */
  function Respond(cat: Routes, st: State, message: string, seat: string): (State, Reply)
    requires SessionOk(cat, st.session)
  {
    if Strip(message) == [] then (st, EmptyMessage) else Turn(cat, st, message, seat)
  }

  /** The seat a reply reports (only a confirmation reports one). */
  function DrawnSeat(r: Reply): string {
    if r.Confirmed? then r.booking.seatNumber else ""
  }

  /** A confirmed seat is a seat code not yet issued for its flight key. */
  predicate FreshDraw(st: State, r: Reply) {
    r.Confirmed? ==>
      IsSeatCode(r.booking.seatNumber) && r.booking.seatNumber !in Issued(st.seats, BookingKey(r.booking))
  }
}
