/**
  * `AirlineAIAssistant`: the object whose methods update the session, the
  * booking counter, the issued seats and the ledger in place. Every method
  * is proved to do what the corresponding function of module Conversation
  * says, and `ProcessMessage` to keep the invariant `Consistent`.
  */
module Assistant {
  import opened Wrappers
  import opened Text
  import opened Catalog
  import opened Seats
  import opened Conversation
  import LedgerProperties
  import opened ConversationProperties

  /** The loop of `handle_booking_flow` that looks for the first mentioned city. */
  method ScanCities(cities: seq<string>, m: string) returns (found: Option<string>)
    ensures found == FirstCity(cities, m)
  {
    var i := 0;
    while i < |cities|
      invariant 0 <= i <= |cities|
      invariant forall j :: 0 <= j < i ==> !Mentions(m, cities[j])
    {
      if Contains(Lower(m), Lower(cities[i])) {
        return Some(cities[i]);
      }
      i := i + 1;
    }
    return None;
  }

  /** One more segment: a later `key` segment overrides the earlier ones. */
  lemma LastValueStep(parts: seq<string>, i: nat, key: string)
    requires i < |parts|
    ensures LastValue(parts[..i + 1], key)
            == if SegmentValue(parts[i], key).Some? then SegmentValue(parts[i], key) else LastValue(parts[..i], key)
  {
    assert parts[..i + 1][..i] == parts[..i];
  }

  /** A segment cannot start with both keys. */
  lemma KeysDisjoint(s: string)
    requires StartsWith(s, "name:")
    ensures !StartsWith(s, "age:")
  {
    assert s[0] == s[..5][0] == 'n';
  }

  /** What one segment contributes, following the tests of the loop below. */
  lemma SegmentCases(raw: string)
    ensures var part := Strip(raw);
            if StartsWith(Lower(part), "name:") then
              SegmentValue(raw, "name:") == Some(Strip(part[5..])) && SegmentValue(raw, "age:") == None
            else if StartsWith(Lower(part), "age:") then
              SegmentValue(raw, "name:") == None && SegmentValue(raw, "age:") == Some(Strip(part[4..]))
            else
              SegmentValue(raw, "name:") == None && SegmentValue(raw, "age:") == None
  {
    var part := Strip(raw);
    if StartsWith(Lower(part), "name:") {
      KeysDisjoint(Lower(part));
    }
  }

  /** The loop of `handle_booking_flow` that reads the `name:` and `age:` segments. */
  method ScanDetails(parts: seq<string>) returns (namePart: Option<string>, agePart: Option<string>)
    ensures namePart == LastValue(parts, "name:")
    ensures agePart == LastValue(parts, "age:")
  {
    namePart, agePart := None, None;
    for i := 0 to |parts|
      invariant namePart == LastValue(parts[..i], "name:")
      invariant agePart == LastValue(parts[..i], "age:")
    {
      SegmentCases(parts[i]);
      LastValueStep(parts, i, "name:");
      LastValueStep(parts, i, "age:");
      var part := Strip(parts[i]);
      if StartsWith(Lower(part), "name:") {
        namePart := Some(Strip(part[5..]));
      } else if StartsWith(Lower(part), "age:") {
        agePart := Some(Strip(part[4..]));
      }
    }
    assert parts[..|parts|] == parts;
  }

  /** The reading and checking of the details in `handle_booking_flow`. */
  method ParseDetails(m: string) returns (details: Details)
    ensures details == ReadPassenger(m)
  {
    var namePart, agePart := ScanDetails(SplitOn(m, ','));
    if namePart.Some? && namePart.value != [] && agePart.Some? && agePart.value != [] {
      var age := ParseInt(agePart.value);
      if age.None? {
        details := AgeNotInteger;
      } else if age.value < 0 || age.value > 120 {
        details := AgeInvalid;
      } else {
        details := Passenger(namePart.value, age.value);
      }
    } else {
      details := MissingField;
    }
  }

  /** The keyword tests of `process_message`, in their order. */
  method ReadIntent(m: string) returns (intent: Intent)
    ensures intent == Classify(m)
  {
    if ContainsAny(m, GreetingWords) {
      intent := Greet;
    } else if ContainsAny(m, CheckWords) {
      intent := CheckRoute;
    } else if ContainsAny(m, BookWords) {
      intent := BookFlight;
    } else if ContainsAny(m, ReportWords) {
      intent := ShowReport;
    } else if ContainsAny(m, HelpWords) {
      intent := ShowHelp;
    } else if ContainsAny(m, ResetWords) {
      intent := ResetRequest;
    } else {
      intent := Unmatched;
    }
  }

  class AirlineAssistant {
    const flights: Routes
    var bookings: seq<Booking>
    var bookingCounter: nat
    var seatAssignments: map<string, seq<string>>
    var currentSession: Session

    /** The assistant's state as a value. */
    function Abs(): State
      reads this
    {
      State(currentSession, bookingCounter, seatAssignments, bookings)
    }

    ghost predicate Valid()
      reads this
    {
      Consistent(flights, Abs())
    }

    constructor ()
      ensures Valid() && flights == Flights && Abs() == InitialState
    {
      flights := Flights;
      bookings := [];
      bookingCounter := FirstBookingNumber;
      seatAssignments := map[];
      currentSession := EmptySession;
      new;
      LedgerProperties.InitialConsistent(Flights);
    }

    method ResetSession()
      modifies this
      ensures currentSession == EmptySession
      ensures bookings == old(bookings) && bookingCounter == old(bookingCounter)
      ensures seatAssignments == old(seatAssignments)
    {
      currentSession := EmptySession;
    }

    /**
      * `generate_seat_number(flight_key)`: issue a seat of the 30 x 6 grid
      * not yet issued for `flightKey`. The source redraws at random until
      * the seat is free; here the draw is a nondeterministic choice among
      * the free seats, so a free seat must exist.
      */
    method GenerateSeatNumber(flightKey: string) returns (seat: string)
      requires HasFreeSeat(Issued(seatAssignments, flightKey))
      modifies this
      ensures IsSeatCode(seat) && seat !in old(Issued(seatAssignments, flightKey))
      ensures seatAssignments
              == old(seatAssignments)[flightKey := old(Issued(seatAssignments, flightKey)) + [seat]]
      ensures bookings == old(bookings) && bookingCounter == old(bookingCounter)
      ensures currentSession == old(currentSession)
    {
      if flightKey !in seatAssignments {
        seatAssignments := seatAssignments[flightKey := []];
      }
      var taken := seatAssignments[flightKey];
      ghost var i :| 0 <= i < Capacity && AllSeatCodes()[i] !in taken;
      assert SeatCode(i / 6 + 1, Letters[i % 6]) !in taken;
      var row: nat, letter: char :| 1 <= row <= Rows && letter in Letters && SeatCode(row, letter) !in taken;
      seat := SeatCode(row, letter);
      SeatCodeRange(seat);
      seatAssignments := seatAssignments[flightKey := taken + [seat]];
    }

    /** `complete_booking()`, with the full-flight case reported instead of looping. */
    method CompleteBooking() returns (reply: Reply)
      requires Filled(currentSession)
      modifies this
      ensures (Abs(), reply) == Complete(old(Abs()), DrawnSeat(reply))
      ensures FreshDraw(old(Abs()), reply)
    {
      var bookingNumber := BookingNumber(bookingCounter);
      bookingCounter := bookingCounter + 1;
      var flight := currentSession.selectedFlight.value;
      var flightKey := FlightKey(currentSession.source.value, currentSession.destination.value, flight.airline);
      if !HasFreeSeat(Issued(seatAssignments, flightKey)) {
        ResetSession();
        return FlightFull;
      }
      var seat := GenerateSeatNumber(flightKey);
      var booking := Booking(bookingNumber, currentSession.passengerName.value, currentSession.passengerAge.value,
                             currentSession.source.value, currentSession.destination.value, flight.airline,
                             flight.departure, flight.duration, flight.price, seat);
      bookings := bookings + [booking];
      ResetSession();
      reply := Confirmed(booking);
    }

    /** The `get_source` step of `handle_booking_flow`. */
    method ChooseSource(m: string) returns (reply: Reply)
      requires SessionOk(flights, currentSession) && currentSession.step == GetSource
      modifies this
      ensures (Abs(), reply) == Flow(flights, old(Abs()), m, DrawnSeat(reply))
      ensures !reply.Confirmed?
    {
      var cities := AvailableCities(flights);
      var sourceCity := ScanCities(cities, m);
      SourceFlow(flights, Abs(), m, "", sourceCity);
      if sourceCity.Some? && sourceCity.value != [] {
        currentSession := currentSession.(source := sourceCity, step := GetDestination);
        reply := SourceChosen(sourceCity.value, Others(cities, sourceCity));
      } else {
        reply := InvalidSource(cities);
      }
    }

    /** The `get_destination` step of `handle_booking_flow`. */
    method ChooseDestination(m: string) returns (reply: Reply)
      requires SessionOk(flights, currentSession) && currentSession.step == GetDestination
      modifies this
      ensures (Abs(), reply) == Flow(flights, old(Abs()), m, DrawnSeat(reply))
      ensures !reply.Confirmed?
    {
      var cities := AvailableCities(flights);
      var destinationCity := ScanCities(cities, m);
      if destinationCity.Some? && destinationCity.value != [] {
        var source := currentSession.source;
        if destinationCity == source {
          return SameAsSource;
        }
        currentSession := currentSession.(destination := destinationCity);
        if HasRoute(flights, source.value, destinationCity.value) {
          var offers := flights[source.value][destinationCity.value];
          currentSession := currentSession.(step := SelectFlight);
          reply := FlightsListed(source.value, destinationCity.value, Numbered(offers));
        } else {
          ResetSession();
          reply := NoRoute(currentSession.source, destinationCity.value);
        }
      } else {
        reply := InvalidDestination(Others(cities, currentSession.source));
      }
    }

    /** The `select_flight` step of `handle_booking_flow`. */
    method SelectOption(m: string) returns (reply: Reply)
      requires SessionOk(flights, currentSession) && currentSession.step == SelectFlight
      modifies this
      ensures (Abs(), reply) == Flow(flights, old(Abs()), m, DrawnSeat(reply))
      ensures !reply.Confirmed?
    {
      var choice := ParseInt(Strip(m));
      if choice.Some? {
        var offers := flights[currentSession.source.value][currentSession.destination.value];
        if 1 <= choice.value <= |offers| {
          currentSession := currentSession.(selectedFlight := Some(offers[choice.value - 1]),
                                            step := GetPassengerDetails);
          reply := FlightSelected(offers[choice.value - 1]);
        } else {
          reply := InvalidOption(|offers|);
        }
      } else {
        reply := NotAnOption;
      }
    }

    /** The `get_passenger_details` step of `handle_booking_flow`. */
    method TakeDetails(m: string) returns (reply: Reply)
      requires SessionOk(flights, currentSession) && currentSession.step == GetPassengerDetails
      modifies this
      ensures (Abs(), reply) == Flow(flights, old(Abs()), m, DrawnSeat(reply))
      ensures FreshDraw(old(Abs()), reply)
    {
      var details := ParseDetails(m);
      match details {
        case Passenger(name, age) =>
          ghost var before := Abs();
          currentSession := currentSession.(passengerName := Some(name), passengerAge := Some(age));
          assert Abs() == before.(session := before.session.(passengerName := Some(name), passengerAge := Some(age)));
          reply := CompleteBooking();
          DetailsStepBooks(flights, old(Abs()), m, DrawnSeat(reply), name, age);
        case MissingField =>
          reply := DetailsFormat;
          DetailsStepRejects(flights, old(Abs()), m, DrawnSeat(reply));
        case AgeNotInteger =>
          reply := AgeNotNumber;
          DetailsStepRejects(flights, old(Abs()), m, DrawnSeat(reply));
        case AgeInvalid =>
          reply := AgeOutOfRange;
          DetailsStepRejects(flights, old(Abs()), m, DrawnSeat(reply));
      }
    }

    /** `handle_booking_flow(m)` for an already normalised message. */
    method HandleBookingFlow(m: string) returns (reply: Reply)
      requires Valid() && NoUpper(m)
      modifies this
      ensures Valid()
      ensures (Abs(), reply) == Flow(flights, old(Abs()), m, DrawnSeat(reply))
      ensures FreshDraw(old(Abs()), reply)
    {
      match currentSession.step {
        case Start => reply := StepNotUnderstood;
        case GetSource => reply := ChooseSource(m);
        case GetDestination => reply := ChooseDestination(m);
        case SelectFlight => reply := SelectOption(m);
        case GetPassengerDetails => reply := TakeDetails(m);
      }
      LedgerProperties.FlowKeepsConsistent(flights, old(Abs()), m, DrawnSeat(reply));
    }

    /** The commands of `process_message` that answer without stepping through a booking. */
    method RunCommand(ghost message: string, m: string, intent: Intent) returns (reply: Reply)
      requires Valid() && m == Normalize(message) && intent == Classify(m)
      requires intent != BookFlight && intent != Unmatched
      modifies this
      ensures Valid()
      ensures (Abs(), reply) == Turn(flights, old(Abs()), message, DrawnSeat(reply))
      ensures !reply.Confirmed?
    {
      ghost var st0 := Abs();
      match intent {
        case Greet =>
          ResetSession();
          reply := Welcome(AvailableCities(flights));
          ResetCommandsClearSession(flights, st0, message, DrawnSeat(reply));
          LedgerProperties.LedgerIgnoresSession(flights, st0, EmptySession);
        case CheckRoute =>
          reply := CheckReply(flights, m);
          CheckReplyAnswers(flights, m);
          ReadOnlyCommandsKeepState(flights, st0, message, DrawnSeat(reply));
        case ShowReport =>
          reply := SummaryReport;
          ReadOnlyCommandsKeepState(flights, st0, message, DrawnSeat(reply));
        case ShowHelp =>
          reply := HelpText;
          ReadOnlyCommandsKeepState(flights, st0, message, DrawnSeat(reply));
        case ResetRequest =>
          ResetSession();
          reply := SessionReset;
          ResetCommandsClearSession(flights, st0, message, DrawnSeat(reply));
          LedgerProperties.LedgerIgnoresSession(flights, st0, EmptySession);
      }
    }

    /** `process_message(message)`. */
    method ProcessMessage(message: string) returns (reply: Reply)
      requires Valid()
      modifies this
      ensures Valid()
      ensures (Abs(), reply) == Turn(flights, old(Abs()), message, DrawnSeat(reply))
      ensures FreshDraw(old(Abs()), reply)
    {
      ghost var st0 := Abs();
      var m := Lower(Strip(message));
      LedgerProperties.NoUpperNormalize(message);
      var intent := ReadIntent(m);
      if intent == BookFlight || intent == Unmatched {
        reply := RunBooking(message, m, intent);
      } else {
        reply := RunCommand(message, m, intent);
      }
    }

    /** The book command and unmatched input of `process_message`: they start a booking or feed its current step. */
    method RunBooking(ghost message: string, m: string, intent: Intent) returns (reply: Reply)
      requires Valid() && m == Normalize(message) && intent == Classify(m)
      requires intent == BookFlight || intent == Unmatched
      modifies this
      ensures Valid()
      ensures (Abs(), reply) == Turn(flights, old(Abs()), message, DrawnSeat(reply))
      ensures FreshDraw(old(Abs()), reply)
    {
      ghost var st0 := Abs();
      match intent {
        case BookFlight =>
          if currentSession.step == Start {
            currentSession := currentSession.(step := GetSource);
            reply := AskSource(AvailableCities(flights));
            StartOfBooking(flights, st0, message, DrawnSeat(reply));
            LedgerProperties.TurnKeepsConsistent(flights, st0, message, DrawnSeat(reply));
          } else {
            reply := HandleBookingFlow(m);
            TurnDelegates(flights, st0, message, DrawnSeat(reply));
          }
        case Unmatched =>
          if currentSession.step != Start {
            reply := HandleBookingFlow(m);
            TurnDelegates(flights, st0, message, DrawnSeat(reply));
          } else {
            reply := NotUnderstood;
            StartOfBooking(flights, st0, message, DrawnSeat(reply));
          }
      }
    }

    /** `chatbot_response(message, history)`: the guard against blank input. */
    method ChatbotResponse(message: string) returns (reply: Reply)
      requires Valid()
      modifies this
      ensures Valid()
      ensures (Abs(), reply) == Respond(flights, old(Abs()), message, DrawnSeat(reply))
      ensures FreshDraw(old(Abs()), reply)
    {
      if Strip(message) == [] {
        return EmptyMessage;
      }
      reply := ProcessMessage(message);
    }
  }
}
