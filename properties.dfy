/**
  * What one turn of the conversation does, stated independently of how
  * `Turn` and `Flow` compute it: which commands leave the state alone, how
  * each booking step moves, what a confirmed booking records, and the
  * consequences of the substring-based keyword tests.
  */
module ConversationProperties {
  import opened Wrappers
  import opened Text
  import opened Catalog
  import opened Seats
  import opened Conversation
  import LedgerProperties

  // ---------------------------------------------------------------------
  // Keyword dispatch
  // ---------------------------------------------------------------------

  /** A lower-case string is its own `lower()`. */
  lemma LowerOfNoUpper(s: string)
    requires NoUpper(s)
    ensures Lower(s) == s
  {
  }

  /**
    * The keyword lists are tried in a fixed order and the first one the
    * message hits decides: greeting, check, book, report, help, reset.
    */
  lemma ClassifyPriority(m: string)
    ensures Classify(m) == Greet <==> ContainsAny(m, GreetingWords)
    ensures Classify(m) == CheckRoute <==> !ContainsAny(m, GreetingWords) && ContainsAny(m, CheckWords)
    ensures Classify(m) == BookFlight <==>
              !ContainsAny(m, GreetingWords) && !ContainsAny(m, CheckWords) && ContainsAny(m, BookWords)
    ensures Classify(m) == ShowReport <==>
              !ContainsAny(m, GreetingWords) && !ContainsAny(m, CheckWords) && !ContainsAny(m, BookWords)
              && ContainsAny(m, ReportWords)
    ensures Classify(m) == ShowHelp <==>
              !ContainsAny(m, GreetingWords) && !ContainsAny(m, CheckWords) && !ContainsAny(m, BookWords)
              && !ContainsAny(m, ReportWords) && ContainsAny(m, HelpWords)
    ensures Classify(m) == ResetRequest <==>
              !ContainsAny(m, GreetingWords) && !ContainsAny(m, CheckWords) && !ContainsAny(m, BookWords)
              && !ContainsAny(m, ReportWords) && !ContainsAny(m, HelpWords) && ContainsAny(m, ResetWords)
    ensures Classify(m) == Unmatched <==>
              !ContainsAny(m, GreetingWords) && !ContainsAny(m, CheckWords) && !ContainsAny(m, BookWords)
              && !ContainsAny(m, ReportWords) && !ContainsAny(m, HelpWords) && !ContainsAny(m, ResetWords)
  {
  }

  /** A message that contains a word containing a greeting word is a greeting. */
  lemma GreetingInside(m: string, w: string)
    requires Contains(m, w) && ContainsAny(w, GreetingWords)
    ensures Classify(m) == Greet
  {
    var i :| 0 <= i < |GreetingWords| && Contains(w, GreetingWords[i]);
    ContainsTransitive(m, w, GreetingWords[i]);
  }

  /** "chicago" contains "hi", so any message naming Chicago is taken as a greeting. */
  lemma ChicagoIsAGreeting(m: string)
    requires Contains(m, "chicago")
    ensures Classify(m) == Greet
  {
    assert StartsWith("chicago"[1..], "hi");
    assert Contains("chicago", GreetingWords[1]);
    GreetingInside(m, "chicago");
  }

  /** "start over" contains "start", so it resets as a greeting and never reaches the reset command. */
  lemma StartOverIsAGreeting(m: string)
    requires Contains(m, "start over")
    ensures Classify(m) == Greet
  {
    assert StartsWith("start over", GreetingWords[3]);
    GreetingInside(m, "start over");
  }

  /** A string of digits contains none of the keywords, all of which begin with a letter. */
  lemma DigitsHoldNoWord(s: string, w: string)
    requires AllDigits(s) && w != [] && IsLetter(w[0])
    ensures !Contains(s, w)
  {
    ContainsAt(s, w);
  }

  lemma DigitsAreUnmatched(s: string)
    requires AllDigits(s)
    ensures Classify(s) == Unmatched
  {
    forall w | w in GreetingWords + CheckWords + BookWords + ReportWords + HelpWords + ResetWords
      ensures !Contains(s, w)
    {
      DigitsHoldNoWord(s, w);
    }
  }

  // ---------------------------------------------------------------------
  // Commands that only answer, commands that reset
  // ---------------------------------------------------------------------

  /** Checking a route, the report and the help text change nothing. */
  lemma ReadOnlyCommandsKeepState(cat: Routes, st: State, message: string, seat: string)
    requires SessionOk(cat, st.session)
    requires var i := Classify(Normalize(message)); i == CheckRoute || i == ShowReport || i == ShowHelp
    ensures Turn(cat, st, message, seat).0 == st
    ensures Turn(cat, st, message, seat).1 == match Classify(Normalize(message))
                                              case CheckRoute => CheckReply(cat, Normalize(message))
                                              case ShowReport => SummaryReport
                                              case _ => HelpText
  {
  }

  /** A greeting or a reset command clears the session and keeps the ledger. */
  lemma ResetCommandsClearSession(cat: Routes, st: State, message: string, seat: string)
    requires SessionOk(cat, st.session)
    requires var i := Classify(Normalize(message)); i == Greet || i == ResetRequest
    ensures Turn(cat, st, message, seat).0 == st.(session := EmptySession)
    ensures Turn(cat, st, message, seat).1 == if Classify(Normalize(message)) == Greet
                                              then Welcome(AvailableCities(cat)) else SessionReset
  {
  }

  /** Outside a booking, a booking command starts one and anything unmatched is answered and ignored. */
  lemma StartOfBooking(cat: Routes, st: State, message: string, seat: string)
    requires SessionOk(cat, st.session) && st.session.step == Start
    ensures Classify(Normalize(message)) == BookFlight ==>
              Turn(cat, st, message, seat) == (st.(session := EmptySession.(step := GetSource)),
                                               AskSource(AvailableCities(cat)))
    ensures Classify(Normalize(message)) == Unmatched ==>
              Turn(cat, st, message, seat) == (st, NotUnderstood)
  {
  }

  /** Inside a booking, a booking command or an unmatched message is handled by the current step. */
  lemma TurnDelegates(cat: Routes, st: State, message: string, seat: string)
    requires SessionOk(cat, st.session) && st.session.step != Start
    requires Classify(Normalize(message)) == BookFlight || Classify(Normalize(message)) == Unmatched
    ensures Turn(cat, st, message, seat) == Flow(cat, st, Normalize(message), seat)
  {
  }

  /** A blank message gets the blank-message reply and nothing else does. */
  lemma BlankMessageIgnored(cat: Routes, st: State, message: string, seat: string)
    requires SessionOk(cat, st.session)
    ensures Respond(cat, st, message, seat).1 == EmptyMessage <==> Strip(message) == []
    ensures Strip(message) == [] ==> Respond(cat, st, message, seat).0 == st
  {
    if Strip(message) != [] {
      TurnCases(cat, st, message, seat);
    }
  }

  /**
    * Every turn answers with something other than the blank-message reply,
    * and leaves the ledger alone unless the details step accepted the
    * passenger.
    */
  lemma TurnCases(cat: Routes, st: State, message: string, seat: string)
    requires SessionOk(cat, st.session)
    ensures Turn(cat, st, message, seat).1 != EmptyMessage
    ensures var st' := Turn(cat, st, message, seat).0;
            !(st.session.step == GetPassengerDetails
              && (Classify(Normalize(message)) == BookFlight || Classify(Normalize(message)) == Unmatched)
              && ReadPassenger(Normalize(message)).Passenger?)
            ==> (st'.counter, st'.seats, st'.bookings) == (st.counter, st.seats, st.bookings)
  {
    var intent := Classify(Normalize(message));
    if st.session.step != Start && (intent == BookFlight || intent == Unmatched) {
      TurnDelegates(cat, st, message, seat);
      FlowCases(cat, st, Normalize(message), seat);
    } else {
      TurnAnswers(cat, st, message, seat);
    }
  }

  /** The check command answers with a usage hint or an availability result. */
  lemma CheckReplyAnswers(cat: Routes, m: string)
    ensures CheckReply(cat, m).CheckUsage? <==> ParseRoute(m).None?
    ensures CheckReply(cat, m).RouteCheck? <==> ParseRoute(m).Some?
  {
  }

  /** A turn that no step handles answers with something and keeps the ledger. */
  lemma TurnAnswers(cat: Routes, st: State, message: string, seat: string)
    requires SessionOk(cat, st.session)
    requires var i := Classify(Normalize(message));
             st.session.step == Start || (i != BookFlight && i != Unmatched)
    ensures Turn(cat, st, message, seat).1 != EmptyMessage
    ensures var st' := Turn(cat, st, message, seat).0;
            (st'.counter, st'.seats, st'.bookings) == (st.counter, st.seats, st.bookings)
  {
    var intent := Classify(Normalize(message));
    var (st', r) := Turn(cat, st, message, seat);
    if intent == Greet || intent == ResetRequest {
      ResetCommandsClearSession(cat, st, message, seat);
      assert st' == st.(session := EmptySession);
      assert r == Welcome(AvailableCities(cat)) || r == SessionReset;
    } else if intent == CheckRoute || intent == ShowReport || intent == ShowHelp {
      ReadOnlyCommandsKeepState(cat, st, message, seat);
      CheckReplyAnswers(cat, Normalize(message));
      assert st' == st;
    } else {
      StartOfBooking(cat, st, message, seat);
      assert st'.counter == st.counter && st'.seats == st.seats && st'.bookings == st.bookings;
      assert r.AskSource? || r == NotUnderstood;
    }
  }

  /** The step handlers never give the blank-message reply, and only the details step touches the ledger. */
  lemma FlowCases(cat: Routes, st: State, m: string, seat: string)
    requires SessionOk(cat, st.session)
    ensures Flow(cat, st, m, seat).1 != EmptyMessage
    ensures var st' := Flow(cat, st, m, seat).0;
            !(st.session.step == GetPassengerDetails && ReadPassenger(m).Passenger?)
            ==> (st'.counter, st'.seats, st'.bookings) == (st.counter, st.seats, st.bookings)
  {
    match st.session.step {
      case GetPassengerDetails =>
        match ReadPassenger(m) {
          case Passenger(name, age) =>
            DetailsStepBooks(cat, st, m, seat, name, age);
          case _ =>
            DetailsStepRejects(cat, st, m, seat);
        }
      case _ => RoutingStepKeepsLedger(cat, st, m, seat);
    }
  }

  lemma RoutingStepKeepsLedger(cat: Routes, st: State, m: string, seat: string)
    requires SessionOk(cat, st.session) && st.session.step != GetPassengerDetails
    ensures Flow(cat, st, m, seat).1 != EmptyMessage
    ensures var st' := Flow(cat, st, m, seat).0;
            (st'.counter, st'.seats, st'.bookings) == (st.counter, st.seats, st.bookings)
  {
    match st.session.step {
      case Start =>
      case GetSource => SourceFlow(cat, st, m, seat, FirstCity(AvailableCities(cat), m));
      case GetDestination => DestinationStep(cat, st, m, seat);
      case SelectFlight => SelectStep(cat, st, m, seat);
    }
  }

  // ---------------------------------------------------------------------
  // The check command
  // ---------------------------------------------------------------------

  /**
    * `parts[f]` is the first "from", `parts[t]` the first "to", the "from"
    * comes first, and `route` is the title-cased pair of tokens after them.
    */
  predicate RouteAt(parts: seq<string>, f: nat, t: nat, route: (string, string)) {
    f < t && t + 1 < |parts|
    && parts[f] == "from" && "from" !in parts[..f]
    && parts[t] == "to" && "to" !in parts[..t]
    && route == (Title(parts[f + 1]), Title(parts[t + 1]))
  }

  /** A parsed route is read off the first "from" and the first "to", in that order. */
  lemma ParsedRouteShape(m: string)
    ensures ParseRoute(m).Some? ==> exists f, t :: RouteAt(Split(m), f, t, ParseRoute(m).value)
  {
    if ParseRoute(m).Some? {
      var parts := Split(m);
      var f := IndexOf(parts, "from").value;
      var t := IndexOf(parts, "to").value;
      assert "from" !in parts[..f] by {
        forall j | 0 <= j < f ensures parts[..f][j] != "from" { }
      }
      assert "to" !in parts[..t] by {
        forall j | 0 <= j < t ensures parts[..t][j] != "to" { }
      }
      assert RouteAt(parts, f, t, ParseRoute(m).value);
    }
  }

  /** Conversely, a message with "from" and "to" in it is parsed off its first "from" and first "to". */
  lemma ParsedRouteComplete(m: string, f: nat, t: nat, route: (string, string))
    requires Contains(m, "from") && Contains(m, "to")
    requires RouteAt(Split(m), f, t, route)
    ensures ParseRoute(m) == Some(route)
  {
    var parts := Split(m);
    IndexOfFirst(parts, "from", f);
    IndexOfFirst(parts, "to", t);
  }

  /** `xs.index(x)` is the position of an `x` that no earlier element equals. */
  lemma IndexOfFirst(xs: seq<string>, x: string, k: nat)
    requires k < |xs| && xs[k] == x && x !in xs[..k]
    ensures IndexOf(xs, x) == Some(k)
  {
  }

  /** Each city a check command names is a single word. */
  lemma ParsedRouteIsSingleWords(m: string)
    ensures ParseRoute(m).Some? ==> IsWord(ParseRoute(m).value.0) && IsWord(ParseRoute(m).value.1)
  {
    if ParseRoute(m).Some? {
      var parts := Split(m);
      var f := IndexOf(parts, "from").value;
      var t := IndexOf(parts, "to").value;
      TitleOfWord(parts[f + 1]);
      TitleOfWord(parts[t + 1]);
    }
  }

  lemma TitleOfWord(w: string)
    requires IsWord(w)
    ensures IsWord(Title(w))
  {
    var r := Title(w);
    forall i | 0 <= i < |r| ensures !IsSpace(r[i]) {
      assert !IsSpace(w[i]);
    }
  }

  /**
    * On the sample catalogue every route has New York or Los Angeles at
    * one end, and the check command reads one word per city, so it never
    * lists offers.
    */
  lemma CheckNeverListsSampleOffers(m: string)
    ensures !(CheckReply(Flights, m).RouteCheck? && CheckReply(Flights, m).result.Listed?)
  {
    ParsedRouteIsSingleWords(m);
    if ParseRoute(m).Some? {
      var (a, b) := ParseRoute(m).value;
      TwoWordCities(a);
      TwoWordCities(b);
      if HasRoute(Flights, a, b) {
        SampleRouteEnds(a, b);
      }
    }
  }

  /** New York and Los Angeles are not single words. */
  lemma TwoWordCities(w: string)
    requires IsWord(w)
    ensures w != "New York" && w != "Los Angeles"
  {
    assert IsSpace("New York"[3]) && IsSpace("Los Angeles"[3]);
  }

  /** Every route of the sample catalogue starts or ends in New York or Los Angeles. */
  lemma SampleRouteEnds(a: string, b: string)
    requires HasRoute(Flights, a, b)
    ensures a == "New York" || a == "Los Angeles" || b == "New York" || b == "Los Angeles"
  {
    assert Flights.Keys == {"New York", "Los Angeles", "Miami", "Chicago", "Seattle"};
    if a == "Miami" {
      assert Flights[a].Keys == {"New York"};
    } else if a == "Chicago" {
      assert Flights[a].Keys == {"New York"};
    } else if a == "Seattle" {
      assert Flights[a].Keys == {"Los Angeles"};
    }
  }

  // ---------------------------------------------------------------------
  // Choosing cities
  // ---------------------------------------------------------------------

  /**
    * The city the scan finds is the alphabetically first city of the
    * catalogue that the message mentions; none is found only when the
    * message mentions no city.
    */
  lemma FirstCityIsLeastMentioned(cat: Routes, m: string)
    ensures FirstCity(AvailableCities(cat), m).None? <==> forall c :: c in CityNames(cat) ==> !Mentions(m, c)
    ensures FirstCity(AvailableCities(cat), m).Some? ==>
              var c := FirstCity(AvailableCities(cat), m).value;
              c in CityNames(cat) && Mentions(m, c)
              && forall d :: d in CityNames(cat) && Mentions(m, d) && d != c ==> LexLess(c, d)
  {
    FirstInSortedIsLeast(AvailableCities(cat), m);
  }

  /** An empty city name is mentioned by every message and sorts first, so the scan always finds it. */
  lemma EmptyCityFoundFirst(cat: Routes, m: string)
    requires [] in CityNames(cat)
    ensures FirstCity(AvailableCities(cat), m) == Some([])
  {
    assert Mentions(m, []) by { assert Lower([]) == []; assert StartsWith(Lower(m), []); }
    FirstCityIsLeastMentioned(cat, m);
  }

  lemma FirstInSortedIsLeast(cities: seq<string>, m: string)
    requires StrictlySorted(cities)
    ensures FirstCity(cities, m).None? <==> forall c :: c in cities ==> !Mentions(m, c)
    ensures FirstCity(cities, m).Some? ==>
              var c := FirstCity(cities, m).value;
              c in cities && Mentions(m, c)
              && forall d :: d in cities && Mentions(m, d) && d != c ==> LexLess(c, d)
  {
    match FirstCityIndex(cities, m) {
      case None =>
      case Some(i) =>
        forall d | d in cities && Mentions(m, d) && d != cities[i] ensures LexLess(cities[i], d) {
          var j :| 0 <= j < |cities| && cities[j] == d;
          assert i < j;
        }
    }
  }

  /** A city whose name contains a greeting word can never be chosen as an origin or destination. */
  lemma GreetingCityNeverChosen(cat: Routes, st: State, message: string, seat: string, city: string)
    requires SessionOk(cat, st.session)
    requires ContainsAny(Lower(city), GreetingWords)
    requires st.session.source != Some(city) && st.session.destination != Some(city)
    ensures Turn(cat, st, message, seat).0.session.source != Some(city)
    ensures Turn(cat, st, message, seat).0.session.destination != Some(city)
  {
    var m := Normalize(message);
    var intent := Classify(m);
    if intent == Greet || intent == ResetRequest {
      ResetCommandsClearSession(cat, st, message, seat);
    } else if intent == CheckRoute || intent == ShowReport || intent == ShowHelp {
      ReadOnlyCommandsKeepState(cat, st, message, seat);
    } else if st.session.step == Start {
      StartOfBooking(cat, st, message, seat);
    } else {
      LedgerProperties.NoUpperNormalize(message);
      FlowNeverPicksGreetingCity(cat, st, m, seat, city);
      TurnDelegates(cat, st, message, seat);
    }
  }

  lemma FlowNeverPicksGreetingCity(cat: Routes, st: State, m: string, seat: string, city: string)
    requires SessionOk(cat, st.session) && NoUpper(m) && Classify(m) != Greet
    requires ContainsAny(Lower(city), GreetingWords)
    requires st.session.source != Some(city) && st.session.destination != Some(city)
    ensures Flow(cat, st, m, seat).0.session.source != Some(city)
    ensures Flow(cat, st, m, seat).0.session.destination != Some(city)
  {
    if FirstCity(AvailableCities(cat), m) == Some(city) {
      FirstInSortedIsLeast(AvailableCities(cat), m);
      LowerOfNoUpper(m);
      GreetingInside(m, Lower(city));
    }
    FlowStoresFirstCity(cat, st, m, seat);
  }

  /** The booking flow stores as origin or destination only the first city the message mentions. */
  lemma FlowStoresFirstCity(cat: Routes, st: State, m: string, seat: string)
    requires SessionOk(cat, st.session)
    ensures var ss := Flow(cat, st, m, seat).0.session;
            var c := FirstCity(AvailableCities(cat), m);
            (ss.source == st.session.source || ss.source == None || ss.source == c)
            && (ss.destination == st.session.destination || ss.destination == None || ss.destination == c)
  {
    match st.session.step {
      case Start =>
      case GetSource => SourceStep(cat, st, m, seat);
      case GetDestination => DestinationStep(cat, st, m, seat);
      case SelectFlight => SelectStep(cat, st, m, seat);
      case GetPassengerDetails => DetailsStepEmptiesOrKeeps(cat, st, m, seat);
    }
  }

  lemma DetailsStepEmptiesOrKeeps(cat: Routes, st: State, m: string, seat: string)
    requires SessionOk(cat, st.session) && st.session.step == GetPassengerDetails
    ensures var ss := Flow(cat, st, m, seat).0.session;
            ss == EmptySession || ss == st.session
  {
    match ReadPassenger(m) {
      case Passenger(name, age) =>
        DetailsStepBooks(cat, st, m, seat, name, age);
      case _ =>
        DetailsStepRejects(cat, st, m, seat);
    }
  }

  /** On the sample catalogue the booking flow can never pick Chicago. */
  lemma ChicagoNeverChosen(st: State, message: string, seat: string)
    requires SessionOk(Flights, st.session)
    requires st.session.source != Some("Chicago") && st.session.destination != Some("Chicago")
    ensures Turn(Flights, st, message, seat).0.session.source != Some("Chicago")
    ensures Turn(Flights, st, message, seat).0.session.destination != Some("Chicago")
  {
    assert Lower("Chicago") == "chicago";
    assert StartsWith("chicago"[1..], "hi");
    assert Contains("chicago", GreetingWords[1]);
    GreetingCityNeverChosen(Flights, st, message, seat, "Chicago");
  }

  /** The `get_destination` step, for a mentioned city other than the origin with a route from it. */
  lemma DestinationFlow(cat: Routes, st: State, m: string, seat: string, d: Option<string>)
    requires SessionOk(cat, st.session) && st.session.step == GetDestination
    requires d == FirstCity(AvailableCities(cat), m)
    requires Named(d) && d != st.session.source && HasRoute(cat, st.session.source.value, d.value)
    ensures Flow(cat, st, m, seat)
            == (st.(session := st.session.(destination := d, step := SelectFlight)),
                FlightsListed(st.session.source.value, d.value, Numbered(cat[st.session.source.value][d.value])))
  {
  }

  /** The `get_source` step, for the first city the message mentions (if any). */
  lemma SourceFlow(cat: Routes, st: State, m: string, seat: string, c: Option<string>)
    requires SessionOk(cat, st.session) && st.session.step == GetSource
    requires c == FirstCity(AvailableCities(cat), m)
    ensures !Named(c) ==> Flow(cat, st, m, seat) == (st, InvalidSource(AvailableCities(cat)))
    ensures Named(c) ==>
              Flow(cat, st, m, seat)
              == (st.(session := st.session.(source := c, step := GetDestination)),
                  SourceChosen(c.value, Others(AvailableCities(cat), c)))
  {
  }

  /**
    * The `get_source` step: the first mentioned city becomes the origin, or
    * nothing changes. A catalogue with an empty city name never gets past
    * this step, since the scan then always finds that name.
    */
  lemma SourceStep(cat: Routes, st: State, m: string, seat: string)
    requires SessionOk(cat, st.session) && st.session.step == GetSource
    ensures var (st', r) := Flow(cat, st, m, seat);
            (st'.session.step == GetDestination <==>
               [] !in CityNames(cat) && exists c :: c in CityNames(cat) && Mentions(m, c))
            && (st'.session.step == GetDestination ==>
                  st' == st.(session := EmptySession.(source := st'.session.source, step := GetDestination))
                  && st'.session.source == FirstCity(AvailableCities(cat), m)
                  && r == SourceChosen(st'.session.source.value, Others(AvailableCities(cat), st'.session.source)))
            && (st'.session.step != GetDestination ==> st' == st && r == InvalidSource(AvailableCities(cat)))
  {
    FirstCityIsLeastMentioned(cat, m);
    if [] in CityNames(cat) {
      EmptyCityFoundFirst(cat, m);
    }
  }

  /**
    * The `get_destination` step: the first mentioned city is refused when it
    * is the origin, lists the offers when the route exists, and otherwise
    * abandons the booking with a reply that no longer knows the origin.
    */
  lemma DestinationStep(cat: Routes, st: State, m: string, seat: string)
    requires SessionOk(cat, st.session) && st.session.step == GetDestination
    ensures var (st', r) := Flow(cat, st, m, seat);
            var d := FirstCity(AvailableCities(cat), m);
            var source := st.session.source.value;
            (st'.session.step == SelectFlight <==> Named(d) && d != st.session.source && HasRoute(cat, source, d.value))
            && (st'.session.step == SelectFlight ==>
                  st' == st.(session := st.session.(destination := d, step := SelectFlight))
                  && r == FlightsListed(source, d.value, Numbered(cat[source][d.value])))
            && (r.NoRoute? <==> Named(d) && d != st.session.source && !HasRoute(cat, source, d.value))
            && (r.NoRoute? ==> st' == st.(session := EmptySession) && r == NoRoute(None, d.value))
            && (st'.session.step != SelectFlight && !r.NoRoute? ==> st' == st)
            && (d == st.session.source ==> r == SameAsSource)
            && ([] in CityNames(cat) ==> st' == st && r == InvalidDestination(Others(AvailableCities(cat), st.session.source)))
  {
    if [] in CityNames(cat) {
      EmptyCityFoundFirst(cat, m);
    }
  }

  // ---------------------------------------------------------------------
  // Choosing an offer
  // ---------------------------------------------------------------------

  /** The `select_flight` step: a number in 1..N picks offer N-1, anything else changes nothing. */
  lemma SelectStep(cat: Routes, st: State, m: string, seat: string)
    requires SessionOk(cat, st.session) && st.session.step == SelectFlight
    ensures var (st', r) := Flow(cat, st, m, seat);
            var offers := cat[st.session.source.value][st.session.destination.value];
            var k := ParseInt(Strip(m));
            (st'.session.step == GetPassengerDetails <==> k.Some? && 1 <= k.value <= |offers|)
            && (st'.session.step == GetPassengerDetails ==>
                  st' == st.(session := st.session.(selectedFlight := Some(offers[k.value - 1]),
                                                    step := GetPassengerDetails))
                  && r == FlightSelected(offers[k.value - 1]))
            && (st'.session.step != GetPassengerDetails ==>
                  st' == st && r == if k.None? then NotAnOption else InvalidOption(|offers|))
  {
  }

  /** Typing the number shown beside an offer selects exactly that offer. */
  lemma DisplayedNumberSelectsOffer(cat: Routes, st: State, k: nat, seat: string)
    requires SessionOk(cat, st.session) && st.session.step == SelectFlight
    requires 1 <= k <= |cat[st.session.source.value][st.session.destination.value]|
    ensures var offers := cat[st.session.source.value][st.session.destination.value];
            Numbered(offers)[k - 1] == NumberedOffer(k, offers[k - 1])
            && Turn(cat, st, Decimal(k), seat)
               == (st.(session := st.session.(selectedFlight := Some(offers[k - 1]), step := GetPassengerDetails)),
                   FlightSelected(offers[k - 1]))
  {
    var s := Decimal(k);
    assert Unpadded(s) by {
      assert IsDigit(s[0]) && IsDigit(s[|s| - 1]);
    }
    StripUnpadded(s);
    LowerOfNoUpper(s);
    assert Normalize(s) == s;
    DigitsAreUnmatched(s);
    ParseDecimal(k);
    TurnDelegates(cat, st, s, seat);
  }

  // ---------------------------------------------------------------------
  // Passenger details
  // ---------------------------------------------------------------------

  /** Details written in the advertised format are read back exactly. */
  lemma ReadPassengerRoundTrip(name: string, age: nat)
    requires name != [] && Unpadded(name) && ',' !in name
    requires age <= 120
    ensures ReadPassenger("name: " + name + ", age: " + Decimal(age)) == Passenger(name, age)
  {
    var digits := Decimal(age);
    DetailsSplit(name, digits);
    AgeSegment(digits);
    NameSegment(name);
    LastValuePair("name: " + name, " age: " + digits, "name:");
    LastValuePair("name: " + name, " age: " + digits, "age:");
    ParseDecimal(age);
  }

  /** The comma splits the advertised format into its name and age segments. */
  lemma DetailsSplit(name: string, digits: string)
    requires ',' !in name && AllDigits(digits)
    ensures SplitOn("name: " + name + ", age: " + digits, ',') == ["name: " + name, " age: " + digits]
  {
    var first := "name: " + name;
    var second := " age: " + digits;
    assert "name: " + name + ", age: " + digits == first + [','] + second;
    assert ',' !in first;
    assert ',' !in second by {
      forall i | 0 <= i < |second| ensures second[i] != ',' {
        if i >= 6 { assert second[i] == digits[i - 6]; }
      }
    }
    SplitOnFirst(first, second, ',');
    SplitOnNone(second, ',');
  }

  /** Of two segments, the second one's value wins when it has one. */
  lemma LastValuePair(a: string, b: string, key: string)
    ensures LastValue([a, b], key)
            == if SegmentValue(b, key).Some? then SegmentValue(b, key) else SegmentValue(a, key)
  {
    var ps, qs := [a, b], [a];
    assert ps[|ps| - 1] == b && ps[..|ps| - 1] == qs;
    assert qs[|qs| - 1] == a && qs[..|qs| - 1] == [];
    assert LastValue(ps, key) == if SegmentValue(b, key).Some? then SegmentValue(b, key) else LastValue(qs, key);
    assert LastValue(qs, key) == if SegmentValue(a, key).Some? then SegmentValue(a, key) else None;
  }

  /** Lower-casing a string that begins with a lower-case prefix keeps that prefix. */
  lemma LowerKeepsPrefix(p: string, s: string)
    requires NoUpper(p)
    ensures StartsWith(Lower(p + s), p)
  {
    var l := Lower(p + s);
    forall i | 0 <= i < |p| ensures l[i] == p[i] {
      assert (p + s)[i] == p[i];
    }
    assert l[..|p|] == p;
  }

  /**
    * A segment "key value", after any leading spaces and with spaces between
    * key and value, yields the value for that key.
    */
  lemma KeyedSegment(pad: string, key: string, gap: string, value: string)
    requires forall i :: 0 <= i < |pad| ==> IsSpace(pad[i])
    requires forall i :: 0 <= i < |gap| ==> IsSpace(gap[i])
    requires key != [] && !IsSpace(key[0]) && NoUpper(key)
    requires value != [] && Unpadded(value)
    ensures SegmentValue(pad + (key + (gap + value)), key) == Some(value)
  {
    var rest := gap + value;
    var a := key + rest;
    assert Unpadded(a) by {
      assert a[0] == key[0];
      assert a[|a| - 1] == value[|value| - 1];
    }
    assert pad + a + [] == pad + a;
    StripPadded(pad, a, []);
    LowerKeepsPrefix(key, rest);
    assert a[|key|..] == rest;
    assert gap + value + [] == rest;
    StripPadded(gap, value, []);
  }

  lemma AgeSegment(digits: string)
    requires digits != [] && AllDigits(digits)
    ensures SegmentValue(" age: " + digits, "age:") == Some(digits)
    ensures SegmentValue(" age: " + digits, "name:") == None
  {
    AgeKey(" age: ", "age:", digits);
    NotOtherKey(" age: ", "age:", "name:", digits);
  }

  lemma AgeKey(prefix: string, key: string, digits: string)
    requires key == "age:" && prefix == " " + key + " "
    requires digits != [] && AllDigits(digits)
    ensures SegmentValue(prefix + digits, key) == Some(digits)
  {
    assert Unpadded(digits) by {
      assert IsDigit(digits[0]) && IsDigit(digits[|digits| - 1]);
    }
    assert prefix + digits == " " + (key + (" " + digits));
    KeyedSegment(" ", key, " ", digits);
  }

  lemma NotOtherKey(prefix: string, key: string, other: string, digits: string)
    requires key == "age:" && prefix == " " + key + " " && other == "name:"
    requires digits != [] && AllDigits(digits)
    ensures SegmentValue(prefix + digits, other) == None
  {
    var a := key + (" " + digits);
    assert prefix + digits == " " + a;
    assert Unpadded(a) by {
      assert a[|a| - 1] == digits[|digits| - 1];
      assert IsDigit(digits[|digits| - 1]);
    }
    assert " " + a + [] == " " + a;
    StripPadded(" ", a, []);
    assert Strip(prefix + digits) == a;
    var l := Lower(a);
    assert l[0] == LowerChar(a[0]) == 'a';
    assert other[0] == 'n';
  }

  lemma NameSegment(name: string)
    requires name != [] && Unpadded(name)
    ensures SegmentValue("name: " + name, "name:") == Some(name)
  {
    NameKey("name: ", "name:", name);
  }

  lemma NameKey(prefix: string, key: string, name: string)
    requires key == "name:" && prefix == key + " "
    requires name != [] && Unpadded(name)
    ensures SegmentValue(prefix + name, key) == Some(name)
  {
    assert prefix + name == [] + (key + (" " + name));
    KeyedSegment([], key, " ", name);
  }

  /** The `get_passenger_details` step books once the parser accepts the details. */
  lemma DetailsStepBooks(cat: Routes, st: State, m: string, seat: string, name: string, age: int)
    requires SessionOk(cat, st.session) && st.session.step == GetPassengerDetails
    requires ReadPassenger(m) == Passenger(name, age)
    ensures Flow(cat, st, m, seat)
            == Complete(st.(session := st.session.(passengerName := Some(name), passengerAge := Some(age))), seat)
  {
  }

  /** The `get_passenger_details` step reports a parser error and changes nothing. */
  lemma DetailsStepRejects(cat: Routes, st: State, m: string, seat: string)
    requires SessionOk(cat, st.session) && st.session.step == GetPassengerDetails
    requires !ReadPassenger(m).Passenger?
    ensures Flow(cat, st, m, seat).0 == st
    ensures ReadPassenger(m).MissingField? ==> Flow(cat, st, m, seat).1 == DetailsFormat
    ensures ReadPassenger(m).AgeNotInteger? ==> Flow(cat, st, m, seat).1 == AgeNotNumber
    ensures ReadPassenger(m).AgeInvalid? ==> Flow(cat, st, m, seat).1 == AgeOutOfRange
  {
  }

  // ---------------------------------------------------------------------
  // Completing a booking
  // ---------------------------------------------------------------------

  /**
    * A confirmed booking copies the session, carries the counter as its
    * number, is appended to the ledger with its seat recorded under its
    * flight key; the counter advances by one and the session starts over.
    */
  lemma ConfirmedBookingRecordsSession(st: State, seat: string)
    requires Filled(st.session)
    requires Complete(st, seat).1.Confirmed?
    ensures var (st', r) := Complete(st, seat);
            var ss := st.session;
            var b := r.booking;
            SerialOf(b.bookingNumber) == st.counter
            && b.passengerName == ss.passengerName.value && b.passengerAge == ss.passengerAge.value
            && b.source == ss.source.value && b.destination == ss.destination.value
            && Offer(b.airline, b.departureTime, b.price, b.duration) == ss.selectedFlight.value
            && b.seatNumber == seat
            && st'.bookings == st.bookings + [b]
            && st'.seats == st.seats[BookingKey(b) := Issued(st.seats, BookingKey(b)) + [seat]]
            && st'.counter == st.counter + 1 && st'.session == EmptySession
  {
    LedgerProperties.SerialOfBookingNumber(st.counter);
  }

  /**
    * With the invariant, a completion fails with `FlightFull` exactly when
    * all 180 seats of the flight key are issued; it then records nothing but
    * still consumes a booking number and ends the session.
    */
  lemma FlightFullExactlyWhenSoldOut(cat: Routes, st: State, seat: string)
    requires LedgerOk(cat, st) && Filled(st.session)
    ensures var key := FlightKey(st.session.source.value, st.session.destination.value,
                                 st.session.selectedFlight.value.airline);
            (Complete(st, seat).1 == FlightFull <==> |Issued(st.seats, key)| >= Capacity)
            && (Complete(st, seat).1 == FlightFull ==>
                  Complete(st, seat).0 == st.(session := EmptySession, counter := st.counter + 1))
  {
    var key := FlightKey(st.session.source.value, st.session.destination.value,
                         st.session.selectedFlight.value.airline);
    var taken := Issued(st.seats, key);
    if key in st.seats {
      forall k | 0 <= k < |taken| ensures IsSeatCode(taken[k]) {
        IssuedSeatIsSeatCode(cat, st, key, k);
      }
    }
    FreeSeatIffRoom(taken);
  }

  /**
    * Seats are tracked per flight key. Two flights share a key only when
    * they have the same source, destination and airline, as long as the
    * city names hold no '-' (the key ("A-B", "C") would also be the key of
    * ("A", "B-C")).
    */
  lemma FlightKeyInjective(s1: string, d1: string, a1: string, s2: string, d2: string, a2: string)
    requires '-' !in s1 && '-' !in d1 && '-' !in s2 && '-' !in d2
    requires FlightKey(s1, d1, a1) == FlightKey(s2, d2, a2)
    ensures s1 == s2 && d1 == d2 && a1 == a2
  {
    var parts := SplitOn(FlightKey(s1, d1, a1), '-');
    KeyParts(s1, d1, a1);
    KeyParts(s2, d2, a2);
    assert parts[0] == s1 && parts[0] == s2;
    assert parts[1] == d1 && parts[1] == d2;
    assert parts[2..] == SplitOn(a1, '-') && parts[2..] == SplitOn(a2, '-');
    SplitOnJoin(a1, '-');
    SplitOnJoin(a2, '-');
  }

  lemma KeyParts(source: string, destination: string, airline: string)
    requires '-' !in source && '-' !in destination
    ensures SplitOn(FlightKey(source, destination, airline), '-') == [source, destination] + SplitOn(airline, '-')
  {
    assert FlightKey(source, destination, airline) == source + ['-'] + (destination + ['-'] + airline);
    SplitOnFirst(source, destination + ['-'] + airline, '-');
    SplitOnFirst(destination, airline, '-');
  }

  lemma IssuedSeatIsSeatCode(cat: Routes, st: State, key: string, k: nat)
    requires LedgerOk(cat, st) && key in st.seats && k < |st.seats[key]|
    ensures IsSeatCode(st.seats[key][k])
  {
    SeatsOfSeatCodes(st.bookings, key);
  }

  lemma {:induction false} SeatsOfSeatCodes(bookings: seq<Booking>, key: string)
    requires forall i :: 0 <= i < |bookings| ==> IsSeatCode(bookings[i].seatNumber)
    ensures forall k :: 0 <= k < |SeatsOf(bookings, key)| ==> IsSeatCode(SeatsOf(bookings, key)[k])
  {
    if bookings != [] {
      SeatsOfSeatCodes(bookings[..|bookings| - 1], key);
    }
  }

  /**
    * The seat draw of `generate_seat_number` as written: once all 180 codes
    * are issued for a key (`taken` holds 180 distinct seat codes), every row
    * and letter it can draw is already taken, so its redraw loop never ends.
    */
  lemma EveryDrawTakenWhenSoldOut(taken: seq<string>, row: nat, letter: char)
    requires NoDup(taken) && forall k :: 0 <= k < |taken| ==> IsSeatCode(taken[k])
    requires |taken| >= Capacity
    requires 1 <= row <= Rows && letter in Letters
    ensures !HasFreeSeat(taken)
    ensures SeatCode(row, letter) in taken
  {
    FreeSeatIffRoom(taken);
    SeatCodeRange(SeatCode(row, letter));
    var i :| 0 <= i < |AllSeatCodes()| && AllSeatCodes()[i] == SeatCode(row, letter);
    assert AllSeatCodes()[i] in taken;
  }

  /** The ledger changes only when the details step accepts the passenger; the counter then moves by one. */
  lemma LedgerChangesOnlyOnCompletion(cat: Routes, st: State, message: string, seat: string)
    requires SessionOk(cat, st.session)
    ensures var st' := Turn(cat, st, message, seat).0;
            (st'.counter, st'.seats, st'.bookings) != (st.counter, st.seats, st.bookings) ==>
              st.session.step == GetPassengerDetails
              && (Classify(Normalize(message)) == BookFlight || Classify(Normalize(message)) == Unmatched)
              && ReadPassenger(Normalize(message)).Passenger?
              && st'.counter == st.counter + 1
  {
    var m := Normalize(message);
    TurnCases(cat, st, message, seat);
    if st.session.step == GetPassengerDetails && (Classify(m) == BookFlight || Classify(m) == Unmatched) {
      TurnDelegates(cat, st, message, seat);
      if ReadPassenger(m).Passenger? {
        AcceptedDetailsAdvanceCounter(cat, st, m, seat);
      }
    }
  }

  lemma AcceptedDetailsAdvanceCounter(cat: Routes, st: State, m: string, seat: string)
    requires SessionOk(cat, st.session) && st.session.step == GetPassengerDetails
    requires ReadPassenger(m).Passenger?
    ensures Flow(cat, st, m, seat).0.counter == st.counter + 1
  {
    var d := ReadPassenger(m);
    DetailsStepBooks(cat, st, m, seat, d.name, d.age);
  }
}
