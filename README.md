# Airline AI assistant: the booking conversation, verified

This project models `AirlineAIAssistant` from `airline.py`: the chat
assistant that answers one line of user input at a time. It can greet,
check a route, walk the user through booking a flight, and show help or a
report. The booking walk goes step by step: departure city, destination
city, numbered flight option, then passenger name and age. A confirmed
booking gets a sequential number `FL1000`, `FL1001`, … and a seat code
(row 1–30, letter A–F) that is not yet issued on that flight. The model
proves properties of both.

The model has three layers:

- **Values** (`catalog.dfy`, `seats.dfy`, `conversation.dfy`):
  - the sample route catalogue;
  - the seat grid;
  - the session (`current_session`) and the assistant's whole state: session, booking counter, seats issued per flight key, and the booking ledger;
  - the function `Conversation.Turn`, which is `process_message` as a pure transition. It takes a state, one input line and the seat the random draw settles on, and returns the next state and a tagged reply. Each `Reply` constructor stands for one of the source's response texts and carries the data that text shows.
- **The object** (`assistant.dfy`): class `Assistant.AirlineAssistant`.
  - It keeps the source's fields (`bookings`, `booking_counter`, `seat_assignments`, `current_session`) and updates them in place.
  - Its methods copy the source's control flow, including the city-scan loop and the passenger-details loop.
  - Each method is proved to produce the state and reply that the functions of `Conversation` give.
  - `ProcessMessage` and `ChatbotResponse` keep the invariant `Valid()`.
- **Properties** (`properties.dfy`, `ledger_properties.dfy`, `scenarios.dfy`):
  - **Per turn:** what each command and each booking step does, stated independently of the transition function.
  - **The invariant `Consistent`:**
    - every session field the current step relies on is set and names the catalogue;
    - every ledger entry is a catalogue offer with a valid passenger and seat;
    - booking numbers strictly increase and stay below the counter;
    - the issued seats of each flight key are exactly the seats of its bookings, with no duplicates;
    - this invariant is preserved by every turn.
  - **Concrete conversations** with the sample catalogue.

### Behaviours of the code worth knowing

- **City order.** `get_available_cities` (airline.py:72-77) returns the cities sorted. The help text (airline.py:244) lists them in the catalogue's order instead: New York, Los Angeles, Miami, Chicago, Seattle. The city scan of the booking steps goes through the sorted list, so it picks the alphabetically first city the input mentions: `ConversationProperties.FirstCityIsLeastMentioned`.
- **"Chicago" is a greeting.** The greeting test (airline.py:202) is a substring test, and "chicago" contains "hi". Any input naming Chicago resets the session and shows the welcome text. The catalogue has a New York → Chicago route (airline.py:22-27), but "Chicago" typed at a city step ends the booking instead (`Scenarios.TurnChicago`). Chicago can never be chosen as departure or destination (`ConversationProperties.ChicagoNeverChosen`).
- **The check command reads one word per city.** It takes the single token after "from" and the one after "to" (airline.py:208-216). The help text's own example, "Check flights from New York to Los Angeles" (airline.py:246, and the input box's placeholder at airline.py:465), is therefore read as "New" → "Los". With the sample catalogue the check command never lists offers, because every route there starts or ends in a two-word city: `ConversationProperties.CheckNeverListsSampleOffers`.
- **Lower-cased input.** `process_message` lower-cases the input (airline.py:199) before the booking steps see it, so booked names are stored lower-cased ("ann lee").
- **An empty city name counts as none.** The city steps test the scan's result for truth (airline.py:271, 287). Every input contains the empty string, and it sorts first. So a catalogue with an empty city name never gets past the departure step: `ConversationProperties.SourceStep`.

## Model

| member | source | states |
|---|---|---|
| Catalog.AvailableCities | airline.py:72-77 | the city list is strictly sorted and holds exactly the origins and destinations of the catalogue |
| Catalog.SampleCities | airline.py:11-55 | with the sample catalogue the list is Chicago, Los Angeles, Miami, New York, Seattle |
| Catalog.SampleCityNames | airline.py:11-55 | the sample catalogue names exactly five cities |
| Catalog.Others | airline.py:274 | the destinations offered are the listed cities other than the chosen source |
| Catalog.OthersWithout | airline.py:274 | leaving out a city that is not listed leaves the list unchanged |
| Catalog.OthersRemovesOne | airline.py:274 | when the chosen city is listed once, the destinations offered are all the other cities, in list order |
| Catalog.SortedOnce | airline.py:77 | each city occurs once in the sorted list |
| Catalog.AvailabilityMeaning | airline.py:79-97 | `CheckFlightAvailability`: same city up to case is rejected; otherwise offers are listed exactly when the catalogue has the ordered pair, numbered from 1 in catalogue order; otherwise no flights |
| Catalog.AvailabilityNotSymmetric | airline.py:84-97 | a route from A to B does not imply one from B to A |
| Catalog.AvailabilityCaseSensitive | airline.py:84 | the catalogue lookup is case-sensitive: "miami" to "new york" finds nothing while "Miami" to "New York" does |
| Seats.AllSeatCodes | airline.py:104-108 | the seat grid has 180 codes |
| Seats.SeatCodeRange | airline.py:104-108 | `SeatCode`: a seat code is exactly a row 1–30 followed by a letter A–F |
| Seats.SeatCodeInjective | airline.py:108 | different rows or letters give different seat codes |
| Seats.AllSeatCodesDistinct | airline.py:104-108 | the 180 codes are pairwise distinct |
| Seats.FreeSeatIffRoom | airline.py:105-112 | a duplicate-free list of issued seat codes leaves a free code exactly when it has fewer than 180 entries |
| Text.Lower | airline.py:199 | the result keeps the length and holds no upper-case letter; each upper-case letter becomes the letter 32 code points above it (A–Z to a–z), and every other character is kept |
| Text.LowerIdempotent | airline.py:199 | lower-casing twice is lower-casing once |
| Text.TrimStart | airline.py:199 | only leading whitespace is removed, and all of it |
| Text.TrimEnd | airline.py:199 | only trailing whitespace is removed, and all of it |
| Text.StripSlice | airline.py:199 | the stripped text is a slice of the input with only whitespace before and after it, and it neither starts nor ends with whitespace |
| Text.StripPadded | airline.py:199 | stripping an unpadded text with any whitespace before and after it gives exactly that text |
| Text.ContainsAt | airline.py:202 | the substring test holds exactly when the word occurs at some position |
| Text.ContainsTransitive | airline.py:202 | a substring of a substring is a substring |
| Text.SplitBlank | airline.py:210 | whitespace-only text splits into no words |
| Text.SplitWord | airline.py:210 | after any leading whitespace, the first word is the whole run of non-whitespace, and the rest of the text splits after it: the words are the maximal whitespace-free runs, in order |
| Text.TakeWord | airline.py:210 | a word is the longest whitespace-free prefix |
| Text.IndexOf | airline.py:212-213 | the index found holds the first occurrence; none exactly when the token is absent |
| Text.Title | airline.py:215-216 | title-casing keeps length and every non-letter; a letter stays the same letter, upper-case when it starts a word and lower-case after a letter |
| Text.SplitOn | airline.py:346 | splitting on ',' yields at least one part and no part holds ',' |
| Text.SplitOnJoin | airline.py:346 | joining the parts with the separator gives back the input |
| Text.SplitOnFirst | airline.py:346 | the first part is the text before the first separator |
| Text.ParseInt | airline.py:320 | a number is read exactly from an optional sign followed by digits; its value is the digits' value, negated after "-" |
| Text.ParseSigned | airline.py:320 | a sign in front of a printed natural reads as that natural with the sign |
| Text.ParseLeadingZeros | airline.py:320 | leading zeros do not change the value read ("007" reads as 7) |
| Text.ParseDecimal | airline.py:320 | reading back a printed natural gives that natural |
| Text.Decimal | airline.py:381 | a printed natural is a non-empty digit string that starts with 0 only for 0 |
| Text.DecimalRoundTrip | airline.py:381 | the printed digits of n have the value n |
| Text.DecimalInjective | airline.py:381 | different counters print differently |
| Text.SortedList | airline.py:77 | sorting a set gives a strictly sorted list of exactly its elements |
| Text.SortedUnique | airline.py:77 | two strictly sorted lists with the same elements are equal |
| Text.LexTransitive | airline.py:77 | string order is transitive |
| Text.LexTotal | airline.py:77 | string order is total on distinct strings |
| Conversation.FirstCityIndex | airline.py:264-269 | the index found names a mentioned city and no earlier city is mentioned; none means no city is mentioned |
| Assistant.ScanCities | airline.py:264-269 | the scan loop returns the first listed city that the lower-cased input contains |
| Assistant.ReadIntent | airline.py:202-252 | the keyword tests, run in the source's order, give the intent `Classify` gives |
| ConversationProperties.ClassifyPriority | airline.py:202-252 | `Classify`: the first keyword list the input hits decides: greeting, then check, book, report, help, reset; the input is unmatched exactly when it hits none |
| Assistant.SegmentCases | airline.py:350-355 | a segment starting "name:" gives only a name, one starting "age:" only an age, any other neither |
| Assistant.ScanDetails | airline.py:350-355 | the segment loop keeps the value of the last "name:" and of the last "age:" segment |
| Assistant.ParseDetails | airline.py:346-371 | the details are read as `ReadPassenger` says: a missing field, an age that is not a number, an age out of range, or the name and age |
| Assistant.LastValueStep | airline.py:350-355 | a later segment with the key overrides the earlier value |
| Assistant.KeysDisjoint | airline.py:352-354 | no segment starts with both "name:" and "age:" |
| Assistant.AirlineAssistant.constructor | airline.py:9-70 | a new assistant holds the sample catalogue, counter 1000, no seats, no bookings, an empty session, and is consistent |
| Assistant.AirlineAssistant.ResetSession | airline.py:186-195 | the session is cleared and nothing else changes |
| Assistant.AirlineAssistant.GenerateSeatNumber | airline.py:99-112 | the seat drawn is a grid code not yet issued for the key, appended to the key's list; nothing else changes |
| Assistant.AirlineAssistant.CompleteBooking | airline.py:377-433 | state and reply are those of `Complete` on the seat drawn, and that seat was free |
| Assistant.AirlineAssistant.ChooseSource | airline.py:263-278 | the departure step does what `Flow` says and never confirms a booking |
| Assistant.AirlineAssistant.ChooseDestination | airline.py:280-316 | the destination step does what `Flow` says and never confirms a booking |
| Assistant.AirlineAssistant.SelectOption | airline.py:318-341 | the option step does what `Flow` says and never confirms a booking |
| Assistant.AirlineAssistant.TakeDetails | airline.py:343-373 | the details step does what `Flow` says, with a fresh seat |
| Assistant.AirlineAssistant.HandleBookingFlow | airline.py:259-375 | the booking flow does what `Flow` says and keeps the assistant consistent |
| Assistant.AirlineAssistant.RunCommand | airline.py:202-250 | greeting, check, report, help and reset do what `Turn` says, never confirm a booking and keep the assistant consistent |
| Assistant.AirlineAssistant.RunBooking | airline.py:224-255 | the book command and unmatched input do what `Turn` says, with a fresh seat, and keep the assistant consistent |
| Assistant.AirlineAssistant.ProcessMessage | airline.py:197-257 | one message does what `Turn` says, with a fresh seat, and keeps the assistant consistent |
| Assistant.AirlineAssistant.ChatbotResponse | airline.py:438-443 | the chat entry point does what `Respond` says and keeps the assistant consistent |
| ConversationProperties.GreetingInside | airline.py:202 | any input containing a word that contains a greeting keyword is a greeting |
| ConversationProperties.ChicagoIsAGreeting | airline.py:202 | any input containing "chicago" is a greeting |
| ConversationProperties.StartOverIsAGreeting | airline.py:202-248 | "start over" is caught by the greeting test before the reset test |
| ConversationProperties.DigitsAreUnmatched | airline.py:202-252 | an input of digits matches no command, so it reaches the booking flow |
| ConversationProperties.ReadOnlyCommandsKeepState | airline.py:207-246 | check, report and help leave the whole state unchanged and answer with the check result, the report or the help text |
| ConversationProperties.CheckReplyAnswers | airline.py:207-222 | `CheckReply`: the check command answers with an availability result exactly when it read a route, and with the usage hint otherwise |
| ConversationProperties.ResetCommandsClearSession | airline.py:202-205 | greeting and reset clear only the session and answer welcome or reset |
| ConversationProperties.StartOfBooking | airline.py:224-228 | outside a booking, a book command moves to the departure step and asks for it; unmatched input is not understood and changes nothing |
| ConversationProperties.TurnDelegates | airline.py:229-255 | during a booking, book-keyword and unmatched input go to the booking flow |
| ConversationProperties.BlankMessageIgnored | airline.py:438-443 | `Respond` (`chatbot_response`): blank input gets the empty-message reply and changes nothing; any other input is answered by the assistant |
| ConversationProperties.TurnAnswers | airline.py:202-257 | a message the booking flow does not handle never gets the empty-message reply and keeps the ledger |
| ConversationProperties.TurnCases | airline.py:197-257 | `Turn` (`process_message`): a turn never answers with the empty-message reply, and the ledger changes only on accepted passenger details |
| ConversationProperties.FlowCases | airline.py:259-375 | `Flow` (`handle_booking_flow`): the booking flow never answers with the empty-message reply, and touches the ledger only on accepted details |
| ConversationProperties.RoutingStepKeepsLedger | airline.py:263-341 | the city and option steps never touch the ledger and never give the empty-message reply |
| ConversationProperties.ParsedRouteShape | airline.py:208-216 | `ParseRoute`: a parsed route is the title-cased tokens after the first "from" and the first "to", with from before to |
| ConversationProperties.ParsedRouteComplete | airline.py:208-216 | every such pair of tokens is what the check command reads |
| ConversationProperties.ParsedRouteIsSingleWords | airline.py:210-216 | each city read by the check command is a single word |
| ConversationProperties.CheckNeverListsSampleOffers | airline.py:207-222 | with the sample catalogue the check command never lists offers |
| ConversationProperties.TwoWordCities | airline.py:215-216 | a single word is never "New York" or "Los Angeles" |
| ConversationProperties.SampleRouteEnds | airline.py:11-55 | every sample route starts or ends in New York or Los Angeles |
| ConversationProperties.FirstCityIsLeastMentioned | airline.py:261-269 | `FirstCity`: the city the scan finds is the alphabetically least city the input mentions; none means no city is mentioned |
| ConversationProperties.EmptyCityFoundFirst | airline.py:264-269 | when the catalogue has an empty city name, the scan finds it on every input |
| ConversationProperties.FirstInSortedIsLeast | airline.py:264-269 | on a sorted list the first mentioned city is the least mentioned one |
| ConversationProperties.GreetingCityNeverChosen | airline.py:202-285 | a city whose lower-cased name contains a greeting keyword never becomes source or destination |
| ConversationProperties.FlowNeverPicksGreetingCity | airline.py:263-290 | on input that passed the greeting test, a booking step never stores as source or destination a city whose lower-cased name holds a greeting keyword |
| ConversationProperties.FlowStoresFirstCity | airline.py:259-375 | a booking step leaves source and destination as they were, clears them, or stores the first city the input mentions |
| ConversationProperties.DetailsStepEmptiesOrKeeps | airline.py:343-433 | the details step either clears the session (booking completed or flight full) or leaves it unchanged |
| ConversationProperties.ChicagoNeverChosen | airline.py:202-285 | Chicago never becomes source or destination |
| ConversationProperties.SourceStep | airline.py:263-278 | the departure step advances exactly when the catalogue has no empty city name and the input mentions some city; it stores the first one and offers the others; otherwise it reprompts and changes nothing |
| ConversationProperties.DestinationStep | airline.py:280-316 | the destination step lists the offers exactly when the first mentioned city is non-empty, differs from the source and has a route; no route resets the session; the same city, no city or an empty name reprompts and changes nothing |
| ConversationProperties.SelectStep | airline.py:318-341 | the option step selects offer k exactly when the input reads as k between 1 and the number of offers; otherwise it rejects with the right message and changes nothing |
| ConversationProperties.DisplayedNumberSelectsOffer | airline.py:303-325 | typing the number shown next to an offer selects that offer |
| ConversationProperties.ReadPassengerRoundTrip | airline.py:346-364 | `ReadPassenger`: "name: N, age: A" reads back as name N and age A |
| ConversationProperties.DetailsSplit | airline.py:346 | splitting the advertised format on ',' gives the name segment and the age segment |
| ConversationProperties.LastValuePair | airline.py:350-355 | `LastValue`: of two segments, the later one's value wins when it has one |
| ConversationProperties.KeyedSegment | airline.py:350-355 | `SegmentValue`: a segment of optional spaces, the key, spaces and a value yields that value |
| ConversationProperties.AgeSegment | airline.py:350-355 | an age segment yields its digits for "age:" and nothing for "name:" |
| ConversationProperties.NameSegment | airline.py:350-353 | a name segment yields the name |
| ConversationProperties.DetailsStepBooks | airline.py:357-367 | accepted details are stored in the session and the booking is completed |
| ConversationProperties.DetailsStepRejects | airline.py:357-373 | rejected details change nothing and answer format, not-a-number or out-of-range as the case is |
| ConversationProperties.ConfirmedBookingRecordsSession | airline.py:377-410 | `Complete` (`complete_booking`): a confirmation is numbered with the counter and copies passenger, route, offer and seat; it is appended to the ledger, its seat to the flight key's list, the counter moves by one and the session is cleared |
| ConversationProperties.FlightFullExactlyWhenSoldOut | airline.py:377-386 | the corrected completion reports a full flight exactly when 180 seats are issued for the key; it then only moves the counter and clears the session |
| ConversationProperties.EveryDrawTakenWhenSoldOut | airline.py:105-112 | with 180 distinct seat codes issued for a key, every row and letter the draw can pick is taken |
| ConversationProperties.FlightKeyInjective | airline.py:384 | `FlightKey`: two flights share a seat list only when source, destination and airline agree, provided the city names hold no "-" |
| ConversationProperties.IssuedSeatIsSeatCode | airline.py:108-111 | in a consistent ledger every issued seat is a grid code |
| ConversationProperties.LedgerChangesOnlyOnCompletion | airline.py:363-367 | the ledger changes only when the details step accepts the passenger, and the counter then moves by one |
| ConversationProperties.AcceptedDetailsAdvanceCounter | airline.py:381-382 | accepted details always move the counter, even when the flight is full |
| LedgerProperties.InitialConsistent | airline.py:57-70 | the initial state is consistent |
| Conversation.BookingNumber | airline.py:381 | a booking number is "FL" followed by a decimal numeral with no leading zero |
| LedgerProperties.SerialOfBookingNumber | airline.py:381 | `BookingNumber`: the number printed from counter n reads back as n |
| LedgerProperties.NoUpperNormalize | airline.py:199 | `Normalize`: the normalised input holds no upper-case letter |
| LedgerProperties.ReadPassengerValid | airline.py:357-364 | accepted details have a lower-case name and an age from 0 to 120 |
| LedgerProperties.CompleteKeepsLedger | airline.py:377-410 | completion with a fresh seat keeps the ledger consistent and clears the session |
| LedgerProperties.FlowKeepsConsistent | airline.py:259-375 | every booking step preserves the invariant |
| LedgerProperties.TurnKeepsConsistent | airline.py:197-257 | every message preserves the invariant |
| LedgerProperties.RespondKeepsConsistent | airline.py:438-443 | every chat input preserves the invariant |
| LedgerProperties.BookedSeatsDistinct | airline.py:99-112 | two bookings on the same flight key never share a seat |
| LedgerProperties.BookingNumbersIncrease | airline.py:381-382 | booking numbers strictly increase along the ledger, so they are unique |
| Scenarios.TurnBook | airline.py:224-228 | "book" outside a booking asks for the departure city and lists the five sample cities |
| Scenarios.TurnNewYork | airline.py:263-275 | "New York" at the departure step stores it and offers the four other cities |
| Scenarios.TurnLosAngeles | airline.py:280-310 | "Los Angeles" next lists the three sample offers, numbered 1 to 3 |
| Scenarios.TurnAtlantis | airline.py:276-278 | an unknown city at the departure step reprompts and changes nothing |
| Scenarios.TurnOne | airline.py:318-337 | "1" selects the SkyWings offer |
| Scenarios.TurnDetails | airline.py:343-433 | "Name: Ann Lee, Age: 29" confirms a SkyWings booking for "ann lee", aged 29, numbered with the counter, on the drawn seat |
| Scenarios.SampleBooking | airline.py:197-433 | the five-message booking conversation from any consistent idle state, turn by turn |
| Scenarios.FirstBookingOfTheDay | airline.py:57-59 | the first booking of a new assistant is FL1000, leaves a consistent state, and the next number is FL1001 |
| Scenarios.TurnChicago | airline.py:202-205 | "Chicago" resets the session and answers with the welcome text |

## Left out

- The Gradio interface (`create_interface`, `launch`) is not modelled; it is only display wiring.
- The chat history argument of `chatbot_response` is not modelled; the function does not use it.
- `create_ticket_file` is not modelled: it is file output, and its status line only appears in the confirmation text.
- `generate_summary_report` is modelled only as the reply `SummaryReport`, which changes no state. Writing the report file and the revenue total are file output.
- The booking date (`datetime.now()`) is not modelled. `Booking` has no date field.
- The random seat draw (`random.randint`, `random.choice`) is modelled as a nondeterministic choice among the free seats. The transition functions take the drawn seat as a parameter.
- Response texts are tags (`Reply`) carrying the data they show; the wording and emoji are not modelled.
- `Text.ParseInt` models `int()` on already stripped ASCII text: an optional sign and decimal digits. Python also accepts underscores between digits and non-ASCII digits; the model rejects both.
- `Text.Lower` and `Text.Title` map ASCII letters only. Python's Unicode case mapping is not modelled.
- `Assistant.AirlineAssistant.GenerateSeatNumber` requires a free seat, because the loop as written never ends on a full flight (see Findings). Its caller `CompleteBooking` checks for that case first.
- `Assistant.AirlineAssistant.CompleteBooking`: the `except Exception` branch is not modelled separately. No operation the model performs there can raise. Its effect, resetting the session after the counter moved, is what the full-flight case does.
- ConversationProperties.FlightKeyInjective: holds only for city names without "-". With one, two different flights can share a key, as ("A-B", "C") and ("A", "B-C") do. The sample catalogue has no such name.
- budget.py is not part of this model.

## Findings

| source | as written | input that shows it | evidently intended | confidence | as-written member | corrected member |
|---|---|---|---|---|---|---|
| airline.py:105-112 | `generate_seat_number` redraws until it finds a seat not yet issued for the flight key, with no bound | the 181st confirmed booking on one flight (same source, destination and airline), after 180 earlier ones | report that the flight is full instead of looping forever | high (not executed) | ConversationProperties.EveryDrawTakenWhenSoldOut | ConversationProperties.FlightFullExactlyWhenSoldOut |
