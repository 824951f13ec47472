/**
  * The assistant's invariant (module Conversation, `Consistent`) holds
  * initially and is kept by every turn: the session's fields match its
  * step, booking numbers increase, and no seat is issued twice on a flight.
  */
module LedgerProperties {
  import opened Wrappers
  import opened Text
  import opened Catalog
  import opened Seats
  import opened Conversation

  lemma InitialConsistent(cat: Routes)
    ensures Consistent(cat, InitialState)
  {
  }

  /** Reading a booking number back gives the counter it was printed from. */
  lemma SerialOfBookingNumber(n: nat)
    ensures SerialOf(BookingNumber(n)) == n
  {
    var s := BookingNumber(n);
    assert s[2..] == Decimal(n);
    DecimalRoundTrip(n);
  }

  lemma SeatsOfAppend(bookings: seq<Booking>, b: Booking, key: string)
    ensures SeatsOf(bookings + [b], key)
            == SeatsOf(bookings, key) + (if BookingKey(b) == key then [b.seatNumber] else [])
  {
    assert (bookings + [b])[..|bookings|] == bookings;
  }

  lemma {:induction false} SeatsOfUnusedKey(bookings: seq<Booking>, key: string)
    requires forall i :: 0 <= i < |bookings| ==> BookingKey(bookings[i]) != key
    ensures SeatsOf(bookings, key) == []
  {
    if bookings != [] {
      SeatsOfUnusedKey(bookings[..|bookings| - 1], key);
    }
  }

  // ---------------------------------------------------------------------
  // Lower-case text stays lower-case under the parsers
  // ---------------------------------------------------------------------

  lemma NoUpperNormalize(message: string)
    ensures NoUpper(Normalize(message))
  {
  }

  lemma NoUpperSlice(s: string, a: nat, b: nat)
    requires NoUpper(s) && a <= b <= |s|
    ensures NoUpper(s[a..b])
  {
    forall i | 0 <= i < b - a ensures !IsUpper(s[a..b][i]) {
      assert s[a..b][i] == s[a + i];
    }
  }

  lemma NoUpperStrip(s: string)
    requires NoUpper(s)
    ensures NoUpper(Strip(s))
  {
    var t := TrimStart(s);
    NoUpperSlice(s, |s| - |t|, |s|);
    NoUpperSlice(t, 0, |TrimEnd(t)|);
  }

  lemma {:induction false} NoUpperSplitOn(s: string, sep: char)
    requires NoUpper(s)
    ensures forall k :: 0 <= k < |SplitOn(s, sep)| ==> NoUpper(SplitOn(s, sep)[k])
  {
    if s != [] {
      NoUpperSlice(s, 1, |s|);
      NoUpperSplitOn(s[1..], sep);
      if s[0] != sep {
        var rest := SplitOn(s[1..], sep);
        assert NoUpper(rest[0]);
        assert NoUpper([s[0]] + rest[0]);
      }
    }
  }

  lemma {:induction false} NoUpperLastValue(parts: seq<string>, key: string)
    requires forall k :: 0 <= k < |parts| ==> NoUpper(parts[k])
    ensures LastValue(parts, key).Some? ==> NoUpper(LastValue(parts, key).value)
  {
    if parts != [] {
      var part := parts[|parts| - 1];
      var p := Strip(part);
      NoUpperStrip(part);
      if StartsWith(Lower(p), key) {
        NoUpperSlice(p, |key|, |p|);
        NoUpperStrip(p[|key|..]);
      } else {
        NoUpperLastValue(parts[..|parts| - 1], key);
      }
    }
  }

  /** A passenger read from a lower-case message has a lower-case name and an age in 0..120. */
  lemma ReadPassengerValid(m: string)
    requires NoUpper(m)
    ensures ReadPassenger(m).Passenger? ==>
              NoUpper(ReadPassenger(m).name) && 0 <= ReadPassenger(m).age <= 120
  {
    NoUpperSplitOn(m, ',');
    NoUpperLastValue(SplitOn(m, ','), "name:");
  }

  // ---------------------------------------------------------------------
  // Preservation
  // ---------------------------------------------------------------------

  /** What `Complete` needs of the session to keep the ledger invariant. */
  ghost predicate BookableSession(cat: Routes, ss: Session) {
    Filled(ss)
    && ss.source != ss.destination
    && HasRoute(cat, ss.source.value, ss.destination.value)
    && ss.selectedFlight.value in cat[ss.source.value][ss.destination.value]
    && NoUpper(ss.passengerName.value) && 0 <= ss.passengerAge.value <= 120
  }

  /** Appending a booking numbered with the counter, on a seat not yet issued, keeps the ledger invariant. */
  lemma AppendKeepsLedger(cat: Routes, st: State, b: Booking)
    requires LedgerOk(cat, st)
    requires BookingOk(cat, b, st.counter + 1) && SerialOf(b.bookingNumber) == st.counter
    requires b.seatNumber !in Issued(st.seats, BookingKey(b))
    ensures var key := BookingKey(b);
            LedgerOk(cat, State(EmptySession, st.counter + 1,
                                st.seats[key := Issued(st.seats, key) + [b.seatNumber]], st.bookings + [b]))
  {
    var key := BookingKey(b);
    var st' := State(EmptySession, st.counter + 1,
                     st.seats[key := Issued(st.seats, key) + [b.seatNumber]], st.bookings + [b]);
    AppendEntries(cat, st, b);
    AppendNumbers(cat, st, b);
    AppendSeats(cat, st, b);
    AppendKeys(st, b);
  }

  lemma AppendEntries(cat: Routes, st: State, b: Booking)
    requires EntriesOk(cat, st) && BookingOk(cat, b, st.counter + 1)
    ensures EntriesOk(cat, st.(counter := st.counter + 1, bookings := st.bookings + [b]))
  {
    var st' := st.(counter := st.counter + 1, bookings := st.bookings + [b]);
    forall i | 0 <= i < |st'.bookings| ensures BookingOk(cat, st'.bookings[i], st'.counter) {
      if i < |st.bookings| {
        assert st'.bookings[i] == st.bookings[i];
        assert BookingOk(cat, st.bookings[i], st.counter);
      }
    }
  }

  lemma AppendNumbers(cat: Routes, st: State, b: Booking)
    requires EntriesOk(cat, st) && NumbersIncrease(st) && SerialOf(b.bookingNumber) == st.counter
    ensures NumbersIncrease(st.(bookings := st.bookings + [b]))
  {
    var bs := st.bookings + [b];
    forall i, j | 0 <= i < j < |bs|
      ensures SerialOf(bs[i].bookingNumber) < SerialOf(bs[j].bookingNumber)
    {
      assert bs[i] == st.bookings[i];
      assert BookingOk(cat, st.bookings[i], st.counter);
      if j < |st.bookings| { assert bs[j] == st.bookings[j]; }
    }
  }

  lemma AppendSeats(cat: Routes, st: State, b: Booking)
    requires SeatsMatchBookings(st) && KeysIssued(st)
    requires b.seatNumber !in Issued(st.seats, BookingKey(b))
    ensures var key := BookingKey(b);
            SeatsMatchBookings(st.(seats := st.seats[key := Issued(st.seats, key) + [b.seatNumber]],
                                   bookings := st.bookings + [b]))
  {
    var key := BookingKey(b);
    var seats := st.seats[key := Issued(st.seats, key) + [b.seatNumber]];
    if key !in st.seats {
      SeatsOfUnusedKey(st.bookings, key);
    }
    forall k | k in seats ensures seats[k] == SeatsOf(st.bookings + [b], k) && NoDup(seats[k]) {
      SeatsOfAppend(st.bookings, b, k);
    }
  }

  lemma AppendKeys(st: State, b: Booking)
    requires KeysIssued(st)
    ensures var key := BookingKey(b);
            KeysIssued(st.(seats := st.seats[key := Issued(st.seats, key) + [b.seatNumber]],
                           bookings := st.bookings + [b]))
  {
    var bs := st.bookings + [b];
    forall i | 0 <= i < |bs| ensures BookingKey(bs[i]) in st.seats[BookingKey(b) := Issued(st.seats, BookingKey(b)) + [b.seatNumber]] {
      if i < |st.bookings| { assert bs[i] == st.bookings[i]; }
    }
  }

  lemma CompleteKeepsLedger(cat: Routes, st: State, seat: string)
    requires LedgerOk(cat, st) && BookableSession(cat, st.session)
    requires FreshDraw(st, Complete(st, seat).1)
    ensures LedgerOk(cat, Complete(st, seat).0)
    ensures Complete(st, seat).0.session == EmptySession
  {
    var ss := st.session;
    var offer := ss.selectedFlight.value;
    var key := FlightKey(ss.source.value, ss.destination.value, offer.airline);
    var taken := Issued(st.seats, key);
    if HasFreeSeat(taken) {
      var b := Complete(st, seat).1.booking;
      assert BookingKey(b) == key;
      SerialOfBookingNumber(st.counter);
      assert BookingOk(cat, b, st.counter + 1);
      AppendKeepsLedger(cat, st, b);
    } else {
      AppendEntriesNone(cat, st);
    }
  }

  lemma AppendEntriesNone(cat: Routes, st: State)
    requires EntriesOk(cat, st)
    ensures EntriesOk(cat, st.(counter := st.counter + 1))
  {
    forall i | 0 <= i < |st.bookings| ensures BookingOk(cat, st.bookings[i], st.counter + 1) {
      assert BookingOk(cat, st.bookings[i], st.counter);
    }
  }

  lemma LedgerIgnoresSession(cat: Routes, st: State, ss: Session)
    requires LedgerOk(cat, st)
    ensures LedgerOk(cat, st.(session := ss))
  {
    var st' := st.(session := ss);
    assert st'.bookings == st.bookings && st'.seats == st.seats && st'.counter == st.counter;
  }

  lemma SourceStepKeeps(cat: Routes, st: State, m: string, seat: string)
    requires Consistent(cat, st) && st.session.step == GetSource
    ensures Consistent(cat, Flow(cat, st, m, seat).0)
  {
    var cities := AvailableCities(cat);
    var c := FirstCity(cities, m);
    if Named(c) {
      var i := FirstCityIndex(cities, m).value;
      assert cities[i] in CityNames(cat);
      var ss' := st.session.(source := c, step := GetDestination);
      assert Flow(cat, st, m, seat).0 == st.(session := ss');
      LedgerIgnoresSession(cat, st, ss');
    }
  }

  lemma DestinationStepKeeps(cat: Routes, st: State, m: string, seat: string)
    requires Consistent(cat, st) && st.session.step == GetDestination
    ensures Consistent(cat, Flow(cat, st, m, seat).0)
  {
    var ss := st.session;
    var d := FirstCity(AvailableCities(cat), m);
    if !Named(d) || d == ss.source {
      assert Flow(cat, st, m, seat).0 == st;
    } else if HasRoute(cat, ss.source.value, d.value) {
      var ss' := ss.(destination := d, step := SelectFlight);
      assert Flow(cat, st, m, seat).0 == st.(session := ss');
      assert SessionOk(cat, ss');
      LedgerIgnoresSession(cat, st, ss');
    } else {
      assert Flow(cat, st, m, seat).0 == st.(session := EmptySession);
      LedgerIgnoresSession(cat, st, EmptySession);
    }
  }

  lemma SelectStepKeeps(cat: Routes, st: State, m: string, seat: string)
    requires Consistent(cat, st) && st.session.step == SelectFlight
    ensures Consistent(cat, Flow(cat, st, m, seat).0)
  {
    LedgerIgnoresSession(cat, st, Flow(cat, st, m, seat).0.session);
  }

  lemma DetailsStepKeeps(cat: Routes, st: State, m: string, seat: string)
    requires Consistent(cat, st) && st.session.step == GetPassengerDetails && NoUpper(m)
    requires FreshDraw(st, Flow(cat, st, m, seat).1)
    ensures Consistent(cat, Flow(cat, st, m, seat).0)
  {
    var ss := st.session;
    ReadPassengerValid(m);
    match ReadPassenger(m) {
      case Passenger(name, age) =>
        var st1 := st.(session := ss.(passengerName := Some(name), passengerAge := Some(age)));
        LedgerIgnoresSession(cat, st, st1.session);
        assert BookableSession(cat, st1.session);
        CompleteKeepsLedger(cat, st1, seat);
      case _ =>
    }
  }

  lemma FlowKeepsConsistent(cat: Routes, st: State, m: string, seat: string)
    requires Consistent(cat, st) && NoUpper(m)
    requires FreshDraw(st, Flow(cat, st, m, seat).1)
    ensures Consistent(cat, Flow(cat, st, m, seat).0)
  {
    match st.session.step {
      case Start =>
      case GetSource => SourceStepKeeps(cat, st, m, seat);
      case GetDestination => DestinationStepKeeps(cat, st, m, seat);
      case SelectFlight => SelectStepKeeps(cat, st, m, seat);
      case GetPassengerDetails => DetailsStepKeeps(cat, st, m, seat);
    }
  }

  /** Every turn keeps the assistant's invariant, given a seat draw that picks a free seat. */
  lemma TurnKeepsConsistent(cat: Routes, st: State, message: string, seat: string)
    requires Consistent(cat, st)
    requires FreshDraw(st, Turn(cat, st, message, seat).1)
    ensures Consistent(cat, Turn(cat, st, message, seat).0)
  {
    var m := Normalize(message);
    NoUpperNormalize(message);
    if Classify(m) == BookFlight || Classify(m) == Unmatched {
      if st.session.step != Start {
        FlowKeepsConsistent(cat, st, m, seat);
      }
    }
  }

  lemma RespondKeepsConsistent(cat: Routes, st: State, message: string, seat: string)
    requires Consistent(cat, st)
    requires FreshDraw(st, Respond(cat, st, message, seat).1)
    ensures Consistent(cat, Respond(cat, st, message, seat).0)
  {
    if Strip(message) != [] {
      TurnKeepsConsistent(cat, st, message, seat);
    }
  }

  // ---------------------------------------------------------------------
  // Consequences
  // ---------------------------------------------------------------------

  lemma {:induction false} SeatsOfIndex(bookings: seq<Booking>, key: string, i: nat, j: nat)
    requires i < j < |bookings|
    requires BookingKey(bookings[i]) == key && BookingKey(bookings[j]) == key
    ensures exists p, q :: 0 <= p < q < |SeatsOf(bookings, key)|
                           && SeatsOf(bookings, key)[p] == bookings[i].seatNumber
                           && SeatsOf(bookings, key)[q] == bookings[j].seatNumber
  {
    var n := |bookings|;
    var init := bookings[..n - 1];
    SeatsOfAppend(init, bookings[n - 1], key);
    assert bookings == init + [bookings[n - 1]];
    if j < n - 1 {
      SeatsOfIndex(init, key, i, j);
      var p, q :| 0 <= p < q < |SeatsOf(init, key)|
                  && SeatsOf(init, key)[p] == init[i].seatNumber
                  && SeatsOf(init, key)[q] == init[j].seatNumber;
      assert SeatsOf(bookings, key)[p] == bookings[i].seatNumber;
      assert SeatsOf(bookings, key)[q] == bookings[j].seatNumber;
    } else {
      SeatsOfContains(init, key, i);
      var p :| 0 <= p < |SeatsOf(init, key)| && SeatsOf(init, key)[p] == init[i].seatNumber;
      var q := |SeatsOf(init, key)|;
      assert SeatsOf(bookings, key)[p] == bookings[i].seatNumber;
      assert SeatsOf(bookings, key)[q] == bookings[j].seatNumber;
    }
  }

  lemma {:induction false} SeatsOfContains(bookings: seq<Booking>, key: string, i: nat)
    requires i < |bookings| && BookingKey(bookings[i]) == key
    ensures exists p :: 0 <= p < |SeatsOf(bookings, key)| && SeatsOf(bookings, key)[p] == bookings[i].seatNumber
  {
    var n := |bookings|;
    var init := bookings[..n - 1];
    SeatsOfAppend(init, bookings[n - 1], key);
    assert bookings == init + [bookings[n - 1]];
    if i < n - 1 {
      SeatsOfContains(init, key, i);
      var p :| 0 <= p < |SeatsOf(init, key)| && SeatsOf(init, key)[p] == init[i].seatNumber;
      assert SeatsOf(bookings, key)[p] == bookings[i].seatNumber;
    } else {
      assert SeatsOf(bookings, key)[|SeatsOf(init, key)|] == bookings[i].seatNumber;
    }
  }

  /** No two bookings on the same flight key hold the same seat. */
  lemma BookedSeatsDistinct(cat: Routes, st: State, i: nat, j: nat)
    requires Consistent(cat, st)
    requires i < j < |st.bookings| && BookingKey(st.bookings[i]) == BookingKey(st.bookings[j])
    ensures st.bookings[i].seatNumber != st.bookings[j].seatNumber
  {
    var key := BookingKey(st.bookings[i]);
    SeatsOfIndex(st.bookings, key, i, j);
    assert st.seats[key] == SeatsOf(st.bookings, key);
  }

  /** Booking numbers strictly increase along the ledger, so no two bookings share one. */
  lemma BookingNumbersIncrease(cat: Routes, st: State, i: nat, j: nat)
    requires Consistent(cat, st)
    requires i < j < |st.bookings|
    ensures SerialOf(st.bookings[i].bookingNumber) < SerialOf(st.bookings[j].bookingNumber)
    ensures st.bookings[i].bookingNumber != st.bookings[j].bookingNumber
  {
  }
}
