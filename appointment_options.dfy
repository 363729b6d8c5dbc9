/** GET /appointmentOptions?date=D: every treatment option with the slots
    already booked for it on day D taken out, computed by filtering the two
    fetched lists in process. */
module AppointmentOptions {
  import opened Seqs
  import opened Entities

  /** The bookings query `{ appointmentDate: date }`: the stored bookings for
      that day, in collection order. */
  function BookingsOn(bookings: seq<Booking>, date: string): (r: seq<Booking>)
    ensures IsSubsequence(r, bookings)
    ensures forall b :: b in r <==> b in bookings && b.appointmentDate == date
    ensures forall b :: multiset(r)[b] == if b.appointmentDate == date then multiset(bookings)[b] else 0
  {
    Filter(bookings, (b: Booking) => b.appointmentDate == date)
  }

  /** The slot labels of the already-fetched bookings whose treatment is
      `name` (the `optionBooked` filter followed by the map to `slot`). */
  function BookedSlots(alreadyBooked: seq<Booking>, name: string): (r: seq<string>)
    ensures forall slot :: slot in r <==> exists b :: b in alreadyBooked && b.treatment == name && b.slot == slot
  {
    var optionBooked := Filter(alreadyBooked, (b: Booking) => b.treatment == name);
    var r := Map(optionBooked, (b: Booking) => b.slot);
    assert forall slot :: slot in r ==> exists b :: b in optionBooked && b.slot == slot by {
      forall slot | slot in r ensures exists b :: b in optionBooked && b.slot == slot {
        var i :| 0 <= i < |r| && r[i] == slot;
        assert optionBooked[i] in optionBooked;
      }
    }
    assert forall b :: b in optionBooked ==> b.slot in r by {
      forall b | b in optionBooked ensures b.slot in r {
        var i :| 0 <= i < |optionBooked| && optionBooked[i] == b;
        assert r[i] == b.slot;
      }
    }
    r
  }

  /** The slots of `slots` that are not among `bookedSlots`, in their
      original order (the `remainingSlots` filter). */
  function RemainingSlots(slots: seq<string>, bookedSlots: seq<string>): (r: seq<string>)
    ensures IsSubsequence(r, slots)
    ensures forall s :: s in r <==> s in slots && s !in bookedSlots
    ensures forall s :: multiset(r)[s] == if s in bookedSlots then 0 else multiset(slots)[s]
  {
    Filter(slots, s => s !in bookedSlots)
  }

  /** One step of the `forEach`: the option with its `slots` field replaced
      by the slots no booking of the day holds for its treatment. */
  function WithRemaining(option: AppointmentOption, alreadyBooked: seq<Booking>): (r: AppointmentOption)
    ensures r == option.(slots := r.slots)
    ensures IsSubsequence(r.slots, option.slots)
  {
    option.(slots := RemainingSlots(option.slots, BookedSlots(alreadyBooked, option.name)))
  }

  /** The response of GET /appointmentOptions?date=`date`, given every stored
      option and every stored booking: one entry per option, in collection
      order, each differing from its option in `slots` alone. */
  function Availability(date: string, options: seq<AppointmentOption>, bookings: seq<Booking>): (r: seq<AppointmentOption>)
    ensures |r| == |options|
    ensures forall i :: 0 <= i < |r| ==> r[i] == options[i].(slots := r[i].slots)
  {
    var alreadyBooked := BookingsOn(bookings, date);
    Map(options, option => WithRemaining(option, alreadyBooked))
  }

  /** The route itself: fetch the day's bookings once, then overwrite each
      fetched option's `slots` in place, one option at a time. */
  method GetAppointmentOptions(date: string, options: array<AppointmentOption>, bookings: seq<Booking>)
    modifies options
    ensures options[..] == Availability(date, old(options[..]), bookings)
  {
    var alreadyBooked := BookingsOn(bookings, date);
    ghost var expected := Availability(date, options[..], bookings);
    for i := 0 to options.Length
      invariant forall k :: 0 <= k < i ==> options[k] == expected[k]
      invariant forall k :: i <= k < options.Length ==> options[k] == old(options[k])
    {
      var option := options[i];
      var bookedSlots := BookedSlots(alreadyBooked, option.name);
      var remainingSlots := RemainingSlots(option.slots, bookedSlots);
      options[i] := option.(slots := remainingSlots);
    }
  }

  /** The day's booked slots for a treatment are exactly its taken slots. */
  lemma BookedSlotsAreTaken(date: string, bookings: seq<Booking>, name: string)
    ensures forall s :: s in BookedSlots(BookingsOn(bookings, date), name) <==> Taken(bookings, date, name, s)
  {
  }

  /** A slot is offered for option `i` exactly when the option lists it and
      no booking of that treatment on `date` holds it. */
  lemma AvailableIffFree(date: string, options: seq<AppointmentOption>, bookings: seq<Booking>, i: nat)
    requires i < |options|
    ensures forall s :: s in Availability(date, options, bookings)[i].slots
                        <==> s in options[i].slots && !Taken(bookings, date, options[i].name, s)
  {
  }

  /** Each remaining slot list is what is left of the option's own list after
      deletions only: nothing added, original order kept. */
  lemma RemainingIsSubsequence(date: string, options: seq<AppointmentOption>, bookings: seq<Booking>, i: nat)
    requires i < |options|
    ensures IsSubsequence(Availability(date, options, bookings)[i].slots, options[i].slots)
  {
  }

  /** A free slot keeps every copy it had: a slot listed twice and not booked
      is still listed twice, and a booked slot is gone entirely. */
  lemma FreeSlotCountKept(date: string, options: seq<AppointmentOption>, bookings: seq<Booking>, i: nat, s: string)
    requires i < |options|
    ensures multiset(Availability(date, options, bookings)[i].slots)[s]
            == if Taken(bookings, date, options[i].name, s) then 0 else multiset(options[i].slots)[s]
  {
  }

  /** An option that no booking of the day names keeps its whole slot list;
      even an option left with no slot at all stays in the response. */
  lemma UnbookedOptionUnchanged(date: string, options: seq<AppointmentOption>, bookings: seq<Booking>, i: nat)
    requires i < |options|
    requires forall b :: b in bookings && b.appointmentDate == date ==> b.treatment != options[i].name
    ensures Availability(date, options, bookings)[i] == options[i]
  {
    var booked := BookedSlots(BookingsOn(bookings, date), options[i].name);
    BookedSlotsAreTaken(date, bookings, options[i].name);
    FilterKeepsAll(options[i].slots, s => s !in booked);
    assert Availability(date, options, bookings)[i].slots == RemainingSlots(options[i].slots, booked);
  }

  /** An option's remaining slots depend on the stored bookings only through
      which of its slots are taken on `date`: bookings for other treatments or
      other days, their order and their repetitions make no difference. */
  lemma OnlyTakenSlotsMatter(date: string, options: seq<AppointmentOption>, bookings: seq<Booking>, bookings': seq<Booking>, i: nat)
    requires i < |options|
    requires forall s :: Taken(bookings, date, options[i].name, s) <==> Taken(bookings', date, options[i].name, s)
    ensures Availability(date, options, bookings)[i] == Availability(date, options, bookings')[i]
  {
    var name := options[i].name;
    var booked := BookedSlots(BookingsOn(bookings, date), name);
    var booked' := BookedSlots(BookingsOn(bookings', date), name);
    assert Availability(date, options, bookings)[i].slots == RemainingSlots(options[i].slots, booked);
    assert Availability(date, options, bookings')[i].slots == RemainingSlots(options[i].slots, booked');
    forall s | s in options[i].slots ensures (s !in booked) == (s !in booked') {
      AvailableIffFree(date, options, bookings, i);
      AvailableIffFree(date, options, bookings', i);
    }
    FilterCongruent(options[i].slots, s => s !in booked, s => s !in booked');
  }

  /** Storing a booking for another treatment, or for another day, anywhere
      in the collection leaves option `i`'s availability as it was. */
  lemma OtherBookingIrrelevant(date: string, options: seq<AppointmentOption>, bookings: seq<Booking>, b: Booking, k: nat, i: nat)
    requires i < |options| && k <= |bookings|
    requires b.treatment != options[i].name || b.appointmentDate != date
    ensures Availability(date, options, bookings[..k] + [b] + bookings[k..])[i] == Availability(date, options, bookings)[i]
  {
    var bookings' := bookings[..k] + [b] + bookings[k..];
    assert forall c :: c in bookings' <==> c in bookings || c == b by {
      assert bookings == bookings[..k] + bookings[k..];
    }
    OnlyTakenSlotsMatter(date, options, bookings', bookings, i);
  }

  /** Recomputing availability on an already computed response, with the same
      bookings, changes nothing. */
  lemma AvailabilityIdempotent(date: string, options: seq<AppointmentOption>, bookings: seq<Booking>)
    ensures Availability(date, Availability(date, options, bookings), bookings) == Availability(date, options, bookings)
  {
    var once := Availability(date, options, bookings);
    var twice := Availability(date, once, bookings);
    forall i | 0 <= i < |options| ensures twice[i] == once[i] {
      AvailableIffFree(date, options, bookings, i);
      AvailableIffFree(date, once, bookings, i);
      var booked := BookedSlots(BookingsOn(bookings, date), once[i].name);
      assert once[i].slots == RemainingSlots(options[i].slots, booked);
      assert twice[i].slots == RemainingSlots(once[i].slots, booked);
      FilterKeepsAll(once[i].slots, s => s !in booked);
    }
  }

  /** A worked case: one "Dental" option with two slots and one booking of
      its first slot on 2023-01-01. That day offers only the second slot; the
      next day offers both. */
  lemma DentalExample()
    ensures var dental := AppointmentOption("d1", "Dental", ["9am", "10am"], map[]);
            var booking := Booking("2023-01-01", "p@example.com", "Dental", "9am", map[]);
            && Availability("2023-01-01", [dental], [booking]) == [dental.(slots := ["10am"])]
            && Availability("2023-01-02", [dental], [booking]) == [dental]
  {
    var dental := AppointmentOption("d1", "Dental", ["9am", "10am"], map[]);
    var booking := Booking("2023-01-01", "p@example.com", "Dental", "9am", map[]);
    var booked := BookedSlots(BookingsOn([booking], "2023-01-01"), "Dental");
    BookedSlotsAreTaken("2023-01-01", [booking], "Dental");
    assert "9am" in booked;
    assert "10am" !in booked;
    assert ["9am", "10am"][1..] == ["10am"];
    assert Availability("2023-01-01", [dental], [booking])[0].slots == RemainingSlots(["9am", "10am"], booked);
    UnbookedOptionUnchanged("2023-01-02", [dental], [booking], 0);
  }
}
