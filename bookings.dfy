/** POST /bookings: a patient's booking is stored unless the patient already
    holds one for the same treatment on the same day. */
module Bookings {
  import opened Seqs
  import opened Entities

  /** Two bookings are for the same visit when they share the day, the
      patient's email and the treatment: the three fields of the duplicate
      query. The slot and the other patient fields play no part. */
  predicate SameVisit(a: Booking, b: Booking)
  {
    a.appointmentDate == b.appointmentDate && a.email == b.email && a.treatment == b.treatment
  }

  /** At most one stored booking per (appointmentDate, email, treatment). */
  ghost predicate OneBookingPerVisit(store: seq<Booking>)
  {
    forall i, j :: 0 <= i < j < |store| ==> !SameVisit(store[i], store[j])
  }

  /** `t` occurs as a contiguous piece of `s`. */
  ghost predicate Mentions(s: string, t: string)
  {
    exists i, j :: 0 <= i <= j <= |s| && s[i..j] == t
  }

  /** What the route answers: the refusal `{ acknowledged: false, message }`,
      or the result of `insertOne`, which is acknowledged and carries the new
      document's identifier. */
  datatype Response = Refused(message: string) | Inserted(insertedId: nat)
  {
    predicate Acknowledged() { Inserted? }
  }

  /** The refusal text: the fixed sentence followed by the requested day. */
  function DuplicateMessage(date: string): (m: string)
    ensures Mentions(m, date)
    ensures m[..|m| - |date|] == "You already have a booking on "
    ensures m[|m| - |date|..] == date
  {
    var m := "You already have a booking on " + date;
    assert m[|m| - |date|..|m|] == date;
    m
  }

  /** The duplicate query `find({ appointmentDate, email, treatment })`: the
      stored bookings for the same visit as `booking`, in collection order. */
  function FindSameVisit(store: seq<Booking>, booking: Booking): (found: seq<Booking>)
    ensures IsSubsequence(found, store)
    ensures forall b :: b in found <==> b in store && SameVisit(b, booking)
    ensures forall b :: multiset(found)[b] == if SameVisit(b, booking) then multiset(store)[b] else 0
  {
    Filter(store, b => SameVisit(b, booking))
  }

  /** The collection after one submission, and the route's answer. */
  datatype Step = Step(store: seq<Booking>, response: Response)

  /** One submission, as a transition of the bookings collection. The
      inserted document's identifier is its position in the collection. */
  function Submit(store: seq<Booking>, booking: Booking): (r: Step)
    ensures !r.response.Acknowledged() <==> exists i :: 0 <= i < |store| && SameVisit(store[i], booking)
    ensures !r.response.Acknowledged() ==> r.store == store && Mentions(r.response.message, booking.appointmentDate)
    ensures r.response.Acknowledged() ==> r.store == store + [booking] && r.response.insertedId == |store|
  {
    if |FindSameVisit(store, booking)| > 0 then
      Step(store, Refused(DuplicateMessage(booking.appointmentDate)))
    else
      assert forall i :: 0 <= i < |store| ==> store[i] !in FindSameVisit(store, booking);
      Step(store + [booking], Inserted(|store|))
  }

  /** The bookings collection as the route sees it. */
  class BookingsCollection {
    var documents: seq<Booking>

    constructor (initial: seq<Booking>)
      ensures documents == initial
    {
      documents := initial;
    }

    /** `find(query).toArray()` for the duplicate query of `booking`. */
    method Find(booking: Booking) returns (found: seq<Booking>)
      ensures IsSubsequence(found, documents)
      ensures forall b :: b in found <==> b in documents && SameVisit(b, booking)
      ensures forall b :: multiset(found)[b] == if SameVisit(b, booking) then multiset(documents)[b] else 0
    {
      found := FindSameVisit(documents, booking);
    }

    /** `insertOne(booking)`: appends the document and reports where. */
    method InsertOne(booking: Booking) returns (insertedId: nat)
      modifies this
      ensures documents == old(documents) + [booking]
      ensures insertedId == |old(documents)|
    {
      insertedId := |documents|;
      documents := documents + [booking];
    }
  }

  /** The POST /bookings handler: query for a booking of the same visit; if
      one exists, refuse and leave the collection alone, otherwise insert. */
  method PostBooking(bookings: BookingsCollection, booking: Booking) returns (response: Response)
    modifies bookings
    ensures Step(bookings.documents, response) == Submit(old(bookings.documents), booking)
    ensures OneBookingPerVisit(old(bookings.documents)) ==> OneBookingPerVisit(bookings.documents)
  {
    var alreadyBooked := bookings.Find(booking);
    if |alreadyBooked| > 0 {
      assert alreadyBooked[0] in bookings.documents;
      response := Refused(DuplicateMessage(booking.appointmentDate));
      return;
    }
    var insertedId := bookings.InsertOne(booking);
    response := Inserted(insertedId);
    if OneBookingPerVisit(old(bookings.documents)) {
      SubmitKeepsOneBookingPerVisit(old(bookings.documents), booking);
    }
  }

  /** A submission never creates a second booking for a visit. */
  lemma SubmitKeepsOneBookingPerVisit(store: seq<Booking>, booking: Booking)
    requires OneBookingPerVisit(store)
    ensures OneBookingPerVisit(Submit(store, booking).store)
  {
  }

  /** Submitting `bookings` one after another, in order. */
  function SubmitAll(store: seq<Booking>, bookings: seq<Booking>): (final: seq<Booking>)
    ensures |store| <= |final| <= |store| + |bookings|
    ensures final[..|store|] == store
    decreases |bookings|
  {
    if bookings == [] then store
    else
      var next := Submit(store, bookings[0]).store;
      var final := SubmitAll(next, bookings[1..]);
      assert next[..|store|] == store;
      assert final[..|store|] == final[..|next|][..|store|];
      final
  }

  /** However many submissions arrive one after another, the collection never
      holds two bookings for the same (appointmentDate, email, treatment). */
  lemma {:induction false} SubmitAllKeepsOneBookingPerVisit(store: seq<Booking>, bookings: seq<Booking>)
    requires OneBookingPerVisit(store)
    ensures OneBookingPerVisit(SubmitAll(store, bookings))
    decreases |bookings|
  {
    if bookings != [] {
      SubmitKeepsOneBookingPerVisit(store, bookings[0]);
      SubmitAllKeepsOneBookingPerVisit(Submit(store, bookings[0]).store, bookings[1..]);
    }
  }

  /** Submitting the same visit twice: the second attempt is refused, with a
      message naming the day, whatever the first attempt answered. */
  lemma ResubmissionRefused(store: seq<Booking>, booking: Booking, again: Booking)
    requires SameVisit(again, booking)
    ensures var first := Submit(store, booking);
            var second := Submit(first.store, again);
            && second.response == Refused(DuplicateMessage(booking.appointmentDate))
            && second.store == first.store
  {
  }

  /** After a run of submissions, every submitted booking has a booking of
      the same visit in the collection: each was either stored or refused
      because such a booking was already there. */
  lemma {:induction false} SubmittedVisitsAreBooked(store: seq<Booking>, bookings: seq<Booking>, k: nat)
    requires k < |bookings|
    ensures exists i :: 0 <= i < |SubmitAll(store, bookings)| && SameVisit(SubmitAll(store, bookings)[i], bookings[k])
    decreases |bookings|
  {
    var next := Submit(store, bookings[0]).store;
    var final := SubmitAll(store, bookings);
    assert final == SubmitAll(next, bookings[1..]);
    if k == 0 {
      var i :| 0 <= i < |next| && SameVisit(next[i], bookings[0]) by {
        if Submit(store, bookings[0]).response.Inserted? {
          assert SameVisit(next[|store|], bookings[0]);
        }
      }
      assert final[..|next|] == next;
      assert final[i] == next[i];
    } else {
      SubmittedVisitsAreBooked(next, bookings[1..], k - 1);
    }
  }
}
