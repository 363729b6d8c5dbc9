/** The documents of the two collections the clinic's routes use. */
module Entities {

  /** A document of the `appointmentOptions` collection: a treatment with its
      fixed, ordered catalogue of slot labels. `id` is the document's `_id`;
      `others` stands for any further stored fields, which no route reads. */
  datatype AppointmentOption = AppointmentOption(
    id: string,
    name: string,
    slots: seq<string>,
    others: map<string, string>)

  /** A document of the `bookings` collection, as posted by a patient.
      `details` stands for the remaining patient fields of the request body. */
  datatype Booking = Booking(
    appointmentDate: string,
    email: string,
    treatment: string,
    slot: string,
    details: map<string, string>)

  /** Some booking in `bookings` holds `slot` of `treatment` on `date`: the
      slot is no longer free to offer for that treatment on that day. */
  ghost predicate Taken(bookings: seq<Booking>, date: string, treatment: string, slot: string)
  {
    exists b :: b in bookings && b.appointmentDate == date && b.treatment == treatment && b.slot == slot
  }
}
