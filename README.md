# Doctors portal booking backend: slot availability and the duplicate-booking gate

This project models, in Dafny, the decision logic of the clinic portal's
server (`index.js`). The rest of that file is HTTP and database wiring.

- **GET /appointmentOptions?date=D** fetches every treatment option (a name
  and an ordered list of slot labels) and every booking whose
  `appointmentDate` is D. A `forEach` loop then overwrites each option's
  `slots` with the slots that no booking of that treatment holds. The model
  has pure functions for each step (`BookingsOn`, `BookedSlots`,
  `RemainingSlots`, `WithRemaining`, `Availability`). The loop itself is a
  method, `GetAppointmentOptions`, that rewrites an array of options in place.
  Its postcondition says the array ends up equal to `Availability` of its old
  contents.
- **GET /v2/appointmentOptions?date=D** computes the same answer in the
  database with an aggregation: `$lookup` (join on `name` = `treatment` plus
  a `$match` on the date), `$map` to the slot, and `$setDifference`. Only its
  meaning is modelled, on sets (`ProjectedOption.slots: set<string>`). A lemma
  proves that the two routes agree option by option, as sets.
- **POST /bookings** looks for a stored booking with the same
  `appointmentDate`, `email` and `treatment`. If one exists, it answers
  `{ acknowledged: false, message }` and the message names the date.
  Otherwise it inserts the booking. The collection is a class holding a
  `seq<Booking>`, with `Find` and `InsertOne`. The handler is the method
  `PostBooking`. `Submit` is the same transition as a pure function. Lemmas
  prove that submissions made one after another never store two bookings for
  one (date, email, treatment).

Modules: `Seqs` (order-preserving filter and map, subsequence),
`Entities` (the two document types and the `Taken` predicate),
`AppointmentOptions` (v1 route), `AppointmentOptionsV2` (v2 pipeline) and
`Bookings` (submission).

## Model

| member | source | states |
|---|---|---|
| `Seqs.Filter` | index.js:32-34 | the kept elements are exactly those that pass the predicate; their order is kept (a subsequence); each kept value keeps all its copies and each rejected value has none |
| `Seqs.Map` | index.js:33 | same length as the input; element i is the function applied to input element i |
| `Seqs.FilterCongruent` | index.js:34 | two predicates that agree on the elements present filter a list to the same result |
| `Seqs.FilterKeepsAll` | index.js:34 | filtering a list whose elements all pass returns the list unchanged |
| `AppointmentOptions.BookingsOn` | index.js:27-28 | the day's bookings are exactly the stored bookings whose `appointmentDate` equals the queried date, each with all its copies, in collection order |
| `AppointmentOptions.BookedSlots` | index.js:32-33 | a label is among the booked slots iff some fetched booking of that treatment has that slot |
| `AppointmentOptions.RemainingSlots` | index.js:34 | the remaining slots are a subsequence of the option's slots; a slot remains iff the option lists it and it is not booked; free slots keep every copy |
| `AppointmentOptions.WithRemaining` | index.js:31-35 | one loop step replaces `slots` only, and the new slots are a subsequence of the old ones |
| `AppointmentOptions.Availability` | index.js:22-39 | the response has one entry per option, in the same order; each entry equals its option except for `slots` (same id, name and other fields), so options left with no slot are not dropped |
| `AppointmentOptions.GetAppointmentOptions` | index.js:26-37 | after the in-place loop, the options array equals `Availability` of its old contents |
| `AppointmentOptions.BookedSlotsAreTaken` | index.js:27-33 | a slot is booked for a treatment on the day iff some stored booking of that treatment and date holds it |
| `AppointmentOptions.AvailableIffFree` | index.js:27-34 | a slot is offered for an option iff the option lists it and no booking of that treatment on that date holds it (both exclusion and retention) |
| `AppointmentOptions.RemainingIsSubsequence` | index.js:34 | each option's remaining slots keep the original relative order and only lose elements |
| `AppointmentOptions.FreeSlotCountKept` | index.js:32-34 | a taken slot occurs zero times in the result; a free slot occurs as often as in the option |
| `AppointmentOptions.UnbookedOptionUnchanged` | index.js:31-35 | an option that no booking of the day names is returned unchanged |
| `AppointmentOptions.OnlyTakenSlotsMatter` | index.js:27-34 | two booking collections with the same taken slots for an option's treatment and date give that option the same result |
| `AppointmentOptions.OtherBookingIrrelevant` | index.js:27-32 | inserting anywhere a booking for another treatment or another date leaves an option's result unchanged |
| `AppointmentOptions.AvailabilityIdempotent` | index.js:31-37 | running the computation again on its own output with the same bookings changes nothing |
| `AppointmentOptions.DentalExample` | index.js:22-39 | one option, "Dental" with slots 9am and 10am, and one booking of 9am on 2023-01-01: that day offers [10am], and 2023-01-02 offers both slots |
| `AppointmentOptionsV2.Lookup` | index.js:46-60 | the joined bookings are exactly the stored bookings whose treatment is the option's name and whose date equals the queried date, compared literally (dates starting with `$` are not covered; see "Left out") |
| `AppointmentOptionsV2.BookedSlotSet` | index.js:63-73 | every joined booking's slot is in the set, and every member of the set is some joined booking's slot |
| `AppointmentOptionsV2.ProjectOption` | index.js:75-82 | the output keeps `_id` and `name`; a slot is in the output set iff the option lists it and no booking of that treatment and date holds it |
| `AppointmentOptionsV2.PipelineAvailability` | index.js:44-83 | one output document per option, in order, with the option's id and name |
| `AppointmentOptionsV2.PipelineAgreesWithFilter` | index.js:44-83 | for every option, the pipeline's id and name equal the filter route's, and its slot set equals the set of the filter route's remaining slots |
| `Bookings.DuplicateMessage` | index.js:101 | the message is exactly "You already have a booking on " followed by the date: that fixed prefix, then the date as the suffix, so it mentions the date |
| `Bookings.FindSameVisit` | index.js:92-98 | the found bookings are exactly the stored ones with the same date, email and treatment, each with all its copies, in collection order |
| `Bookings.Submit` | index.js:89-106 | refused iff a stored booking has the same date, email and treatment; a refusal leaves the store unchanged and its message mentions the date; an insert appends exactly the new booking and returns its position |
| `Bookings.BookingsCollection.constructor` | index.js:20 | the collection starts with the given documents |
| `Bookings.BookingsCollection.Find` | index.js:98 | returns exactly the stored documents of the same visit, each with all its copies, in collection order, and changes nothing |
| `Bookings.BookingsCollection.InsertOne` | index.js:104 | appends exactly the new document, leaves earlier ones untouched, and returns its position |
| `Bookings.PostBooking` | index.js:89-106 | the new collection and the response are those of `Submit` on the old collection; one booking per (date, email, treatment) is preserved |
| `Bookings.SubmitKeepsOneBookingPerVisit` | index.js:98-105 | a single submission never creates a second booking for the same (date, email, treatment) |
| `Bookings.SubmitAll` | index.js:89-106 | submissions one after another only append: the old collection is a prefix of the result, which grows by at most one booking per submission |
| `Bookings.SubmitAllKeepsOneBookingPerVisit` | index.js:92-105 | any run of submissions one after another keeps at most one booking per (date, email, treatment) |
| `Bookings.ResubmissionRefused` | index.js:92-103 | submitting a visit a second time is refused with the date's message, and the collection stays as after the first submission |
| `Bookings.SubmittedVisitsAreBooked` | index.js:98-105 | after a run of submissions, each submitted visit has a stored booking of the same date, email and treatment |

## Left out

- Express setup, CORS and JSON middleware, environment loading, the port, `app.listen` and the liveness route (index.js:1-9, 117-121): these are HTTP plumbing.
- The MongoDB client, its connection string and the `run().catch` wrapper (index.js:13-20, 108-114). The collections are plain sequences, and `find` is an order-preserving filter by field equality.
- Query semantics for values other than strings: a missing or `undefined` `date`, and fields that hold arrays, `null` or nothing. Dates, emails, treatment names and slots are strings compared by equality (for v2's date match, see the `AppointmentOptionsV2.Lookup` line below). The v1 route's behaviour with no `date` query parameter is therefore not modelled.
- How the aggregation engine runs: the order of the joined bookings, the order of the output documents and the order of a `$setDifference` result. The v2 output is modelled with the options in collection order and each slot list as a set, which is all the pipeline promises.
- Bookings.Submit: MongoDB's generated `ObjectId` for `insertedId` is replaced by the new document's position in the collection; the driver's other result fields are not modelled. The store's failure paths are not modelled either. A posted body whose `_id` is already stored makes `insertOne` (index.js:104) reject with a duplicate-key error. A driver error can make `find` (index.js:98) or `insertOne` reject. The async handler has no try/catch, so each of these ends as an unhandled rejection with no response sent. The model instead always answers `Refused` or `Inserted`. `Bookings.PostBooking` inherits the same gap.
- The check-then-insert race between overlapping POST /bookings requests: the model is sequential, so the uniqueness lemmas hold only for submissions handled one after another.
- `console.log` calls and the JSON serialisation done by `res.send`.
- The token, user, role and doctor routes and the access gate (token verification, admin role check): that code is not part of this model.
- A missing `date` is not special-cased: the query runs with whatever `date` holds, and that case is not modelled.
- v2's final `$project` keeps only `_id`, `name` and `slots`, while v1 returns every stored field, so `AppointmentOptionsV2.PipelineAgreesWithFilter` compares id, name and the slot set only.
- AppointmentOptionsV2.Lookup: the date is compared literally, as v1's `find({ appointmentDate: date })` does (index.js:27). Inside v2's `$expr` (index.js:52-56), a `date` starting with `$` is read as a field path: `?date=$appointmentDate` matches the treatment's bookings on every day, and `?date=$` makes the aggregation fail. The v2 model and `AppointmentOptionsV2.PipelineAgreesWithFilter` therefore describe only dates that do not start with `$`. For dates starting with `$`, v1 and v2 really do diverge in the code.
