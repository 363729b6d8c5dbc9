/** GET /v2/appointmentOptions?date=D: the same availability computed by the
    database as one aggregation over the options collection. Only the meaning
    of the pipeline is modelled: its stages work on sets, so neither the order
    nor the repetitions of a remaining slot list are part of the result. */
module AppointmentOptionsV2 {
  import opened Seqs
  import opened Entities
  import AppointmentOptions

  /** A document of the pipeline's output: the final `$project` keeps `_id`,
      `name` and the computed `slots`, and drops every other stored field. */
  datatype ProjectedOption = ProjectedOption(id: string, name: string, slots: set<string>)

  /** The `$lookup` stage for one option: the bookings whose `treatment`
      equals the option's `name` and that pass the inner `$match` on
      `appointmentDate`, joined under `booked`. */
  function Lookup(bookings: seq<Booking>, name: string, date: string): (booked: set<Booking>)
    ensures forall b :: b in booked ==> b in bookings && b.treatment == name && b.appointmentDate == date
    ensures forall b :: b in bookings && b.treatment == name && b.appointmentDate == date ==> b in booked
  {
    set b | b in bookings && b.treatment == name && b.appointmentDate == date
  }

  /** The first `$project`: `booked` replaced by the `slot` of each joined
      booking (`$map`). */
  function BookedSlotSet(booked: set<Booking>): (slots: set<string>)
    ensures forall b :: b in booked ==> b.slot in slots
    ensures forall s :: s in slots ==> exists b :: b in booked && b.slot == s
  {
    set b | b in booked :: b.slot
  }

  /** The second `$project` for one option: `$setDifference` of its slots and
      the booked slots. */
  function ProjectOption(option: AppointmentOption, date: string, bookings: seq<Booking>): (r: ProjectedOption)
    ensures r.id == option.id && r.name == option.name
    ensures forall s :: s in r.slots <==> s in option.slots && !Taken(bookings, date, option.name, s)
  {
    var booked := BookedSlotSet(Lookup(bookings, option.name, date));
    ProjectedOption(option.id, option.name, (set s | s in option.slots) - booked)
  }

  /** The whole aggregation over the options collection. */
  function PipelineAvailability(date: string, options: seq<AppointmentOption>, bookings: seq<Booking>): (r: seq<ProjectedOption>)
    ensures |r| == |options|
    ensures forall i :: 0 <= i < |r| ==> r[i].id == options[i].id && r[i].name == options[i].name
  {
    Map(options, option => ProjectOption(option, date, bookings))
  }

  /** The two routes agree: for every option, the pipeline returns the same
      document identity and name as the in-process filter, and its slot set is
      exactly the set of slots the filter leaves. */
  lemma PipelineAgreesWithFilter(date: string, options: seq<AppointmentOption>, bookings: seq<Booking>)
    ensures |PipelineAvailability(date, options, bookings)| == |AppointmentOptions.Availability(date, options, bookings)|
    ensures forall i :: 0 <= i < |options| ==>
              var v1 := AppointmentOptions.Availability(date, options, bookings)[i];
              var v2 := PipelineAvailability(date, options, bookings)[i];
              && v2.id == v1.id
              && v2.name == v1.name
              && v2.slots == set s | s in v1.slots
  {
  }
}
