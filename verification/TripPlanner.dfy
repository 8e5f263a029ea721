/** The trip state of components/features/planner/TravelPanner.tsx: the
    departure date, the destination, and one `TripDay` per day of the trip.
    Dates are day numbers; adding `i` is `setDate(getDate() + i)`. */
module TripPlanner {
  import opened Wrappers

  datatype Priority = High | Medium | Low

  datatype Activity = Activity(
    id: string,
    title: string,
    time: string,
    description: string,
    location: string,
    priority: Priority)

  datatype TripDay = TripDay(date: int, notes: string, activities: seq<Activity>)

  datatype Planner = Planner(tripDate: int, destination: string, tripDays: seq<TripDay>)

  /** The fixed trip length (the duration field is read-only). */
  const TripDuration := 7
  const InitialDestination := "Santorini"
  /** The initial departure is fifteen days from today. */
  const InitialLeadDays := 15

  /** A freshly generated day: the given date, no notes, no activities. */
  predicate Blank(d: TripDay, date: int) {
    d.date == date && d.notes == "" && d.activities == []
  }

  /** The first `n` days of a trip starting at `start`, pushed in order as the source's loop does. */
  function DaysFrom(start: int, n: nat): (days: seq<TripDay>)
    ensures |days| == n
    ensures forall i :: 0 <= i < n ==> Blank(days[i], start + i)
  {
    if n == 0 then [] else DaysFrom(start, n - 1) + [TripDay(start + n - 1, "", [])]
  }

  /** `generateTripDays`: one blank day for each day of the trip, from `start` on. */
  function GenerateTripDays(start: int): (days: seq<TripDay>)
    ensures |days| == TripDuration
    ensures forall i :: 0 <= i < |days| ==> Blank(days[i], start + i)
  {
    DaysFrom(start, TripDuration)
  }

  /** The planner as first rendered on day `today`. */
  function InitialPlanner(today: int): (p: Planner)
    ensures p.destination == InitialDestination
    ensures p.tripDate == today + InitialLeadDays
    ensures |p.tripDays| == TripDuration && p.tripDays[0].date == p.tripDate
    ensures forall i :: 0 <= i < |p.tripDays| ==> Blank(p.tripDays[i], p.tripDate + i)
  {
    Planner(today + InitialLeadDays, InitialDestination, GenerateTripDays(today + InitialLeadDays))
  }

  /** `updateTripInfo` as written: the new date and destination are stored,
      but the days are regenerated by a `generateTripDays` that still reads
      the date of the render that created the handler, i.e. the old one.
      Every earlier activity and note is discarded. */
  function UpdateTripInfo(p: Planner, newDate: int, newDestination: string): (q: Planner)
    ensures q.tripDate == newDate && q.destination == newDestination
    ensures |q.tripDays| == TripDuration
    ensures forall i :: 0 <= i < |q.tripDays| ==> Blank(q.tripDays[i], p.tripDate + i)
  {
    Planner(newDate, newDestination, GenerateTripDays(p.tripDate))
  }

  /** The message of the error `Date.prototype.toISOString` throws on an Invalid Date. */
  const InvalidTimeValue := "RangeError: Invalid time value"

  /** The departure field's `onChange`: `field` is `new Date(value)` of the
      typed text, `None` being the Invalid Date a cleared field parses to.
      The update stores that date whatever it is; the next render formats it
      with `toISOString()`, which throws, so an Invalid Date ends in failure. */
  function OnDateInput(p: Planner, field: Option<int>): (r: Result<Planner, string>)
    ensures r.Failure? <==> field.None?
    ensures r.Failure? ==> r.error == InvalidTimeValue
    ensures r.Success? ==> r.value.tripDate == field.value && r.value.destination == p.destination
    ensures r.Success? ==> |r.value.tripDays| == TripDuration
    ensures r.Success? ==> forall i :: 0 <= i < |r.value.tripDays| ==> Blank(r.value.tripDays[i], p.tripDate + i)
  {
    match field
    case None => Failure(InvalidTimeValue)
    case Some(d) => Success(UpdateTripInfo(p, d, p.destination))
  }

  /** The destination field's `onChange`: the typed text with the current date. */
  function OnDestinationInput(p: Planner, text: string): (q: Planner)
    ensures q.tripDate == p.tripDate && q.destination == text
    ensures |q.tripDays| == TripDuration
    ensures forall i :: 0 <= i < |q.tripDays| ==> Blank(q.tripDays[i], p.tripDate + i)
  {
    UpdateTripInfo(p, p.tripDate, text)
  }

  /** The day buttons show the trip's own dates. */
  ghost predicate DatesMatch(p: Planner) {
    && |p.tripDays| == TripDuration
    && forall i :: 0 <= i < |p.tripDays| ==> p.tripDays[i].date == p.tripDate + i
  }

  /** Changing the departure date leaves the days on the old dates. */
  lemma UpdateTripInfoKeepsStaleDates(p: Planner, newDate: int, newDestination: string)
    requires newDate != p.tripDate
    ensures !DatesMatch(UpdateTripInfo(p, newDate, newDestination))
    ensures UpdateTripInfo(p, newDate, newDestination).tripDays[0].date == p.tripDate
  {
    var q := UpdateTripInfo(p, newDate, newDestination);
    assert q.tripDays[0].date == q.tripDate + 0 ==> false;
  }

  /** A second update (a keystroke in the destination field, say) brings the
      days back onto the stored date. */
  lemma SecondUpdateResyncs(p: Planner, newDate: int, d1: string, d2: string)
    ensures DatesMatch(UpdateTripInfo(UpdateTripInfo(p, newDate, d1), newDate, d2))
  {
  }

  /** Picking a date and then typing in the destination field brings the days
      onto the picked date, whatever the days showed before. */
  lemma DateThenTypingResyncs(p: Planner, d: int, text: string)
    ensures OnDateInput(p, Some(d)).Success?
    ensures DatesMatch(OnDestinationInput(OnDateInput(p, Some(d)).value, text))
    ensures OnDestinationInput(OnDateInput(p, Some(d)).value, text).tripDate == d
  {
  }

  /** `updateTripInfo` as evidently intended: the days start at the new date. */
  function UpdateTripInfoIntended(p: Planner, newDate: int, newDestination: string): (q: Planner)
    ensures q.tripDate == newDate && q.destination == newDestination
    ensures DatesMatch(q)
    ensures forall i :: 0 <= i < |q.tripDays| ==> Blank(q.tripDays[i], newDate + i)
  {
    Planner(newDate, newDestination, GenerateTripDays(newDate))
  }

  /** The initial planner shows its own dates. */
  lemma InitialDatesMatch(today: int)
    ensures DatesMatch(InitialPlanner(today))
  {
  }
}
