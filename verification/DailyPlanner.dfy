/** The itinerary editor of components/features/planner/DailyPlanner.tsx:
    add, edit and delete activities and edit notes on the selected day. */
module DailyPlanner {
  import opened Wrappers
  import Lists
  import opened TripPlanner

  /** One field edit, as the inputs issue them: `updateActivity(id, field, value)`
      with the field name turned into a constructor. */
  datatype FieldUpdate =
    | SetTitle(title: string)
    | SetTime(time: string)
    | SetDescription(description: string)
    | SetLocation(location: string)
    | SetPriority(priority: Priority)

  /** The trip days the parent owns, with the selected day index. */
  datatype View = View(days: seq<TripDay>, activeDay: nat)

  const DefaultTitle := "New Activity"
  const DefaultTime := "12:00"
  const DefaultDescription := "Add description here"

  /** The activity `addActivity` creates; the id stands for `activity-${Date.now()}`. */
  function NewActivity(id: string): (a: Activity)
    ensures a.id == id && a.title == "New Activity" && a.time == "12:00"
    ensures a.description == "Add description here" && a.location == "" && a.priority == Medium
  {
    Activity(id, DefaultTitle, DefaultTime, DefaultDescription, "", Medium)
  }

  /** No two activities share an id. */
  ghost predicate UniqueIds(acts: seq<Activity>) {
    forall i, j :: 0 <= i < j < |acts| ==> acts[i].id != acts[j].id
  }

  /** No activity has the id `id`. */
  ghost predicate Fresh(acts: seq<Activity>, id: string) {
    forall i :: 0 <= i < |acts| ==> acts[i].id != id
  }

  /** `days` with the activity list of day `k` replaced. */
  function WithActivities(days: seq<TripDay>, k: nat, acts: seq<Activity>): (r: seq<TripDay>)
    requires k < |days|
    ensures |r| == |days|
    ensures forall i :: 0 <= i < |days| && i != k ==> r[i] == days[i]
    ensures r[k] == days[k].(activities := acts)
  {
    days[k := days[k].(activities := acts)]
  }

  /** `addActivity`: one default activity at the end of the selected day. */
  function AddActivity(days: seq<TripDay>, activeDay: nat, freshId: string): (r: seq<TripDay>)
    requires activeDay < |days|
    ensures |r| == |days|
    ensures forall i :: 0 <= i < |days| && i != activeDay ==> r[i] == days[i]
    ensures r[activeDay].date == days[activeDay].date && r[activeDay].notes == days[activeDay].notes
    ensures |r[activeDay].activities| == |days[activeDay].activities| + 1
    ensures r[activeDay].activities[..|days[activeDay].activities|] == days[activeDay].activities
    ensures r[activeDay].activities[|days[activeDay].activities|] == NewActivity(freshId)
  {
    WithActivities(days, activeDay, days[activeDay].activities + [NewActivity(freshId)])
  }

  /** `updateNotes`: the selected day's notes, and nothing else, change. */
  function UpdateNotes(days: seq<TripDay>, activeDay: nat, notes: string): (r: seq<TripDay>)
    requires activeDay < |days|
    ensures |r| == |days|
    ensures forall i :: 0 <= i < |days| && i != activeDay ==> r[i] == days[i]
    ensures r[activeDay] == days[activeDay].(notes := notes)
  {
    days[activeDay := days[activeDay].(notes := notes)]
  }

  /** The activity with one field set. */
  function ApplyUpdate(a: Activity, u: FieldUpdate): (r: Activity)
    ensures u.SetTitle? ==> r.title == u.title
    ensures u.SetTime? ==> r.time == u.time
    ensures u.SetDescription? ==> r.description == u.description
    ensures u.SetLocation? ==> r.location == u.location
    ensures u.SetPriority? ==> r.priority == u.priority
  {
    match u
    case SetTitle(v) => a.(title := v)
    case SetTime(v) => a.(time := v)
    case SetDescription(v) => a.(description := v)
    case SetLocation(v) => a.(location := v)
    case SetPriority(v) => a.(priority := v)
  }

  /** An update keeps the id and changes the named field only. */
  lemma ApplyUpdateChangesOneField(a: Activity, u: FieldUpdate)
    ensures ApplyUpdate(a, u).id == a.id
    ensures !u.SetTitle? ==> ApplyUpdate(a, u).title == a.title
    ensures !u.SetTime? ==> ApplyUpdate(a, u).time == a.time
    ensures !u.SetDescription? ==> ApplyUpdate(a, u).description == a.description
    ensures !u.SetLocation? ==> ApplyUpdate(a, u).location == a.location
    ensures !u.SetPriority? ==> ApplyUpdate(a, u).priority == a.priority
  {
  }

  /** The `findIndex` lookup of `updateActivity`. */
  function FindActivity(acts: seq<Activity>, id: string): (r: Option<nat>)
    ensures r.None? <==> Fresh(acts, id)
    ensures r.Some? ==> r.value < |acts| && acts[r.value].id == id
    ensures r.Some? ==> forall j :: 0 <= j < r.value ==> acts[j].id != id
  {
    Lists.FindFirst(acts, (a: Activity) => a.id == id)
  }

  /** `updateActivity`: `None` when the selected day has no activity with the
      id (the parent's setter is not called); otherwise the first such
      activity gets the update and everything else is kept. */
  function UpdateActivity(days: seq<TripDay>, activeDay: nat, id: string, u: FieldUpdate): (r: Option<seq<TripDay>>)
    requires activeDay < |days|
    ensures r.None? <==> Fresh(days[activeDay].activities, id)
    ensures r.Some? ==>
      var acts := days[activeDay].activities;
      var k := FindActivity(acts, id).value;
      && |r.value| == |days|
      && (forall i :: 0 <= i < |days| && i != activeDay ==> r.value[i] == days[i])
      && r.value[activeDay].date == days[activeDay].date
      && r.value[activeDay].notes == days[activeDay].notes
      && |r.value[activeDay].activities| == |acts|
      && r.value[activeDay].activities[k] == ApplyUpdate(acts[k], u)
      && (forall j :: 0 <= j < |acts| && j != k ==> r.value[activeDay].activities[j] == acts[j])
  {
    var acts := days[activeDay].activities;
    match FindActivity(acts, id)
    case None => None
    case Some(k) => Some(WithActivities(days, activeDay, acts[k := ApplyUpdate(acts[k], u)]))
  }

  /** What `deleteActivity` keeps of a day's list: every activity without that id, in order. */
  function WithoutId(acts: seq<Activity>, id: string): (r: seq<Activity>)
    ensures Fresh(r, id)
    ensures forall i :: 0 <= i < |r| ==> r[i] in acts
    ensures forall i :: 0 <= i < |acts| && acts[i].id != id ==> acts[i] in r
  {
    Lists.Filter(acts, (a: Activity) => a.id != id)
  }

  /** Deletion drops exactly the activities carrying the id, and keeps every
      other one as many times as the day held it. */
  lemma WithoutIdMultiset(acts: seq<Activity>, id: string)
    ensures forall a :: multiset(WithoutId(acts, id))[a] == if a.id == id then 0 else multiset(acts)[a]
  {
    Lists.FilterMultiset(acts, (a: Activity) => a.id != id);
  }

  /** `deleteActivity` once its fade-out completes: the selected day loses
      every activity with the id; all else stays. */
  function DeleteActivity(days: seq<TripDay>, activeDay: nat, id: string): (r: seq<TripDay>)
    requires activeDay < |days|
    ensures |r| == |days|
    ensures forall i :: 0 <= i < |days| && i != activeDay ==> r[i] == days[i]
    ensures r[activeDay].date == days[activeDay].date && r[activeDay].notes == days[activeDay].notes
    ensures Fresh(r[activeDay].activities, id)
    ensures forall a :: a in days[activeDay].activities && a.id != id ==> a in r[activeDay].activities
    ensures forall a :: a in r[activeDay].activities ==> a in days[activeDay].activities
  {
    WithActivities(days, activeDay, WithoutId(days[activeDay].activities, id))
  }

  /** On the selected day, deletion changes the multiset of activities only by
      removing every copy of those with the id. */
  lemma DeleteActivityMultiset(days: seq<TripDay>, activeDay: nat, id: string)
    requires activeDay < |days|
    ensures var after := DeleteActivity(days, activeDay, id)[activeDay].activities;
      forall a :: multiset(after)[a] == if a.id == id then 0 else multiset(days[activeDay].activities)[a]
  {
    WithoutIdMultiset(days[activeDay].activities, id);
  }

  /** Deleting an id nobody has keeps the list as it is. */
  lemma WithoutAbsentId(acts: seq<Activity>, id: string)
    requires Fresh(acts, id)
    ensures WithoutId(acts, id) == acts
  {
    Lists.FilterKeepsAll(acts, (a: Activity) => a.id != id);
  }

  /** Deletion keeps the survivors' order: it distributes over concatenation. */
  lemma WithoutIdAppend(a: seq<Activity>, b: seq<Activity>, id: string)
    ensures WithoutId(a + b, id) == WithoutId(a, id) + WithoutId(b, id)
  {
    Lists.FilterAppend(a, b, (x: Activity) => x.id != id);
  }

  /** Adding an activity under a fresh id and then deleting that id gives back the days unchanged. */
  lemma AddThenDeleteRestores(days: seq<TripDay>, activeDay: nat, freshId: string)
    requires activeDay < |days|
    requires Fresh(days[activeDay].activities, freshId)
    ensures DeleteActivity(AddActivity(days, activeDay, freshId), activeDay, freshId) == days
  {
    var acts := days[activeDay].activities;
    var added := AddActivity(days, activeDay, freshId);
    assert added[activeDay].activities == acts + [NewActivity(freshId)];
    WithoutIdAppend(acts, [NewActivity(freshId)], freshId);
    WithoutAbsentId(acts, freshId);
    Lists.FilterDropsAll([NewActivity(freshId)], (x: Activity) => x.id != freshId);
    var r := DeleteActivity(added, activeDay, freshId);
    assert r[activeDay] == days[activeDay];
    assert r == days;
  }

  /** Adding under a fresh id, editing, and deleting keep ids unique within the day. */
  lemma EditsKeepIdsUnique(days: seq<TripDay>, activeDay: nat, id: string, freshId: string, u: FieldUpdate)
    requires activeDay < |days|
    requires UniqueIds(days[activeDay].activities)
    requires Fresh(days[activeDay].activities, freshId)
    ensures UniqueIds(AddActivity(days, activeDay, freshId)[activeDay].activities)
    ensures UpdateActivity(days, activeDay, id, u).Some? ==>
      UniqueIds(UpdateActivity(days, activeDay, id, u).value[activeDay].activities)
    ensures UniqueIds(DeleteActivity(days, activeDay, id)[activeDay].activities)
  {
    var acts := days[activeDay].activities;
    var r := UpdateActivity(days, activeDay, id, u);
    if r.Some? {
      var k := FindActivity(acts, id).value;
      ApplyUpdateChangesOneField(acts[k], u);
    }
    var key := (a: Activity) => a.id;
    assert Lists.DistinctKeys(acts, key);
    Lists.FilterKeepsDistinct(acts, (a: Activity) => a.id != id, key);
    var kept := DeleteActivity(days, activeDay, id)[activeDay].activities;
    assert Lists.DistinctKeys(kept, key);
  }

  /** Selecting another day (a tab click) changes which day is edited and no trip data. */
  function SelectDay(v: View, index: nat): (w: View)
    requires index < |v.days|
    ensures w.days == v.days && w.activeDay == index
  {
    v.(activeDay := index)
  }

  /** The edits keep the number of days, so the selected index stays valid. */
  lemma EditsKeepDayCount(days: seq<TripDay>, activeDay: nat, id: string, u: FieldUpdate, notes: string)
    requires activeDay < |days| == TripDuration
    ensures |AddActivity(days, activeDay, id)| == TripDuration
    ensures |UpdateNotes(days, activeDay, notes)| == TripDuration
    ensures |DeleteActivity(days, activeDay, id)| == TripDuration
    ensures UpdateActivity(days, activeDay, id, u).Some? ==> |UpdateActivity(days, activeDay, id, u).value| == TripDuration
  {
  }
}
