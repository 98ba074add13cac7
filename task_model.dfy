/** The Task record (models/task_model.py): construction with coercions, the day test,
    dict (de)serialisation and the priority lookups. */
module TaskModel {
  import opened Common

  const Free: string := "Free"
  const StatusOptions: seq<string> := ["working", "planned", "closed"]
  const DayOptions: seq<string> := ["Monday", "Tuesday", "Wednesday", "Thursday", "Friday", "Free"]
  const PriorityOptions: seq<int> := [0, 1, 2, 3]
  const PriorityLabels: seq<string> := ["Low", "Normal", "High", "Critical"]
  const PriorityColors: seq<string> := ["#CCCCCC", "#2196F3", "#FFA726", "#E53935"]

  /** Recurrence rules are stored but never interpreted by the scheduler. */
  type Recurrence = map<string, string>

  /** The attribute values of one task. `perceivedEffort` is whatever integer the user typed;
      `calculatedWorkTime` is the output of the allocation. */
  datatype TaskRecord = TaskRecord(
    name: string,
    status: string,
    days: seq<string>,
    details: string,
    tags: seq<string>,
    completedToday: bool,
    perceivedEffort: int,
    calculatedWorkTime: real,
    priority: int,
    recurring: Recurrence)

  /** What the constructor guarantees of every task it builds. */
  predicate Valid(t: TaskRecord) {
    t.status in StatusOptions && t.priority in PriorityOptions && t.days != []
  }

  /** `Task.__init__`: an unknown status becomes "planned", an unknown priority 1, empty (or
      absent) days `["Free"]`; the allocation starts at 0. Absent `days`, `tags` and `recurring`
      arguments (Python's None) are passed here as the empty collection, which the source
      treats alike. */
  function NewTask(name: string, status: string, days: seq<string>, details: string, tags: seq<string>,
                   completedToday: bool, perceivedEffort: int, priority: int, recurring: Recurrence): (t: TaskRecord)
    ensures Valid(t)
    ensures status in StatusOptions ==> t.status == status
    ensures status !in StatusOptions ==> t.status == "planned"
    ensures days != [] ==> t.days == days
    ensures days == [] ==> t.days == [Free]
    ensures priority in PriorityOptions ==> t.priority == priority
    ensures priority !in PriorityOptions ==> t.priority == 1
    ensures t.calculatedWorkTime == 0.0
    ensures t.name == name && t.details == details && t.tags == tags && t.recurring == recurring
    ensures t.completedToday == completedToday && t.perceivedEffort == perceivedEffort
  {
    TaskRecord(
      name,
      if status in StatusOptions then status else "planned",
      if days != [] then days else [Free],
      details,
      tags,
      completedToday,
      perceivedEffort,
      0.0,
      if priority in PriorityOptions then priority else 1,
      recurring)
  }

  /** `Task()` with every argument left at its default. */
  function DefaultTask(): (t: TaskRecord)
    ensures Valid(t) && t.days == [Free] && t.status == "planned" && t.priority == 1
  {
    NewTask("", "planned", [], "", [], false, 0, 1, map[])
  }

  /** `is_for_today`, with the current weekday name passed in as `today`. */
  predicate IsForToday(t: TaskRecord, today: string, includeFree: bool) {
    if today in t.days then true else includeFree && Free in t.days
  }

  /** A task scheduled on "Free" is for every day once Free tasks are included. */
  lemma FreeTaskIsForEveryDay(t: TaskRecord, today: string)
    requires Free in t.days
    ensures IsForToday(t, today, true)
  {
  }

  /** Leaving Free tasks out only ever removes tasks, and removes exactly the tasks whose days
      name Free but not `today`. */
  lemma ExcludingFreeNarrows(t: TaskRecord, today: string)
    ensures IsForToday(t, today, false) ==> IsForToday(t, today, true)
    ensures IsForToday(t, today, true) && !IsForToday(t, today, false) <==> Free in t.days && today !in t.days
  {
  }

  /** A serialised task: one optional entry per key of the dict, absent keys are `None`. */
  datatype TaskDict = TaskDict(
    name: Option<string>,
    status: Option<string>,
    days: Option<seq<string>>,
    details: Option<string>,
    tags: Option<seq<string>>,
    completedToday: Option<bool>,
    perceivedEffort: Option<int>,
    priority: Option<int>,
    recurring: Option<Recurrence>,
    saveDate: Option<string>)

  const EmptyDict: TaskDict := TaskDict(None, None, None, None, None, None, None, None, None, None)

  /** `to_dict`: every attribute except the allocation, as it stands (no coercion is applied
      on the way out), stamped with the save time. */
  function ToDict(t: TaskRecord, timestamp: string): (d: TaskDict)
    ensures d.saveDate == Some(timestamp)
    ensures d.name == Some(t.name) && d.status == Some(t.status) && d.days == Some(t.days)
    ensures d.details == Some(t.details) && d.tags == Some(t.tags) && d.completedToday == Some(t.completedToday)
    ensures d.perceivedEffort == Some(t.perceivedEffort) && d.priority == Some(t.priority)
    ensures d.recurring == Some(t.recurring)
  {
    TaskDict(Some(t.name), Some(t.status), Some(t.days), Some(t.details), Some(t.tags),
             Some(t.completedToday), Some(t.perceivedEffort), Some(t.priority), Some(t.recurring),
             Some(timestamp))
  }

  /** `from_dict`: each missing key takes the constructor's default, each present value is
      kept, then the constructor's coercions apply; `save_date` is ignored. */
  function FromDict(d: TaskDict): (t: TaskRecord)
    ensures Valid(t) && t.calculatedWorkTime == 0.0
    ensures t.name == d.name.GetOr("") && t.details == d.details.GetOr("") && t.tags == d.tags.GetOr([])
    ensures t.completedToday == d.completedToday.GetOr(false) && t.perceivedEffort == d.perceivedEffort.GetOr(0)
    ensures t.recurring == d.recurring.GetOr(map[])
    ensures d.status.None? ==> t.status == "planned"
    ensures d.status.Some? ==> t.status == if d.status.value in StatusOptions then d.status.value else "planned"
    ensures d.days.None? ==> t.days == [Free]
    ensures d.days.Some? ==> t.days == if d.days.value != [] then d.days.value else [Free]
    ensures d.priority.None? ==> t.priority == 1
    ensures d.priority.Some? ==> t.priority == if d.priority.value in PriorityOptions then d.priority.value else 1
  {
    NewTask(d.name.GetOr(""), d.status.GetOr("planned"), d.days.GetOr([Free]), d.details.GetOr(""),
            d.tags.GetOr([]), d.completedToday.GetOr(false), d.perceivedEffort.GetOr(0),
            d.priority.GetOr(1), d.recurring.GetOr(map[]))
  }

  /** A task that meets the constructor's invariant survives a save and a load unchanged,
      except for the allocation, which a load resets. */
  lemma RoundTrip(t: TaskRecord, timestamp: string)
    requires Valid(t)
    ensures FromDict(ToDict(t, timestamp)) == t.(calculatedWorkTime := 0.0)
  {
  }

  /** Any task, valid or not (an update stores values without coercion), is written as it is
      and loads as the constructor would have built it from those values: the load is where
      an invalid status, priority or empty day list gets corrected. */
  lemma SaveLoadCoerces(t: TaskRecord, timestamp: string)
    ensures FromDict(ToDict(t, timestamp)) == NewTask(t.name, t.status, t.days, t.details, t.tags,
      t.completedToday, t.perceivedEffort, t.priority, t.recurring)
    ensures Valid(FromDict(ToDict(t, timestamp)))
    ensures t.status !in StatusOptions ==> FromDict(ToDict(t, timestamp)).status == "planned"
  {
  }

  /** A dict with no keys at all loads as the default task. */
  lemma EmptyDictIsDefault()
    ensures FromDict(EmptyDict) == DefaultTask()
  {
  }

  /** `get_priority_label`: a total lookup, "Normal" outside 0..3. */
  function PriorityLabel(t: TaskRecord): (text: string)
    ensures t.priority in PriorityOptions ==> text == PriorityLabels[t.priority]
    ensures t.priority !in PriorityOptions ==> text == "Normal"
  {
    match t.priority
    case 0 => "Low"
    case 1 => "Normal"
    case 2 => "High"
    case 3 => "Critical"
    case _ => "Normal"
  }

  /** `get_priority_color`: a total lookup, "#2196F3" outside 0..3. */
  function PriorityColor(t: TaskRecord): (color: string)
    ensures t.priority in PriorityOptions ==> color == PriorityColors[t.priority]
    ensures t.priority !in PriorityOptions ==> color == "#2196F3"
  {
    match t.priority
    case 0 => "#CCCCCC"
    case 1 => "#2196F3"
    case 2 => "#FFA726"
    case 3 => "#E53935"
    case _ => "#2196F3"
  }

  /** The two lookups agree: the blue colour goes with the "Normal" label and only with it,
      and distinct valid priorities get distinct labels. */
  lemma PriorityLookupsAgree(t: TaskRecord, u: TaskRecord)
    ensures PriorityColor(t) == "#2196F3" <==> PriorityLabel(t) == "Normal"
    ensures t.priority in PriorityOptions && u.priority in PriorityOptions && t.priority != u.priority
            ==> PriorityLabel(t) != PriorityLabel(u)
  {
  }

  /** A task object: its identity is what `in` and `remove` compare (the class has no
      `__eq__`), its attributes are the record `rec`, which callers update in place. */
  class Task {
    var rec: TaskRecord

    constructor (rec: TaskRecord)
      ensures this.rec == rec
    {
      this.rec := rec;
    }
  }

  /** The name of every task in `tasks`. */
  function Names(tasks: seq<Task>): (names: set<string>)
    reads tasks
    ensures forall t :: t in tasks ==> t.rec.name in names
    ensures forall n :: n in names ==> exists t :: t in tasks && t.rec.name == n
  {
    set t | t in tasks :: t.rec.name
  }
}
