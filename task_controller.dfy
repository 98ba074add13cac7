/** The task controller (controllers/task_controller.py): today's lists, attribute updates
    and the save path of today's tasks. */
module TaskControl {
  import opened Common
  import opened TaskModel
  import opened Selection
  import opened Strategy
  import opened TaskState
  import opened Schedule

  /** A value passed to `update_task` in its attribute map. */
  datatype AttrValue =
    | Text(text: string)
    | Texts(items: seq<string>)
    | Flag(flag: bool)
    | Number(number: int)
    | Decimal(decimal: real)
    | Mapping(entries: map<string, string>)

  /** The data attributes of a task object. */
  datatype Field =
    | Name | Status | Days | Details | Tags | CompletedToday | PerceivedEffort | CalculatedWorkTime
    | Priority | Recurring

  /** A key of the attribute map: the name of a data attribute (`hasattr` holds), or any other
      string. */
  datatype Key = Attribute(field: Field) | Other(name: string)

  /** A value of the kind the attribute holds; keys that are not attributes take anything. */
  predicate WellTyped(key: Key, value: AttrValue) {
    match key
    case Other(_) => true
    case Attribute(f) =>
      match f
      case Name => value.Text?
      case Status => value.Text?
      case Details => value.Text?
      case Days => value.Texts?
      case Tags => value.Texts?
      case CompletedToday => value.Flag?
      case PerceivedEffort => value.Number?
      case Priority => value.Number?
      case CalculatedWorkTime => value.Decimal?
      case Recurring => value.Mapping?
  }

  predicate WellTypedMap(attributes: map<Key, AttrValue>) {
    forall key :: key in attributes ==> WellTyped(key, attributes[key])
  }

  // The payload of a value of the expected kind; the fallback is only reached by a missing
  // value or by values that `WellTyped` excludes.
  function TextOr(v: Option<AttrValue>, d: string): string { if v.Some? && v.value.Text? then v.value.text else d }
  function TextsOr(v: Option<AttrValue>, d: seq<string>): seq<string> { if v.Some? && v.value.Texts? then v.value.items else d }
  function FlagOr(v: Option<AttrValue>, d: bool): bool { if v.Some? && v.value.Flag? then v.value.flag else d }
  function NumberOr(v: Option<AttrValue>, d: int): int { if v.Some? && v.value.Number? then v.value.number else d }
  function DecimalOr(v: Option<AttrValue>, d: real): real { if v.Some? && v.value.Decimal? then v.value.decimal else d }
  function MappingOr(v: Option<AttrValue>, d: map<string, string>): map<string, string> {
    if v.Some? && v.value.Mapping? then v.value.entries else d
  }

  /** `if hasattr(task, key): setattr(task, key, value)` on the values of one task. */
  function SetAttribute(t: TaskRecord, key: Key, value: AttrValue): TaskRecord {
    var v := Some(value);
    match key
    case Other(_) => t
    case Attribute(f) =>
      match f
      case Name => t.(name := TextOr(v, t.name))
      case Status => t.(status := TextOr(v, t.status))
      case Details => t.(details := TextOr(v, t.details))
      case Days => t.(days := TextsOr(v, t.days))
      case Tags => t.(tags := TextsOr(v, t.tags))
      case CompletedToday => t.(completedToday := FlagOr(v, t.completedToday))
      case PerceivedEffort => t.(perceivedEffort := NumberOr(v, t.perceivedEffort))
      case Priority => t.(priority := NumberOr(v, t.priority))
      case CalculatedWorkTime => t.(calculatedWorkTime := DecimalOr(v, t.calculatedWorkTime))
      case Recurring => t.(recurring := MappingOr(v, t.recurring))
  }

  /** The value the map gives for attribute `f`, if any. */
  function Given(attributes: map<Key, AttrValue>, f: Field): Option<AttrValue> {
    if Attribute(f) in attributes then Some(attributes[Attribute(f)]) else None
  }

  /** The task after the whole map is applied: each attribute the map names takes the given
      value, every other attribute keeps its own. */
  function Overlay(t: TaskRecord, attributes: map<Key, AttrValue>): TaskRecord {
    TaskRecord(
      TextOr(Given(attributes, Name), t.name),
      TextOr(Given(attributes, Status), t.status),
      TextsOr(Given(attributes, Days), t.days),
      TextOr(Given(attributes, Details), t.details),
      TextsOr(Given(attributes, Tags), t.tags),
      FlagOr(Given(attributes, CompletedToday), t.completedToday),
      NumberOr(Given(attributes, PerceivedEffort), t.perceivedEffort),
      DecimalOr(Given(attributes, CalculatedWorkTime), t.calculatedWorkTime),
      NumberOr(Given(attributes, Priority), t.priority),
      MappingOr(Given(attributes, Recurring), t.recurring))
  }

  /** Setting one more key on top of an overlay gives the overlay of the larger map, so the
      order in which the loop visits the keys does not matter. */
  lemma OverlayStep(t: TaskRecord, applied: map<Key, AttrValue>, key: Key, value: AttrValue)
    requires key !in applied
    ensures SetAttribute(Overlay(t, applied), key, value) == Overlay(t, applied[key := value])
  {
    match key
    case Other(_) =>
      forall f: Field ensures Given(applied[key := value], f) == Given(applied, f) {
      }
    case Attribute(g) =>
      OverlayStepAttribute(t, applied, g, value);
  }

  lemma OverlayStepAttribute(t: TaskRecord, applied: map<Key, AttrValue>, g: Field, value: AttrValue)
    requires Attribute(g) !in applied
    ensures SetAttribute(Overlay(t, applied), Attribute(g), value) == Overlay(t, applied[Attribute(g) := value])
  {
    var larger := applied[Attribute(g) := value];
    forall f: Field | f != g ensures Given(larger, f) == Given(applied, f) {
    }
    var o, v := Overlay(t, applied), Some(value);
    assert Given(larger, g) == v;
    match g
    case Name => assert Overlay(t, larger) == o.(name := TextOr(v, o.name));
    case Status => assert Overlay(t, larger) == o.(status := TextOr(v, o.status));
    case Details => assert Overlay(t, larger) == o.(details := TextOr(v, o.details));
    case Days => assert Overlay(t, larger) == o.(days := TextsOr(v, o.days));
    case Tags => assert Overlay(t, larger) == o.(tags := TextsOr(v, o.tags));
    case CompletedToday => assert Overlay(t, larger) == o.(completedToday := FlagOr(v, o.completedToday));
    case PerceivedEffort => assert Overlay(t, larger) == o.(perceivedEffort := NumberOr(v, o.perceivedEffort));
    case Priority => assert Overlay(t, larger) == o.(priority := NumberOr(v, o.priority));
    case CalculatedWorkTime => assert Overlay(t, larger) == o.(calculatedWorkTime := DecimalOr(v, o.calculatedWorkTime));
    case Recurring => assert Overlay(t, larger) == o.(recurring := MappingOr(v, o.recurring));
  }

  /** Two different keys commute: setting them in either order gives the same task. */
  lemma SetAttributeCommutes(t: TaskRecord, k1: Key, v1: AttrValue, k2: Key, v2: AttrValue)
    requires k1 != k2
    ensures SetAttribute(SetAttribute(t, k1, v1), k2, v2) == SetAttribute(SetAttribute(t, k2, v2), k1, v1)
  {
    var empty: map<Key, AttrValue> := map[];
    assert Overlay(t, empty) == t;
    OverlayStep(t, empty, k1, v1);
    OverlayStep(t, empty[k1 := v1], k2, v2);
    OverlayStep(t, empty, k2, v2);
    OverlayStep(t, empty[k2 := v2], k1, v1);
    assert empty[k1 := v1][k2 := v2] == empty[k2 := v2][k1 := v1];
  }

  /** With a well-typed map, each attribute the map names takes the given value as is and every
      other attribute keeps its value. */
  lemma OverlayValues(t: TaskRecord, attributes: map<Key, AttrValue>)
    requires WellTypedMap(attributes)
    ensures Attribute(Status) in attributes ==> Overlay(t, attributes).status == attributes[Attribute(Status)].text
    ensures Attribute(Days) in attributes ==> Overlay(t, attributes).days == attributes[Attribute(Days)].items
    ensures Attribute(Priority) in attributes ==> Overlay(t, attributes).priority == attributes[Attribute(Priority)].number
    ensures Attribute(Status) !in attributes ==> Overlay(t, attributes).status == t.status
    ensures Overlay(t, map[]) == t
  {
    if Attribute(Status) in attributes {
      assert WellTyped(Attribute(Status), attributes[Attribute(Status)]);
    }
    if Attribute(Days) in attributes {
      assert WellTyped(Attribute(Days), attributes[Attribute(Days)]);
    }
    if Attribute(Priority) in attributes {
      assert WellTyped(Attribute(Priority), attributes[Attribute(Priority)]);
    }
  }

  /** The value a key gives is the last thing applied to its attribute: the overlay is the
      overlay of the other keys with that one set on top. */
  lemma OverlayFields(t: TaskRecord, attributes: map<Key, AttrValue>, f: Field)
    ensures Attribute(f) in attributes ==> Overlay(t, attributes) == SetAttribute(Overlay(t, attributes - {Attribute(f)}), Attribute(f), attributes[Attribute(f)])
  {
    if Attribute(f) in attributes {
      var rest := attributes - {Attribute(f)};
      OverlayStep(t, rest, Attribute(f), attributes[Attribute(f)]);
      assert rest[Attribute(f) := attributes[Attribute(f)]] == attributes;
    }
  }

  /** Values are stored verbatim, without the constructor's coercions: an update can leave a
      task with a status outside the three or with no days, and an unknown key is ignored. */
  lemma UpdateDoesNotCoerce(t: TaskRecord)
    ensures Overlay(t, map[Attribute(Status) := Text("done")]).status == "done"
    ensures !Valid(Overlay(t, map[Attribute(Days) := Texts([])]))
    ensures Overlay(t, map[Other("colour") := Text("red")]) == t
  {
  }

  class TaskController {
    const model: ScheduleModel
    var currentFilterStrategy: FilterStrategy

    /** A new controller filters with `TodayTasksFilter()`. */
    constructor (model: ScheduleModel)
      ensures this.model == model && currentFilterStrategy == DefaultTodayFilter
    {
      this.model := model;
      currentFilterStrategy := DefaultTodayFilter;
    }

    /** `set_filter_strategy`: the strategy later `get_filtered_tasks` calls use. (The
        TypeError for a non-strategy argument is ruled out by the parameter's type.) */
    method SetFilterStrategy(strategy: FilterStrategy)
      modifies this`currentFilterStrategy
      ensures currentFilterStrategy == strategy
    {
      currentFilterStrategy := strategy;
    }

    /** `get_filtered_tasks`: the current strategy applied to the store's task list. */
    function GetFilteredTasks(today: string): (r: seq<Task>)
      reads this, model`tasks, model.tasks
      ensures IsSubsequence(r, model.tasks)
      ensures currentFilterStrategy.TodayTasksFilter? ==> forall t :: t in model.tasks ==>
        multiset(r)[t] == if today in t.rec.days || (currentFilterStrategy.includeExceptions && Free in t.rec.days)
          then multiset(model.tasks)[t] else 0
      ensures currentFilterStrategy.StatusTasksFilter? ==> forall t :: t in model.tasks ==>
        multiset(r)[t] == if t.rec.status == currentFilterStrategy.status then multiset(model.tasks)[t] else 0
    {
      Filter(currentFilterStrategy, model.tasks, today)
    }

    /** `add_task`: handed to the store, which appends and notifies. */
    method AddTask(task: Task)
      modifies model, model.subject`delivered
      ensures model.tasks == old(model.tasks) + [task] && model.tags == old(model.tags)
      ensures model.writes == old(model.writes)
      ensures model.subject.delivered == old(model.subject.delivered) + model.subject.observers
      ensures model.notices == old(model.notices) + [model.View()]
    {
      model.AddTask(task);
    }

    /** `delete_task`: handed to the store, which removes this very object and notifies only
        when it was there. */
    method DeleteTask(task: Task)
      modifies model, model.subject`delivered
      ensures model.tasks == RemoveFirst(old(model.tasks), task) && model.tags == old(model.tags)
      ensures model.writes == old(model.writes)
      ensures task in old(model.tasks) ==> model.subject.delivered == old(model.subject.delivered) + model.subject.observers
      ensures task in old(model.tasks) ==> model.notices == old(model.notices) + [model.View()]
      ensures task !in old(model.tasks) ==> model.subject.delivered == old(model.subject.delivered)
      ensures task !in old(model.tasks) ==> model.notices == old(model.notices)
    {
      model.DeleteTask(task);
    }

    /** `delete_closed_tasks`: handed to the store, which keeps the open tasks and notifies. */
    method DeleteClosedTasks()
      modifies model, model.subject`delivered
      ensures forall t :: t in old(model.tasks) ==> (t in model.tasks <==> t.rec.status != "closed")
      ensures forall t :: t in old(model.tasks) ==>
        multiset(model.tasks)[t] == if t.rec.status != "closed" then multiset(old(model.tasks))[t] else 0
      ensures IsSubsequence(model.tasks, old(model.tasks))
      ensures model.tags == old(model.tags) && model.writes == old(model.writes)
      ensures model.subject.delivered == old(model.subject.delivered) + model.subject.observers
      ensures model.notices == old(model.notices) + [model.View()]
    {
      model.DeleteClosedTasks();
    }

    /** `create_new_task`: empty days become ["Free"], and the rest of the constructor's
        defaults and coercions apply. */
    method CreateNewTask(name: string, status: string, days: seq<string>, details: string, tags: seq<string>)
      returns (task: Task)
      ensures fresh(task)
      ensures task.rec == NewTask(name, status, if days != [] then days else [Free], details, tags, false, 0, 1, map[])
    {
      task := new Task(NewTask(name, status, if days != [] then days else [Free], details, tags, false, 0, 1, map[]));
    }

    /** `update_task`: every key that names an attribute overwrites it verbatim, other keys are
        ignored, observers are notified once, and the answer is true. The state lookup the
        source does for a new status feeds nothing and is omitted. */
    method UpdateTask(task: Task, attributes: map<Key, AttrValue>) returns (ok: bool)
      requires WellTypedMap(attributes)
      modifies task, model`notices, model.subject`delivered
      ensures ok && task.rec == Overlay(old(task.rec), attributes)
      ensures model.subject.delivered == old(model.subject.delivered) + model.subject.observers
      ensures model.notices == old(model.notices) + [model.View()]
    {
      ghost var original := task.rec;
      var pending := attributes.Keys;
      ghost var applied: map<Key, AttrValue> := map[];
      while pending != {}
        invariant pending <= attributes.Keys
        invariant applied.Keys == attributes.Keys - pending
        invariant forall key :: key in applied ==> applied[key] == attributes[key]
        invariant task.rec == Overlay(original, applied)
        invariant model.subject.delivered == old(model.subject.delivered)
        invariant model.notices == old(model.notices)
        decreases pending
      {
        var key :| key in pending;
        OverlayStep(original, applied, key, attributes[key]);
        if key.Attribute? {
          task.rec := SetAttribute(task.rec, key, attributes[key]);
        }
        applied := applied[key := attributes[key]];
        pending := pending - {key};
      }
      assert applied == attributes;
      model.Notify();
      ok := true;
    }

    /** `get_today_tasks` with the weekday passed in. For auto-adding, exactly the tasks that
        name today and not Free, in order; otherwise the store's today list. */
    function GetTodayTasks(today: string, includeFree: bool, autoAddOnlyToday: bool): (r: seq<Task>)
      reads this, model`tasks, model.tasks
      ensures autoAddOnlyToday ==> forall t :: t in model.tasks ==>
        (t in r <==> today in t.rec.days && Free !in t.rec.days)
      ensures !autoAddOnlyToday ==> forall t :: t in model.tasks ==>
        (t in r <==> today in t.rec.days || (includeFree && Free in t.rec.days))
      ensures forall t :: t in r ==> t in model.tasks
      ensures IsSubsequence(r, model.tasks)
    {
      if autoAddOnlyToday then
        SelectMembership(ExplicitlyOn(today), model.tasks);
        SelectIsSubsequence(ExplicitlyOn(today), model.tasks);
        Select(ExplicitlyOn(today), model.tasks)
      else
        model.GetTodayTasks(today, false, includeFree)
    }

    /** `save_tasks`. */
    method SaveTasks(timestamp: string) returns (ok: bool)
      modifies model`writes
      ensures ok && model.writes == old(model.writes) + [TasksFile(Dicts(model.tasks, timestamp))]
    {
      var _ := model.SaveTasks(timestamp);
      ok := true;
    }

    /** `save_today_tasks`: no list (None) is refused at once. Otherwise the store saves it;
        when that succeeds the full task list is saved too, observers are notified, and the
        answer is true; when it fails nothing else happens. */
    method SaveTodayTasks(todayTasks: Option<seq<Task>>, date: string, timestamp: string, writeSucceeds: bool)
      returns (ok: bool)
      modifies model`writes, model`notices, model.subject`delivered
      ensures ok <==> todayTasks.Some? && todayTasks.value != [] && writeSucceeds
      ensures ok ==>
        model.writes == old(model.writes) + [TodayTasksFile(date, Dicts(todayTasks.value, timestamp)), TasksFile(Dicts(model.tasks, timestamp))]
      ensures ok ==> model.subject.delivered == old(model.subject.delivered) + model.subject.observers
      ensures ok ==> model.notices == old(model.notices) + [model.View()]
      ensures !ok ==> model.writes == old(model.writes) && model.subject.delivered == old(model.subject.delivered)
      ensures !ok ==> model.notices == old(model.notices)
    {
      if todayTasks.None? {
        return false;
      }
      var saved := model.SaveTodayTasks(todayTasks.value, date, timestamp, writeSucceeds);
      if saved {
        var _ := SaveTasks(timestamp);
        model.Notify();
        ok := true;
      } else {
        ok := false;
      }
    }

    /** `get_all_tasks`: a copy of the store's list (a sequence is a value, so later changes to
        either list do not reach the other). */
    function GetAllTasks(): (r: seq<Task>)
      reads this, model`tasks
      ensures |r| == |model.tasks| && forall i :: 0 <= i < |r| ==> r[i] == model.tasks[i]
    {
      model.tasks
    }

    /** `get_all_tags`: a copy of the store's tag list. */
    function GetAllTags(): (r: seq<string>)
      reads this, model`tags
      ensures |r| == |model.tags| && forall i :: 0 <= i < |r| ==> r[i] == model.tags[i]
    {
      model.tags
    }

    /** `add_tag`: the store adds the tag (saving and notifying when it is new) and the tag
        file is written once more regardless. */
    method AddTag(tag: string)
      modifies model, model.subject`delivered
      ensures model.tasks == old(model.tasks) && tag in model.tags
      ensures tag !in old(model.tags) ==> model.tags == old(model.tags) + [tag]
      ensures tag !in old(model.tags) ==> model.writes == old(model.writes) + [TagsFile(model.tags), TagsFile(model.tags)]
      ensures tag !in old(model.tags) ==> model.subject.delivered == old(model.subject.delivered) + model.subject.observers
      ensures tag !in old(model.tags) ==> model.notices == old(model.notices) + [model.View()]
      ensures tag in old(model.tags) ==> model.tags == old(model.tags) && model.notices == old(model.notices)
      ensures tag in old(model.tags) ==> model.writes == old(model.writes) + [TagsFile(model.tags)]
      ensures tag in old(model.tags) ==> model.subject.delivered == old(model.subject.delivered)
    {
      model.AddTag(tag);
      var _ := model.SaveTags();
    }

    /** `delete_tag`: the store deletes the tag (saving and notifying when it was there) and
        the tag file is written once more regardless. */
    method DeleteTag(tag: string)
      modifies model, model.subject`delivered
      ensures model.tasks == old(model.tasks) && model.tags == RemoveFirst(old(model.tags), tag)
      ensures tag in old(model.tags) ==> model.writes == old(model.writes) + [TagsFile(model.tags), TagsFile(model.tags)]
      ensures tag in old(model.tags) ==> model.subject.delivered == old(model.subject.delivered) + model.subject.observers
      ensures tag in old(model.tags) ==> model.notices == old(model.notices) + [model.View()]
      ensures tag !in old(model.tags) ==> model.writes == old(model.writes) + [TagsFile(model.tags)]
      ensures tag !in old(model.tags) ==> model.subject.delivered == old(model.subject.delivered)
      ensures tag !in old(model.tags) ==> model.notices == old(model.notices)
    {
      model.DeleteTag(tag);
      var _ := model.SaveTags();
    }

    /** The merge loop of `refresh_today_task_view` for a view that already lists tasks: the
        names are collected once, then every auto-add task whose name is not among them is
        appended, in order. */
    method MergeAutoTasks(current: seq<Task>, autoTasks: seq<Task>) returns (merged: seq<Task>)
      ensures merged == current + Select(NameNotIn(Names(current)), autoTasks)
    {
      var names := set t | t in current :: t.rec.name;
      merged := current;
      for i := 0 to |autoTasks|
        invariant merged == current + Select(NameNotIn(names), autoTasks[..i])
      {
        MergeStep(current, autoTasks, names, i, merged);
        if autoTasks[i].rec.name !in names {
          merged := merged + [autoTasks[i]];
        }
      }
      assert autoTasks[..|autoTasks|] == autoTasks;
    }
  }

  /** One turn of the merge loop extends the merged list by the selection of one more task. */
  lemma MergeStep(current: seq<Task>, autoTasks: seq<Task>, names: set<string>, i: nat, merged: seq<Task>)
    requires i < |autoTasks| && merged == current + Select(NameNotIn(names), autoTasks[..i])
    ensures (if autoTasks[i].rec.name !in names then merged + [autoTasks[i]] else merged)
      == current + Select(NameNotIn(names), autoTasks[..i + 1])
  {
    SelectPrefixStep(NameNotIn(names), autoTasks, i);
    if autoTasks[i].rec.name !in names {
      assert merged + [autoTasks[i]] == current + (Select(NameNotIn(names), autoTasks[..i]) + [autoTasks[i]]);
    }
  }

  /** The merged list keeps the view's tasks as a prefix and adds exactly the auto-add tasks
      whose names the view did not already list, in auto-add order. */
  lemma MergeProperties(current: seq<Task>, autoTasks: seq<Task>, merged: seq<Task>)
    requires merged == current + Select(NameNotIn(Names(current)), autoTasks)
    ensures merged[..|current|] == current
    ensures forall t :: t in autoTasks ==> (t in merged[|current|..] <==> t.rec.name !in Names(current))
    ensures IsSubsequence(merged[|current|..], autoTasks)
  {
    SelectExact(NameNotIn(Names(current)), autoTasks);
    assert merged[|current|..] == Select(NameNotIn(Names(current)), autoTasks);
  }

  /** The controller's today list holds each task it keeps as often as the store lists it:
      for auto-adding the tasks that name today and not Free, otherwise the store's today
      list, with Free tasks when `includeFree`. */
  lemma TodayListCounts(c: TaskController, today: string, includeFree: bool, autoAddOnlyToday: bool)
    ensures autoAddOnlyToday ==> forall t :: t in c.model.tasks ==>
      multiset(c.GetTodayTasks(today, includeFree, true))[t] ==
        if today in t.rec.days && Free !in t.rec.days then multiset(c.model.tasks)[t] else 0
    ensures !autoAddOnlyToday ==> forall t :: t in c.model.tasks ==>
      multiset(c.GetTodayTasks(today, includeFree, false))[t] ==
        if today in t.rec.days || (includeFree && Free in t.rec.days) then multiset(c.model.tasks)[t] else 0
  {
    if autoAddOnlyToday {
      SelectCounts(ExplicitlyOn(today), c.model.tasks);
    } else {
      TodayTasksCounts(c.model, today, includeFree);
    }
  }
}
