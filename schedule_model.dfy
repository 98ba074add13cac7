/** The schedule store (models/schedule_model.py): the task and tag lists, their change
    notification, and what each save writes. */
module Schedule {
  import opened Common
  import opened TaskModel
  import opened Selection
  import opened Strategy
  import opened Notification

  /** The tag list of a store that has not loaded a tag file. */
  const DefaultTags: seq<string> := ["Work", "Personal", "Meeting", "Development", "Documentation"]

  /** What reading a data file at start-up gave: no file, its parsed content, or an error
      (unreadable file, malformed JSON, an entry `from_dict` cannot take). */
  datatype LoadResult<T> = Missing | Loaded(data: T) | Unreadable

  /** One task's line in a work-time record. */
  datatype WorkTimeEntry = WorkTimeEntry(name: string, tags: seq<string>, workTime: real, perceivedEffort: int)

  /** One saved calculation: its time stamp and the tasks it covered. */
  datatype WorkTimeRecord = WorkTimeRecord(date: string, tasks: seq<WorkTimeEntry>)

  /** What the work-time history file held before a save. */
  datatype HistoryContent =
    | NoFile
    | Unparsable
    /** Valid JSON, but not a list. */
    | NotAList
    | Entries(records: seq<WorkTimeRecord>)

  /** The content of one completed file write. */
  datatype FileWrite =
    | TasksFile(tasks: seq<TaskDict>)
    | TagsFile(tags: seq<string>)
    | TodayTasksFile(date: string, todayTasks: seq<TaskDict>)
    | WorkTimeFile(records: seq<WorkTimeRecord>)

  /** What an observer's `update(subject)` call can read of the store: its task list, the
      attributes of those tasks at that moment, and its tag list. */
  datatype StoreView = StoreView(records: seq<TaskRecord>, tags: seq<string>)

  /** How a save that may raise ended. */
  datatype Outcome = Returned(value: bool) | Raised

  /** Every task serialised with `to_dict`, in list order. */
  function Dicts(tasks: seq<Task>, timestamp: string): (dicts: seq<TaskDict>)
    reads tasks
    ensures |dicts| == |tasks|
    ensures forall i :: 0 <= i < |tasks| ==> dicts[i] == ToDict(tasks[i].rec, timestamp)
  {
    seq(|tasks|, i reads tasks requires 0 <= i < |tasks| => ToDict(tasks[i].rec, timestamp))
  }

  /** The record `save_work_time` builds for `calculated`: name, tags, allocation and effort of
      each task, in order. */
  function WorkTimeRecordOf(calculated: seq<Task>, date: string): (record: WorkTimeRecord)
    reads calculated
    ensures record.date == date && |record.tasks| == |calculated|
    ensures forall i :: 0 <= i < |calculated| ==>
      var t := calculated[i].rec;
      record.tasks[i] == WorkTimeEntry(t.name, t.tags, t.calculatedWorkTime, t.perceivedEffort)
  {
    WorkTimeRecord(date, seq(|calculated|, i reads calculated requires 0 <= i < |calculated| =>
      WorkTimeEntry(calculated[i].rec.name, calculated[i].rec.tags,
                    calculated[i].rec.calculatedWorkTime, calculated[i].rec.perceivedEffort)))
  }

  /** The history written back: the existing list with `record` appended; a missing,
      unreadable or non-list file counts as an empty history. */
  function AppendedHistory(history: HistoryContent, record: WorkTimeRecord): (records: seq<WorkTimeRecord>)
    ensures |records| > 0 && records[|records| - 1] == record
    ensures history.Entries? ==> records[..|records| - 1] == history.records
    ensures !history.Entries? ==> records == [record]
  {
    match history
    case Entries(previous) => previous + [record]
    case _ => [record]
  }

  /** Saving twice keeps both records, oldest first: the history only ever grows. */
  lemma HistoryAccumulates(history: HistoryContent, first: WorkTimeRecord, second: WorkTimeRecord)
    ensures AppendedHistory(Entries(AppendedHistory(history, first)), second)
         == AppendedHistory(history, first) + [second]
    ensures |AppendedHistory(Entries(AppendedHistory(history, first)), second)| >= 2
  {
  }

  /** `[Task.from_dict(d) for d in data]`: one new task object per dict. */
  method TasksFromDicts(data: seq<TaskDict>) returns (tasks: seq<Task>)
    ensures |tasks| == |data|
    ensures forall i :: 0 <= i < |data| ==> fresh(tasks[i]) && tasks[i].rec == FromDict(data[i])
    ensures NoDuplicates(tasks)
  {
    tasks := [];
    for i := 0 to |data|
      invariant |tasks| == i
      invariant forall j :: 0 <= j < i ==> fresh(tasks[j]) && tasks[j].rec == FromDict(data[j])
      invariant NoDuplicates(tasks)
    {
      var t := new Task(FromDict(data[i]));
      tasks := tasks + [t];
    }
  }

  class ScheduleModel {
    /** The observer list the model inherits from `Subject`. */
    const subject: Subject
    var tasks: seq<Task>
    var tags: seq<string>
    /** Every completed write to a data file, oldest first. */
    var writes: seq<FileWrite>
    /** What the store showed its observers at each notification, oldest first. */
    var notices: seq<StoreView>

    /** The store as an observer sees it now. */
    function View(): (v: StoreView)
      reads this`tasks, this`tags, tasks
      ensures v.tags == tags && |v.records| == |tasks|
      ensures forall i :: 0 <= i < |tasks| ==> v.records[i] == tasks[i].rec
    {
      var current := tasks;
      StoreView(seq(|current|, i reads current requires 0 <= i < |current| => current[i].rec), tags)
    }

    /** `notify`, inherited from `Subject`: every attached observer is updated once, and each
        of them sees the store as it is at this moment. */
    method Notify()
      modifies this`notices, subject`delivered
      ensures subject.delivered == old(subject.delivered) + subject.observers
      ensures notices == old(notices) + [View()]
    {
      notices := notices + [View()];
      subject.Notify();
    }

    /** `__init__`: five default tags and no tasks, then the two files are loaded. A task file
        that cannot be read leaves no tasks; a tag file that cannot be read keeps the defaults. */
    constructor (tasksFile: LoadResult<seq<TaskDict>>, tagsFile: LoadResult<seq<string>>)
      ensures fresh(subject) && subject.Valid() && subject.observers == [] && subject.delivered == []
      ensures tasksFile.Loaded? ==> |tasks| == |tasksFile.data|
      ensures tasksFile.Loaded? ==>
        forall i :: 0 <= i < |tasks| ==> fresh(tasks[i]) && tasks[i].rec == FromDict(tasksFile.data[i])
      ensures !tasksFile.Loaded? ==> tasks == []
      ensures tagsFile.Loaded? ==> tags == tagsFile.data
      ensures !tagsFile.Loaded? ==> tags == DefaultTags
      ensures writes == [] && notices == []
    {
      var loaded: seq<Task> := [];
      if tasksFile.Loaded? {
        loaded := TasksFromDicts(tasksFile.data);
      }
      subject := new Subject();
      tasks := loaded;
      tags := if tagsFile.Loaded? then tagsFile.data else DefaultTags;
      writes := [];
      notices := [];
    }

    /** `add_task`: appended at the end, duplicates included, then one notification. */
    method AddTask(task: Task)
      modifies this`tasks, this`notices, subject`delivered
      ensures tasks == old(tasks) + [task] && tags == old(tags) && writes == old(writes)
      ensures subject.delivered == old(subject.delivered) + subject.observers
      ensures notices == old(notices) + [View()]
    {
      tasks := tasks + [task];
      Notify();
    }

    /** `delete_task`: removes the first occurrence of this very object and notifies; an
        absent task changes nothing and notifies no one. */
    method DeleteTask(task: Task)
      modifies this`tasks, this`notices, subject`delivered
      ensures tasks == RemoveFirst(old(tasks), task) && tags == old(tags) && writes == old(writes)
      ensures task in old(tasks) ==> |tasks| == |old(tasks)| - 1
      ensures task in old(tasks) ==> subject.delivered == old(subject.delivered) + subject.observers
      ensures task in old(tasks) ==> notices == old(notices) + [View()]
      ensures task !in old(tasks) ==> subject.delivered == old(subject.delivered) && notices == old(notices)
    {
      if task in tasks {
        tasks := RemoveFirst(tasks, task);
        Notify();
      }
    }

    /** `delete_closed_tasks`: keeps exactly the tasks that are not closed, in their order,
        and notifies even when nothing was removed. */
    method DeleteClosedTasks()
      modifies this`tasks, this`notices, subject`delivered
      ensures forall t :: t in old(tasks) ==> (t in tasks <==> t.rec.status != "closed")
      ensures forall t :: t in old(tasks) ==>
        multiset(tasks)[t] == if t.rec.status != "closed" then multiset(old(tasks))[t] else 0
      ensures forall t :: t in tasks ==> t in old(tasks)
      ensures IsSubsequence(tasks, old(tasks))
      ensures tags == old(tags) && writes == old(writes)
      ensures subject.delivered == old(subject.delivered) + subject.observers
      ensures notices == old(notices) + [View()]
    {
      var kept := Select(WithoutStatus("closed"), tasks);
      SelectExact(WithoutStatus("closed"), tasks);
      tasks := kept;
      Notify();
    }

    /** `get_today_tasks` with the weekday passed in: the task list itself when exceptions are
        included, otherwise the tasks for `today`, with Free tasks when `includeFree`. */
    function GetTodayTasks(today: string, includeExceptions: bool, includeFree: bool): (r: seq<Task>)
      reads this`tasks, tasks
      ensures includeExceptions ==> r == tasks
      ensures !includeExceptions ==> forall t :: t in tasks ==>
        (t in r <==> today in t.rec.days || (includeFree && Free in t.rec.days))
      ensures forall t :: t in r ==> t in tasks
      ensures IsSubsequence(r, tasks)
    {
      if includeExceptions then
        SubsequenceReflexive(tasks);
        tasks
      else
        SelectMembership(ForToday(today, includeFree), tasks);
        SelectIsSubsequence(ForToday(today, includeFree), tasks);
        Select(ForToday(today, includeFree), tasks)
    }

    /** `add_tag`: an absent tag is appended, the tag file rewritten, and observers notified;
        a tag already present changes nothing. */
    method AddTag(tag: string)
      modifies this, subject`delivered
      ensures tag in tags && tasks == old(tasks)
      ensures tag !in old(tags) ==> tags == old(tags) + [tag] && writes == old(writes) + [TagsFile(tags)]
      ensures tag !in old(tags) ==> subject.delivered == old(subject.delivered) + subject.observers
      ensures tag !in old(tags) ==> notices == old(notices) + [View()]
      ensures tag in old(tags) ==> tags == old(tags) && writes == old(writes) && subject.delivered == old(subject.delivered)
      ensures tag in old(tags) ==> notices == old(notices)
    {
      if tag !in tags {
        tags := tags + [tag];
        var _ := SaveTags();
        Notify();
      }
    }

    /** `delete_tag`: a present tag loses its first occurrence, the tag file is rewritten and
        observers notified; an absent tag changes nothing. */
    method DeleteTag(tag: string)
      modifies this, subject`delivered
      ensures tags == RemoveFirst(old(tags), tag) && tasks == old(tasks)
      ensures tag in old(tags) ==> writes == old(writes) + [TagsFile(tags)]
      ensures tag in old(tags) ==> subject.delivered == old(subject.delivered) + subject.observers
      ensures tag in old(tags) ==> notices == old(notices) + [View()]
      ensures tag !in old(tags) ==> writes == old(writes) && subject.delivered == old(subject.delivered)
      ensures tag !in old(tags) ==> notices == old(notices)
    {
      if tag in tags {
        tags := RemoveFirst(tags, tag);
        var _ := SaveTags();
        Notify();
      }
    }

    /** `save_tasks`: the serialisation of every task replaces the task file. */
    method SaveTasks(timestamp: string) returns (ok: bool)
      modifies this`writes
      ensures ok && writes == old(writes) + [TasksFile(Dicts(tasks, timestamp))]
    {
      writes := writes + [TasksFile(Dicts(tasks, timestamp))];
      ok := true;
    }

    /** `save_tags`: the tag list replaces the tag file. */
    method SaveTags() returns (ok: bool)
      modifies this`writes
      ensures ok && writes == old(writes) + [TagsFile(tags)]
    {
      writes := writes + [TagsFile(tags)];
      ok := true;
    }

    /** `save_today_tasks`: an empty list is refused without writing; otherwise the dated list
        replaces the today file, and a failed write is reported as false. */
    method SaveTodayTasks(todayTasks: seq<Task>, date: string, timestamp: string, writeSucceeds: bool)
      returns (ok: bool)
      modifies this`writes
      ensures ok <==> todayTasks != [] && writeSucceeds
      ensures ok ==> writes == old(writes) + [TodayTasksFile(date, Dicts(todayTasks, timestamp))]
      ensures !ok ==> writes == old(writes)
    {
      if todayTasks == [] {
        return false;
      }
      if !writeSucceeds {
        return false;
      }
      writes := writes + [TodayTasksFile(date, Dicts(todayTasks, timestamp))];
      ok := true;
    }

    /** `save_work_time`: one record for `calculated` is appended to the history that was on
        disk (or to an empty one) and the whole history written back; a failed write raises. */
    method SaveWorkTime(calculated: seq<Task>, history: HistoryContent, date: string, writeSucceeds: bool)
      returns (outcome: Outcome)
      modifies this`writes
      ensures writeSucceeds ==> outcome == Returned(true)
      ensures writeSucceeds ==>
        writes == old(writes) + [WorkTimeFile(AppendedHistory(history, WorkTimeRecordOf(calculated, date)))]
      ensures !writeSucceeds ==> outcome == Raised && writes == old(writes)
    {
      if !writeSucceeds {
        return Raised;
      }
      var record := WorkTimeRecordOf(calculated, date);
      writes := writes + [WorkTimeFile(AppendedHistory(history, record))];
      outcome := Returned(true);
    }
  }

  /** The store's today list (exceptions not included) holds each task for today, and each
      Free task when `includeFree`, as often as the store lists it, and no other task. */
  lemma TodayTasksCounts(model: ScheduleModel, today: string, includeFree: bool)
    ensures forall t :: t in model.tasks ==>
      multiset(model.GetTodayTasks(today, false, includeFree))[t] ==
        if today in t.rec.days || (includeFree && Free in t.rec.days) then multiset(model.tasks)[t] else 0
  {
    SelectCounts(ForToday(today, includeFree), model.tasks);
  }

  /** Without Free tasks and exceptions, the store's today list is what the default
      `TodayTasksFilter` keeps: the two definitions agree. */
  lemma TodayListMatchesDefaultFilter(model: ScheduleModel, today: string)
    ensures forall t :: t in model.tasks ==>
      (t in model.GetTodayTasks(today, false, false) <==> t in Filter(DefaultTodayFilter, model.tasks, today))
  {
  }
}
