# Task scheduler core, modelled in Dafny

This project models the in-memory logic of a single-user desktop task scheduler. Users keep
recurring tasks tagged with weekdays (or the wildcard day "Free"), tick off what they
completed today, and at the end of the day share a work-time budget among the completed tasks
in proportion to the effort they report. The model covers these parts:

- the task record: constructor coercions, the day test, dict (de)serialisation, priority
  lookups (`task_model.dfy`);
- the filter and allocation strategies (`strategy.dfy`), built on one shared list filter
  (`selection.dfy`);
- the three-state status cycle (`state.dfy`);
- the observer list (`observer.dfy`);
- the schedule store with its task and tag operations and what each save writes
  (`schedule_model.dfy`);
- the task and calculation controllers (`task_controller.dfy`, `calculation_controller.dfy`);
- the non-widget logic of the three dialogs: today's tasks and the add-task dropdown
  (`today_task_view.dfy`), the tag editor and its sync back to the store (`tag_edit_view.dfy`),
  and the task detail form and the attribute map it saves (`task_detail_view.dfy`).

Modelling choices:

- **Task objects.** A task is a `class Task` holding one `TaskRecord` value. The Python class
  has no `__eq__`, so `in` and `remove` compare identity; the model does the same with object
  references. Names are compared only where the source compares names: the dropdown and the
  refresh merge.
- **Store, controllers and dialogs.** Each is a class whose fields are the source's
  attributes. Their methods update those fields in place and state the whole new state.
- **Notifications.** The store's observer list is a `Subject` object held by the store.
  `Subject.delivered` records every `update(subject)` call in order. "Notifies once" is
  stated as `delivered == old(delivered) + observers`. What the observers can read at that
  moment is recorded too: the store's `notices` log gains a `StoreView` (every task's record
  in list order, and the tag list), so a contract can say that observers see the store after
  the change, not before it.
- **Files.** Every completed write is appended to the store's `writes` log, with the content
  written. Whether a write succeeds is a `writeSucceeds` parameter. What a file held at load
  time is a `LoadResult` parameter. What the work-time history held before a save is a
  `HistoryContent` parameter.
- **Clock.** The current weekday (`today`), the date and the save timestamp are parameters.

Points where the code is weaker than one might expect, and which the model follows:

- `calculate` has no guard against a non-positive budget (the `<= 0` check lives only in the
  calculation dialog, which is not modelled), so `Strategy.Calculate` accepts any budget.
  Only the empty list is excluded, because it divides by zero.
- Nothing keeps the effort non-negative, so efforts are `int`. Non-negativity is a hypothesis
  of `Strategy.AllocationNonNegative` only.
- The constructor guarantees that a task's days are never empty and its status is one of
  three (`TaskModel.Valid`). `update_task` stores values verbatim and can break this
  (`TaskControl.UpdateDoesNotCoerce`). The one caller modelled here, the detail dialog, keeps
  it (`TaskDetail.SaveKeepsTaskValid`).

## Model

| member | source | states |
|---|---|---|
| TaskModel.NewTask | models/task_model.py:11-22 | An unknown status becomes "planned", an unknown priority 1, empty days ["Free"]; the allocation starts at 0; the other arguments are kept; the result meets the constructor invariant |
| TaskModel.DefaultTask | models/task_model.py:11-12 | A task built from the default arguments is valid, planned, priority 1, days ["Free"] |
| TaskModel.Task.constructor | models/task_model.py:4-22 | A task object holds the given attribute values |
| TaskModel.FreeTaskIsForEveryDay | models/task_model.py:24-29 | A task whose days name Free is for every day once Free tasks are included |
| TaskModel.ExcludingFreeNarrows | models/task_model.py:24-29 | Excluding Free tasks only removes tasks, and removes exactly those naming Free but not today |
| TaskModel.ToDict | models/task_model.py:31-44 | Each key holds the task's own value for that attribute, uncoerced; the allocation is not written; `save_date` is the save time |
| TaskModel.FromDict | models/task_model.py:46-59 | Each present key's value is kept and each missing key takes the constructor default; then an unknown status becomes "planned", an unknown priority 1 and empty days ["Free"]; the result is valid with allocation 0 |
| TaskModel.RoundTrip | models/task_model.py:31-59 | Loading a saved valid task gives it back, except that the allocation resets to 0 |
| TaskModel.SaveLoadCoerces | models/task_model.py:31-59 | Loading any saved task gives what the constructor makes of its attributes: the load is valid, and a saved status outside the three loads as "planned" |
| TaskModel.EmptyDictIsDefault | models/task_model.py:46-59 | A dict with no keys loads as the default task |
| TaskModel.PriorityLabel | models/task_model.py:61-69 | The label of priorities 0..3 is Low/Normal/High/Critical; any other priority gives "Normal" |
| TaskModel.PriorityColor | models/task_model.py:71-79 | The colour of priorities 0..3 comes from the table; any other priority gives "#2196F3" |
| TaskModel.PriorityLookupsAgree | models/task_model.py:61-79 | The colour is "#2196F3" exactly when the label is "Normal"; distinct valid priorities have distinct labels |
| TaskModel.Names | controllers/task_controller.py:163 | The name set holds the name of every task and nothing else |
| Selection.Select | patterns/strategy.py:16-17 | The comprehension's result: no longer than the input, and every kept task is from the input and meets the test |
| Selection.SelectExact | patterns/strategy.py:25-26 | Each task that meets the test is kept as often as the input holds it, every other task is dropped, and input order is kept |
| Selection.SelectMembership | patterns/strategy.py:25-26 | A task is in the result iff it is in the input and meets the test |
| Strategy.Filter | patterns/strategy.py:10-26 | The today filter keeps a task iff today is among its days, or the flag is set and Free is; the status filter keeps exactly the tasks with its status; a kept task appears as often as in the input (duplicates included) and the result is an order-preserving subsequence |
| Strategy.DefaultTodayFilterDropsFree | patterns/strategy.py:13-17 | With the default flag a Free-only task is dropped |
| Strategy.Allocation | patterns/strategy.py:38-48 | One share per task: budget/count when the efforts sum to 0, otherwise effort/total × budget |
| Strategy.Proportional | patterns/strategy.py:46-48 | One share per effort, each effort/total × budget |
| Strategy.ProportionalSum | patterns/strategy.py:46-48 | The proportional shares of some efforts sum to their total's fraction of the budget |
| Strategy.AllocationSumsToBudget | patterns/strategy.py:39-48 | Over exact reals the shares sum to the budget, in both branches |
| Strategy.ShareProportional | patterns/strategy.py:40-48 | Equal split when total effort is 0; otherwise the share is effort × (budget/total), so a zero-effort task gets 0 and twice the effort gets twice the time |
| Strategy.AllocationNonNegative | patterns/strategy.py:39-48 | Non-negative efforts and budget give non-negative shares |
| Strategy.AllocationExamples | patterns/strategy.py:39-48 | Efforts [0,0,0] with budget 9 give 3 each; efforts [1,3] with budget 8 give 2 and 6 |
| Strategy.SplitEqually | patterns/strategy.py:42-44 | Every task's allocation becomes the per-task time, so the allocations are `Constant(n, perTaskTime)`, and nothing else changes |
| Strategy.SplitProportionally | patterns/strategy.py:46-48 | The allocations become `Proportional` of the old efforts (effort/total × budget each) and nothing else changes |
| Strategy.Calculate | patterns/strategy.py:38-50 | Returns the same list; only the allocation of each task changes, and the allocations equal `Allocation` of the old efforts |
| TaskState.StatusName | patterns/state.py:22-68 | Each state stands for one of the three statuses |
| TaskState.ForStatus | patterns/state.py:73-81 | working/planned/closed map to their state; any other string maps to Planned |
| TaskState.ForStatusName | patterns/state.py:73-81 | Looking up a state by its own status gives the state back |
| TaskState.NextState | patterns/state.py:28-61 | Planned→Working, Working→Closed, Closed→Planned; never the same state |
| TaskState.NextStateCycle | patterns/state.py:28-61 | Two steps never return to the start, three steps always do |
| TaskState.FilterStrategyOf | patterns/state.py:25-58 | Each state's filter is a status filter on its own status |
| TaskState.FilterSelectsOwnState | patterns/state.py:22-81 | For tasks with one of the three statuses, a state's filter keeps exactly the tasks whose status maps to that state |
| TaskState.DisplayPropertiesOf | patterns/state.py:31-68 | Working (#FFC107, editable, 1), Planned (#2196F3, editable, 2), Closed (#4CAF50, read-only, 3) |
| TaskState.DisplayPropertiesDistinguishStates | patterns/state.py:31-68 | Only Closed is read-only; no two states share a colour or a rank |
| Notification.Attached | patterns/observer.py:13-16 | After attach the observer is present, at most one entry was added, the old order is kept, and a duplicate-free list stays duplicate-free |
| Notification.AttachIdempotent | patterns/observer.py:13-16 | Attaching twice equals attaching once |
| Notification.DetachRemoves | patterns/observer.py:18-23 | Detach removes the observer, keeps the others in order and duplicate-free; detaching an absent observer changes nothing |
| Notification.Subject.constructor | patterns/observer.py:10-11 | A new subject has no observers |
| Notification.Subject.Attach | patterns/observer.py:13-16 | The observer list becomes `Attached(old list, o)` and stays duplicate-free; no one is notified |
| Notification.Subject.Detach | patterns/observer.py:18-23 | The first occurrence of the observer is removed, and it is no longer attached; an absent observer raises nothing |
| Notification.Subject.Notify | patterns/observer.py:25-28 | Each attached observer is updated exactly once, in attachment order |
| Schedule.ScheduleModel.Notify | patterns/observer.py:25-28 | The store's observers are each updated once, and the store as it stands at that moment is appended to the notification log |
| Schedule.Dicts | models/schedule_model.py:72 | Every task serialised with `to_dict`, in list order |
| Schedule.WorkTimeRecordOf | models/schedule_model.py:113-125 | The record holds the date and, per task in order, its name, tags, allocation and effort |
| Schedule.AppendedHistory | models/schedule_model.py:127-140 | The record is appended to a list history; a missing, unreadable or non-list history is replaced by an empty list first |
| Schedule.HistoryAccumulates | models/schedule_model.py:127-145 | Two saves keep both records, oldest first |
| Schedule.TasksFromDicts | models/schedule_model.py:85 | One new task object per loaded dict, built by `from_dict`, all distinct |
| Schedule.ScheduleModel.constructor | models/schedule_model.py:12-17 | No observers; loaded tasks, or none when the task file is missing or unreadable; loaded tags, or the five defaults when the tag file is missing or unreadable |
| Schedule.ScheduleModel.AddTask | models/schedule_model.py:19-22 | Appended at the end without a duplicate check; then one notification, whose observers see the list with the task appended |
| Schedule.ScheduleModel.DeleteTask | models/schedule_model.py:24-28 | The first occurrence of this object is removed, then observers are notified once and see the shortened list; an absent task changes nothing and notifies no one |
| Schedule.ScheduleModel.DeleteClosedTasks | models/schedule_model.py:30-33 | Each open task remains exactly as often as before and each closed one is gone, in order; one notification, after the removal, even when nothing was removed |
| Schedule.ScheduleModel.GetTodayTasks | models/schedule_model.py:35-54 | With exceptions, the task list itself; otherwise the tasks for today (plus Free tasks when asked) and no others, as an order-preserving subsequence |
| Schedule.TodayTasksCounts | models/schedule_model.py:35-54 | Without exceptions, each task for today (or Free, when asked) appears in the today list as often as in the store, every other task not at all |
| Schedule.ScheduleModel.AddTag | models/schedule_model.py:56-61 | An absent tag is appended, the tag file written and observers notified once, seeing the new tag; a present tag changes nothing and notifies no one |
| Schedule.ScheduleModel.DeleteTag | models/schedule_model.py:63-68 | A present tag loses its first occurrence, the tag file is written and observers notified once, seeing the tag gone; an absent tag changes nothing and notifies no one |
| Schedule.ScheduleModel.SaveTasks | models/schedule_model.py:70-77 | The serialised task list replaces the task file and the answer is true |
| Schedule.ScheduleModel.SaveTags | models/schedule_model.py:91-97 | The tag list replaces the tag file and the answer is true |
| Schedule.ScheduleModel.SaveTodayTasks | models/schedule_model.py:150-176 | True iff the list is non-empty and the write succeeds; an empty list writes nothing; on success the dated list replaces the today file |
| Schedule.ScheduleModel.SaveWorkTime | models/schedule_model.py:110-148 | On success the history with the new record appended is written back and the answer is true; a failed write raises and writes nothing |
| Schedule.TodayListMatchesDefaultFilter | models/schedule_model.py:35-54 | Without exceptions or Free tasks, the store's today list keeps the same tasks as the default today filter |
| TaskControl.OverlayStep | controllers/task_controller.py:40-42 | Setting one more key on an overlay gives the overlay of the larger map, so key order does not matter |
| TaskControl.SetAttributeCommutes | controllers/task_controller.py:40-42 | Setting two different keys in either order gives the same task |
| TaskControl.OverlayValues | controllers/task_controller.py:40-42 | With a well-typed map each attribute the map names takes the given value, others keep theirs, an empty map changes nothing |
| TaskControl.OverlayFields | controllers/task_controller.py:40-42 | The value a key gives is applied on top of the other keys' overlay, whatever the visiting order |
| TaskControl.UpdateDoesNotCoerce | controllers/task_controller.py:40-42 | Values are stored verbatim: a status outside the three and empty days are accepted; unknown keys are ignored |
| TaskControl.TaskController.constructor | controllers/task_controller.py:11-13 | A new controller uses the default today filter |
| TaskControl.TaskController.SetFilterStrategy | controllers/task_controller.py:15-20 | The given strategy becomes current |
| TaskControl.TaskController.GetFilteredTasks | controllers/task_controller.py:22-24 | An order-preserving subsequence of the store's tasks; a today strategy keeps each task for today (or Free, with its flag) as often as the store holds it, a status strategy each task with its status, and drops every other task |
| TaskControl.TaskController.AddTask | controllers/task_controller.py:26-28 | The store appends the task and notifies once, after the append |
| TaskControl.TaskController.DeleteTask | controllers/task_controller.py:30-32 | The store removes the task and notifies once, after the removal, or changes nothing for an absent task |
| TaskControl.TaskController.DeleteClosedTasks | controllers/task_controller.py:34-36 | The store keeps each open task as often as before and drops the closed ones, in order, then notifies once |
| TaskControl.TaskController.UpdateTask | controllers/task_controller.py:38-52 | Every attribute key overwrites that attribute verbatim, other keys are ignored; one notification, after all the updates, so observers see the updated task; answer true |
| TaskControl.TaskController.SaveTasks | controllers/task_controller.py:54-57 | The store writes the task file; answer true |
| TaskControl.TaskController.AddTag | controllers/task_controller.py:59-62 | The store adds the tag; the tag file is written twice for a new tag and once for a known one; only a new tag notifies, and observers see it added |
| TaskControl.TaskController.DeleteTag | controllers/task_controller.py:64-67 | The store deletes the tag; the tag file is written twice for a present tag and once for an absent one; only a present tag notifies, and observers see it gone |
| TaskControl.TaskController.CreateNewTask | controllers/task_controller.py:69-72 | A fresh task from the constructor, with empty days replaced by ["Free"] |
| TaskControl.TaskController.GetTodayTasks | controllers/task_controller.py:89-105 | For auto-adding, the tasks naming today and not Free and no others; otherwise those of the store's today list; either way an order-preserving subsequence of the store's tasks |
| TaskControl.TodayListCounts | controllers/task_controller.py:89-105 | Each task the today list keeps appears as often as in the store (duplicates included), every other task not at all |
| TaskControl.TaskController.SaveTodayTasks | controllers/task_controller.py:107-131 | True iff a non-empty list was given and the write succeeds; then both files are written and observers notified once, after both writes; otherwise nothing is written and no one notified |
| TaskControl.TaskController.GetAllTasks | controllers/task_controller.py:133-135 | A copy of the store's task list, element by element |
| TaskControl.TaskController.GetAllTags | controllers/task_controller.py:137-139 | A copy of the store's tag list, element by element |
| TaskControl.TaskController.MergeAutoTasks | controllers/task_controller.py:154-170 | The view's tasks followed by the auto-add tasks whose names the view did not list, in order |
| TaskControl.MergeProperties | controllers/task_controller.py:154-170 | The view's tasks stay as a prefix; an auto-add task is appended iff its name was not listed before the merge; auto-add order is kept |
| CalculationControl.ShowCalculationView | controllers/calculation_controller.py:32-41 | The dialog opens iff every task is completed today, which holds for an empty list |
| CalculationControl.CalculationController.constructor | controllers/calculation_controller.py:9-11 | A new controller calculates proportionally |
| CalculationControl.CalculationController.SetCalculationStrategy | controllers/calculation_controller.py:13-15 | The given strategy becomes current |
| CalculationControl.CalculationController.CalculateWorkTime | controllers/calculation_controller.py:17-19 | Exactly what the current strategy computes |
| CalculationControl.CalculationController.SaveWorkTime | controllers/calculation_controller.py:21-30 | When the store's save returns, observers are notified once, after the history is written, and the answer is true; when it raises, the answer is false and no one is notified |
| TodayTasks.AddableTasks | views/today_task_view.py:227-248 | The loop keeps exactly the tasks not listed by name that are Free, for today, or any task when exceptions are shown, in store order |
| TodayTasks.ItemsMembership | views/today_task_view.py:249-254 | The dropdown holds an entry for a task iff the task is a candidate, and only task entries |
| TodayTasks.DropdownCandidates | views/today_task_view.py:225-248 | No candidate shares a name with a listed task; Free and today's tasks are always candidates, others only with exceptions shown |
| TodayTasks.DropdownShape | views/today_task_view.py:212-257 | Candidates keep store order; a single placeholder appears exactly when there is no task or no candidate |
| TodayTasks.TodayTaskView.constructor | views/today_task_view.py:12-24 | No controller, no tasks, exceptions hidden, add form closed |
| TodayTasks.TodayTaskView.SetController | views/today_task_view.py:32-45 | With a controller, the store's tasks are copied, and an empty dialog takes the strict auto-add list only when that list is non-empty |
| TodayTasks.TodayTaskView.FilterTodayTasks | views/today_task_view.py:173-179 | The dialog's list itself with exceptions shown; otherwise its tasks for today or Free and no others, as an order-preserving subsequence |
| TodayTasks.FilterTodayTasksCounts | views/today_task_view.py:173-179 | With exceptions hidden, each of the dialog's tasks for today or Free appears in the filtered list as often as in the dialog's list, every other task not at all |
| TodayTasks.TodayTaskView.ToggleExceptions | views/today_task_view.py:194-201 | The flag takes the check box state and the dropdown is refilled under it |
| TodayTasks.TodayTaskView.ToggleAddForm | views/today_task_view.py:203-210 | The form flips; an opened form gets a refilled dropdown |
| TodayTasks.TodayTaskView.UpdateTaskSelectionDropdown | views/today_task_view.py:212-257 | Left empty without a controller; otherwise the candidates, or one placeholder |
| TodayTasks.TodayTaskView.AddExistingTask | views/today_task_view.py:259-306 | A selected task not yet listed (by identity) is appended and saved; on a successful save the store is notified twice, the form toggled and the dropdown refilled; a failed save changes nothing else; a placeholder or a listed task changes nothing |
| TodayTasks.TodayTaskView.FinishAdd | views/today_task_view.py:285-296 | One notification, the form toggled and the dropdown refilled |
| TodayTasks.TodayTaskView.DeleteSelectedTask | views/today_task_view.py:308-341 | A confirmed row of the filtered list removes that task object, notifies once and refills the dropdown; no selection, an out-of-range row or no confirmation changes nothing |
| TodayTasks.TodayTaskView.RemoveAndNotify | views/today_task_view.py:334-338 | The task object's first occurrence leaves the dialog's list; the store's observers are notified once and see the store as it stands; the dropdown is refilled |
| TodayTasks.TodayTaskView.SaveTasks | views/today_task_view.py:343-362 | The whole list (not the filtered one) is saved; success means both files written and two notifications, both after the writes; failure changes nothing |
| TodayTasks.TodayTaskView.Refresh | controllers/task_controller.py:146-180 | The dialog gets the store's tasks and tags; a dialog with tasks gains the auto-add tasks whose names it lacks, an empty one takes the auto-add list; the dropdown is refilled |
| TodayTasks.RemovedTaskReturnsOnRefresh | controllers/task_controller.py:146-172 | A task that names today and not Free, deleted from the dialog with no other listed task of its name, is back in the list the refresh computes, so the refresh the main controller runs on every notification undoes the delete |
| TagEditing.Strip | views/tag_edit_view.py:67 | The result is a contiguous slice of the input with only whitespace cut on each side; it has no leading or trailing whitespace; it is empty iff the input was all whitespace |
| TagEditing.StripIdempotent | views/tag_edit_view.py:67 | Stripping twice equals stripping once |
| TagEditing.StripExample | views/tag_edit_view.py:67 | "  Work\t" strips to "Work"; whitespace alone strips to "" |
| TagEditing.Kept | views/tag_edit_view.py:111-114 | The store tags the dialog still holds and no others, as an order-preserving subsequence of the store list |
| TagEditing.KeptCounts | views/tag_edit_view.py:111-114 | A store tag the dialog still holds survives as often as the store held it (duplicates included); any other tag not at all |
| TagEditing.NewTags | views/tag_edit_view.py:106-109 | The dialog tags the store lacks and no others, each once, as a subsequence of the dialog list |
| TagEditing.NewTagsFirstOccurrence | views/tag_edit_view.py:106-109 | The new tags come in the order of their first occurrence in the dialog list |
| TagEditing.SyncKeepsNoDuplicates | views/tag_edit_view.py:101-116 | A duplicate-free store list stays duplicate-free after the sync |
| TagEditing.KeptNoDuplicates | views/tag_edit_view.py:111-114 | The surviving tags of a duplicate-free list are duplicate-free |
| TagEditing.DeleteStep | views/tag_edit_view.py:111-114 | One deletion step removes the dropped tag where it stands and keeps a kept one |
| TagEditing.TagEditDialog.constructor | views/tag_edit_view.py:7-15 | The dialog edits its own copy of the tags |
| TagEditing.TagEditDialog.AddTag | views/tag_edit_view.py:65-79 | The stripped input is appended unless it is empty or already listed; the list stays duplicate-free |
| TagEditing.TagEditDialog.DeleteTag | views/tag_edit_view.py:81-99 | A confirmed selection removes that tag's first occurrence; otherwise nothing changes |
| TagEditing.TagEditDialog.SaveTags | views/tag_edit_view.py:101-116 | The store ends with its surviving tags in store order followed by the new ones in dialog order, so it holds the same set of tags as the dialog (not the dialog's order); tasks untouched; dialog accepted |
| TagEditing.TagEditDialog.AddMissing | views/tag_edit_view.py:106-109 | The store gains the new tags in dialog order |
| TagEditing.TagEditDialog.DeleteExtra | views/tag_edit_view.py:111-114 | The store loses exactly the tags the dialog dropped, keeping the rest in order |
| TaskDetail.LabelForStatus | views/task_detail_view.py:42-43 | working shows "Working", planned "Planned", closed "Completed"; any other status shows "Planned" |
| TaskDetail.StatusForLabel | views/task_detail_view.py:107-120 | "Working" saves as working, "Planned" as planned, "Completed" as closed; any other text saves as "planned" |
| TaskDetail.StatusLabelRoundTrip | views/task_detail_view.py:42-107 | The three pairs spelled out in both directions, so the two maps are inverse on the three statuses and the three labels |
| TaskDetail.EffortValue | views/task_detail_view.py:123 | Empty effort text gives 0; a numeral gives its value |
| TaskDetail.FormFor | views/task_detail_view.py:24-83 | The form starts from the task's values; a day box is checked iff the task names that day; the details box holds Qt's plain-text reading of the task's details, given as a parameter |
| TaskDetail.CheckedIn | views/task_detail_view.py:109-112 | The checked options, in option order |
| TaskDetail.DaysInOrderProperties | views/task_detail_view.py:109-115 | Saved days are never empty, come in the order Monday..Friday, Free, are exactly the checked ones, and are ["Free"] when none is checked |
| TaskDetail.FormAttributes | views/task_detail_view.py:118-125 | The map names exactly name, status, days, completed_today, perceived_effort and details, each with a value of its kind |
| TaskDetail.FormLeavesOthers | views/task_detail_view.py:118-125 | The map carries the mapped status and ordered days, and leaves priority, tags, recurrence and allocation alone |
| TaskDetail.SaveKeepsTaskValid | views/task_detail_view.py:100-128 | A save from the dialog keeps a valid task valid and leaves the unlisted attributes as they were |
| TaskDetail.UnchangedSaveRoundTrip | views/task_detail_view.py:24-128 | Opening and saving unchanged keeps a task with a valid status, except that its days are put in the fixed order and its details replaced by the text the details box showed; details that reading leaves alone are kept |
| TaskDetail.TaskDetailView.constructor | views/task_detail_view.py:9-22 | The dialog opens on the task with its form filled from the task and from the details box's plain text |
| TaskDetail.TaskDetailView.SelectedDays | views/task_detail_view.py:109-115 | The loop gives the checked days in fixed order, or ["Free"] |
| TaskDetail.TaskDetailView.SaveTask | views/task_detail_view.py:100-128 | Without a controller the dialog is rejected and the task untouched; otherwise one `update_task` with the form's map (one notification), then accepted |

## Left out

- Widgets, layouts, theming and message boxes of the three dialogs. Confirmations and selections are parameters. The display text of dropdown entries is not modelled.
- views/main_view.py, views/all_schedule_view.py, views/calculation_view.py, views/backup_restore_view.py and views/builders are not part of this model. This includes the calculate-button gate of the main view and the calculation dialog's own copy of the equal split and its `<= 0` budget guard.
- controllers/main_controller.py, main.py, patterns/command.py and the utils package are not part of this model (wiring, restart, backups, Excel export, logging).
- Notification.Subject.Notify: observers are inert. A notification changes only the delivery log and the store's `notices` log. In the program the store's observer is the main controller. Its `update` refreshes the visible today dialog (`refresh_today_task_view`) inside every notification. The contracts of TodayTasks.TodayTaskView.DeleteSelectedTask, RemoveAndNotify, AddExistingTask and SaveTasks therefore describe the dialog before that refresh.
- TodayTasks.TodayTaskView.DeleteSelectedTask: with the dialog visible, the refresh puts a deleted task that names today and not Free straight back into the list. When the list became empty, the whole auto-add list returns. TodayTasks.RemovedTaskReturnsOnRefresh states this against TodayTasks.TodayTaskView.Refresh. The method's own contract does not include it.
- TaskDetail.FormFor: Qt's `QTextEdit(text)` reads the task's details as rich text. It collapses newlines and runs of whitespace, and parses markup and entities. The model does not compute that reading. The plain text the box then holds is a parameter (`shownDetails`) of FormFor, of TaskDetail.TaskDetailView.constructor and of TaskDetail.UnchangedSaveRoundTrip.
- JSON encoding and the file system. A save is an entry in the `writes` log. A load is a `LoadResult`. Loaded tag files are assumed to hold a list of strings.
- `to_dict` stamps each task with its own `now()`. The model uses one timestamp per save.
- Schedule.ScheduleModel.SaveTasks: a failed write raises in the source; the model only has the successful write. The same holds for Schedule.ScheduleModel.SaveTags.
- Schedule.ScheduleModel.GetTodayTasks: with exceptions the source returns the live list object, so a caller's later append reaches the store. Sequences are values here, so this aliasing is not captured.
- TaskControl.TaskController.UpdateTask: requires every value to be of the attribute's kind (`WellTypedMap`). Python would store a value of any type. Keys naming methods of the task or its class constants `STATUS_OPTIONS`, `DAYS_OPTIONS` and `PRIORITY_OPTIONS` (which `hasattr` also accepts) are not modelled. The state lookup for a new status feeds nothing and is omitted.
- `show_task_detail_view` (running the detail dialog and its extra notification on accept) and `refresh_all_schedule_view` (a call into the schedule view) are not modelled.
- `set_tasks` and `set_tags` of the today dialog are plain assignments. They are modelled inline in TodayTasks.TodayTaskView.Refresh, which also leaves out the `if not view` guard (the dialog is never null by type).
- TagEditing.Strip: removes ASCII whitespace only; Python's `str.strip()` also removes Unicode spaces.
- TagEditing.TagEditDialog.SaveTags: states the final tag list but not the tag-file writes and notifications made by each add and delete call.
- TagEditing.TagEditDialog.DeleteTag: the selected row is assumed to index the dialog's list, which the list widget mirrors.
- TodayTasks.TodayTaskView.AddExistingTask: states the writes and both notifications, but not the store view each notification records; Schedule.ScheduleModel.Notify and TaskControl.TaskController.SaveTodayTasks state it for the calls it is made of.
- TodayTasks.TodayTaskView.FinishAdd: states the notification and the refilled dropdown, but not the store view the notification records.
- TodayTasks.TodayTaskView.AddExistingTask: the selected index is assumed to be -1 or a dropdown position, the range Qt's `currentIndex` takes.
- TaskDetail.EffortValue: free text that is not an integer makes `int()` raise `ValueError`; the model only has empty and numeric effort text.
- Allocations are exact reals. Python floats meet the sum law only approximately.
- `notify` walks the live observer list. Observers that attach or detach while being notified are not modelled, and neither are errors raised inside `update`.
