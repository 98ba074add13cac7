/** The day logic of the "Edit Today's Tasks" dialog (views/today_task_view.py), and the
    controller's refresh of that dialog (controllers/task_controller.py). */
module TodayTasks {
  import opened Common
  import opened TaskModel
  import opened Selection
  import opened Schedule
  import opened TaskControl

  /** One entry of the add-task dropdown: a task, or one of the two placeholders, which carry
      no task. */
  datatype DropdownItem = Candidate(task: Task) | NoTasksAvailable | NoTasksToAdd

  function Items(candidates: seq<Task>): (items: seq<DropdownItem>)
    ensures |items| == |candidates|
    ensures forall i :: 0 <= i < |candidates| ==> items[i] == Candidate(candidates[i])
  {
    seq(|candidates|, i requires 0 <= i < |candidates| => Candidate(candidates[i]))
  }

  /** What `update_task_selection_dropdown` fills the dropdown with when there is a
      controller: one entry per task of the store that may be added, or a placeholder. */
  function DropdownFor(current: seq<Task>, allTasks: seq<Task>, today: string, showExceptions: bool): seq<DropdownItem>
    reads current, allTasks
  {
    if allTasks == [] then [NoTasksAvailable]
    else
      var candidates := Select(Addable(Names(current), today, showExceptions), allTasks);
      if candidates == [] then [NoTasksToAdd] else Items(candidates)
  }

  /** The loop of `update_task_selection_dropdown` over the store's tasks: a task listed by
      name already is skipped; a Free task, a task for today, or (with exceptions shown) any
      other task is kept. */
  method AddableTasks(allTasks: seq<Task>, names: set<string>, today: string, showExceptions: bool)
    returns (available: seq<Task>)
    ensures available == Select(Addable(names, today, showExceptions), allTasks)
  {
    ghost var c := Addable(names, today, showExceptions);
    available := [];
    for i := 0 to |allTasks|
      invariant available == Select(c, allTasks[..i])
    {
      SelectPrefixStep(c, allTasks, i);
      var task := allTasks[i];
      if task.rec.name in names {
        continue;
      }
      if Free in task.rec.days {
        available := available + [task];
      } else if today in task.rec.days {
        available := available + [task];
      } else if showExceptions {
        available := available + [task];
      }
    }
    assert allTasks[..|allTasks|] == allTasks;
  }

  /** An entry for a task is in the list of entries exactly when the task is. */
  lemma ItemsMembership(candidates: seq<Task>)
    ensures forall t :: Candidate(t) in Items(candidates) <==> t in candidates
    ensures forall item :: item in Items(candidates) ==> item.Candidate? && item.task in candidates
  {
    var items := Items(candidates);
    forall t | Candidate(t) in items ensures t in candidates {
      var i :| 0 <= i < |items| && items[i] == Candidate(t);
    }
    forall t | t in candidates ensures Candidate(t) in items {
      var i :| 0 <= i < |candidates| && candidates[i] == t;
      assert items[i] == Candidate(t);
    }
    forall item | item in items ensures item.Candidate? && item.task in candidates {
      var i :| 0 <= i < |items| && items[i] == item;
    }
  }

  /** A candidate never shares a name with a task already listed; Free tasks and today's
      tasks are always candidates, other tasks only when exceptions are shown. */
  lemma DropdownCandidates(current: seq<Task>, allTasks: seq<Task>, today: string, showExceptions: bool)
    ensures forall t :: t in allTasks ==>
      (Candidate(t) in DropdownFor(current, allTasks, today, showExceptions) <==>
        t.rec.name !in Names(current) && (Free in t.rec.days || today in t.rec.days || showExceptions))
    ensures forall item :: item in DropdownFor(current, allTasks, today, showExceptions) && item.Candidate? ==>
      item.task in allTasks && item.task.rec.name !in Names(current)
  {
    var c := Addable(Names(current), today, showExceptions);
    var candidates := Select(c, allTasks);
    SelectMembership(c, allTasks);
    ItemsMembership(candidates);
    var items := DropdownFor(current, allTasks, today, showExceptions);
    if allTasks != [] && candidates != [] {
      assert items == Items(candidates);
    } else {
      assert forall t :: t in allTasks ==> !Holds(c, t.rec);
    }
  }

  /** Candidates keep the store's order, and a placeholder appears exactly when there is
      nothing to offer. */
  lemma DropdownShape(current: seq<Task>, allTasks: seq<Task>, today: string, showExceptions: bool)
    ensures var candidates := Select(Addable(Names(current), today, showExceptions), allTasks);
      && IsSubsequence(candidates, allTasks)
      && (candidates != [] ==> DropdownFor(current, allTasks, today, showExceptions) == Items(candidates))
      && (allTasks == [] ==> DropdownFor(current, allTasks, today, showExceptions) == [NoTasksAvailable])
      && (allTasks != [] && candidates == [] ==> DropdownFor(current, allTasks, today, showExceptions) == [NoTasksToAdd])
  {
    SelectExact(Addable(Names(current), today, showExceptions), allTasks);
  }

  class TodayTaskView {
    var controller: TaskController?
    var tasks: seq<Task>
    var allTasks: seq<Task>
    var allTags: seq<string>
    var showExceptions: bool
    var addFormVisible: bool
    var dropdown: seq<DropdownItem>

    /** A new dialog has no controller, no tasks, exceptions hidden and the add form closed. */
    constructor ()
      ensures controller == null && tasks == [] && allTasks == [] && allTags == []
      ensures !showExceptions && !addFormVisible && dropdown == []
    {
      controller := null;
      tasks := [];
      allTasks := [];
      allTags := [];
      showExceptions := false;
      addFormVisible := false;
      dropdown := [];
    }

    /** The store the controller works on, if there is a controller. */
    function Store(): set<ScheduleModel>
      reads this
    {
      if controller == null then {} else {controller.model}
    }

    /** The store's observer list, if there is a controller. */
    function Observers(): set<Notification.Subject>
      reads this
    {
      if controller == null then {} else {controller.model.subject}
    }

    /** `set_controller`: with a controller, the store's task list is copied, and a dialog
        without tasks takes the strict auto-add list when that list is not empty. */
    method SetController(c: TaskController?, today: string)
      modifies this`controller, this`allTasks, this`tasks
      ensures controller == c
      ensures c != null ==> allTasks == c.model.tasks
      ensures c == null ==> allTasks == old(allTasks) && tasks == old(tasks)
      ensures c != null && old(tasks) == [] && c.GetTodayTasks(today, false, true) != [] ==>
        tasks == c.GetTodayTasks(today, false, true)
      ensures c != null && (old(tasks) != [] || c.GetTodayTasks(today, false, true) == []) ==> tasks == old(tasks)
    {
      controller := c;
      if c != null {
        var all := c.GetAllTasks();
        var autoTasks := c.GetTodayTasks(today, false, true);
        assert all == c.model.tasks;
        allTasks := all;
        if tasks == [] && autoTasks != [] {
          tasks := autoTasks;
        }
      }
    }

    /** `filter_today_tasks`: the dialog's own list when exceptions are shown, otherwise its
        tasks for today and its Free tasks, in order. */
    function FilterTodayTasks(today: string): (r: seq<Task>)
      reads this, tasks
      ensures showExceptions ==> r == tasks
      ensures !showExceptions ==> forall t :: t in tasks ==> (t in r <==> today in t.rec.days || Free in t.rec.days)
      ensures forall t :: t in r ==> t in tasks
      ensures IsSubsequence(r, tasks)
    {
      if showExceptions then
        SubsequenceReflexive(tasks);
        tasks
      else
        SelectMembership(ForToday(today, true), tasks);
        SelectIsSubsequence(ForToday(today, true), tasks);
        Select(ForToday(today, true), tasks)
    }

    /** `update_task_selection_dropdown`: cleared and left empty without a controller,
        otherwise filled as `DropdownFor` says. */
    method UpdateTaskSelectionDropdown(today: string)
      modifies this`dropdown
      ensures controller == null ==> dropdown == []
      ensures controller != null ==> dropdown == DropdownFor(tasks, controller.model.tasks, today, showExceptions)
    {
      dropdown := [];
      if controller == null {
        return;
      }
      var all := controller.GetAllTasks();
      assert all == controller.model.tasks;
      if all == [] {
        dropdown := [NoTasksAvailable];
        return;
      }
      var available := AddableTasks(all, Names(tasks), today, showExceptions);
      if available != [] {
        dropdown := Items(available);
      } else {
        dropdown := [NoTasksToAdd];
      }
    }

    /** `toggle_exceptions`: the check box sets whether other days' tasks are shown, and the
        dropdown is refilled under the new setting. */
    method ToggleExceptions(checked: bool, today: string)
      modifies this`showExceptions, this`dropdown
      ensures showExceptions == checked
      ensures controller == null ==> dropdown == []
      ensures controller != null ==> dropdown == DropdownFor(tasks, controller.model.tasks, today, checked)
    {
      showExceptions := checked;
      UpdateTaskSelectionDropdown(today);
    }

    /** `toggle_add_form`: the add form opens or closes, and an opened form gets a fresh
        dropdown. */
    method ToggleAddForm(today: string)
      modifies this`addFormVisible, this`dropdown
      ensures addFormVisible == !old(addFormVisible)
      ensures addFormVisible && controller == null ==> dropdown == []
      ensures addFormVisible && controller != null ==>
        dropdown == DropdownFor(tasks, controller.model.tasks, today, showExceptions)
      ensures !addFormVisible ==> dropdown == old(dropdown)
    {
      addFormVisible := !addFormVisible;
      if addFormVisible {
        UpdateTaskSelectionDropdown(today);
      }
    }

    /** The task the dropdown entry at `selectedIndex` carries, if any. */
    function SelectedTask(selectedIndex: int): Option<Task>
      reads this
    {
      if 0 <= selectedIndex < |dropdown| && dropdown[selectedIndex].Candidate? then Some(dropdown[selectedIndex].task)
      else None
    }

    /** `add_existing_task`: a selected task that the dialog does not hold yet (by identity)
        is appended and today's list saved at once. When the save succeeds, or when there is
        no controller, the add form is toggled and the dropdown refilled; a placeholder, no
        selection or a task already listed changes nothing. */
    method AddExistingTask(selectedIndex: int, today: string, date: string, timestamp: string, writeSucceeds: bool)
      requires -1 <= selectedIndex < |dropdown|
      modifies this`tasks, this`addFormVisible, this`dropdown, Store()`writes, Store()`notices, Observers()`delivered
      ensures var selected := old(SelectedTask(selectedIndex));
        tasks == if selected.Some? && selected.value !in old(tasks) then old(tasks) + [selected.value] else old(tasks)
      ensures var selected := old(SelectedTask(selectedIndex));
        !(selected.Some? && selected.value !in old(tasks)) ==>
          addFormVisible == old(addFormVisible) && dropdown == old(dropdown) &&
          (controller != null ==> unchanged(controller.model.subject) && unchanged(controller.model))
      ensures var selected := old(SelectedTask(selectedIndex));
        selected.Some? && selected.value !in old(tasks) && controller != null && writeSucceeds ==>
          && controller.model.writes == old(controller.model.writes) +
               [TodayTasksFile(date, Dicts(tasks, timestamp)), TasksFile(Dicts(controller.model.tasks, timestamp))]
          && controller.model.subject.delivered ==
               old(controller.model.subject.delivered) + controller.model.subject.observers + controller.model.subject.observers
          && addFormVisible == !old(addFormVisible)
          && dropdown == DropdownFor(tasks, controller.model.tasks, today, showExceptions)
      ensures var selected := old(SelectedTask(selectedIndex));
        selected.Some? && selected.value !in old(tasks) && controller != null && !writeSucceeds ==>
          && unchanged(controller.model) && unchanged(controller.model.subject)
          && addFormVisible == old(addFormVisible) && dropdown == old(dropdown)
      ensures var selected := old(SelectedTask(selectedIndex));
        selected.Some? && selected.value !in old(tasks) && controller == null ==>
          addFormVisible == !old(addFormVisible) && dropdown == []
    {
      if |dropdown| == 0 || selectedIndex < 0 || !dropdown[selectedIndex].Candidate? {
        return;
      }
      var selected := dropdown[selectedIndex].task;
      if selected in tasks {
        return;
      }
      tasks := tasks + [selected];
      if controller != null {
        var saved := controller.SaveTodayTasks(Some(tasks), date, timestamp, writeSucceeds);
        if saved {
          ghost var today1, all1 := Dicts(tasks, timestamp), Dicts(controller.model.tasks, timestamp);
          FinishAdd(today);
          assert Dicts(tasks, timestamp) == today1;
          assert Dicts(controller.model.tasks, timestamp) == all1;
        }
      } else {
        ToggleAddForm(today);
        UpdateTaskSelectionDropdown(today);
      }
    }

    /** The end of a successful `add_existing_task`: observers are notified, the add form
        toggled and the dropdown refilled. */
    method FinishAdd(today: string)
      requires controller != null
      modifies this`addFormVisible, this`dropdown, controller.model`notices, controller.model.subject`delivered
      ensures controller.model.subject.delivered == old(controller.model.subject.delivered) + controller.model.subject.observers
      ensures addFormVisible == !old(addFormVisible)
      ensures dropdown == DropdownFor(tasks, controller.model.tasks, today, showExceptions)
    {
      controller.model.Notify();
      ToggleAddForm(today);
      UpdateTaskSelectionDropdown(today);
    }

    /** `delete_selected_task`: the row indexes the filtered list, and a confirmed deletion
        removes that task object from the dialog's own list, notifies the store's observers
        and refills the dropdown; no selection, a row outside the filtered list or a declined
        confirmation changes nothing. */
    method DeleteSelectedTask(selectedRow: Option<int>, confirmed: bool, today: string)
      modifies this`tasks, this`dropdown, Store()`notices, Observers()`delivered
      ensures var filtered := old(FilterTodayTasks(today));
        selectedRow.Some? && 0 <= selectedRow.value < |filtered| && confirmed ==>
          && tasks == RemoveFirst(old(tasks), filtered[selectedRow.value])
          && |tasks| == |old(tasks)| - 1
          && (controller != null ==>
                controller.model.subject.delivered == old(controller.model.subject.delivered) + controller.model.subject.observers)
          && (controller != null ==> controller.model.notices == old(controller.model.notices) + [controller.model.View()])
          && (controller != null ==> dropdown == DropdownFor(tasks, controller.model.tasks, today, showExceptions))
          && (controller == null ==> dropdown == [])
      ensures var filtered := old(FilterTodayTasks(today));
        !(selectedRow.Some? && 0 <= selectedRow.value < |filtered| && confirmed) ==>
          tasks == old(tasks) && dropdown == old(dropdown) &&
          (controller != null ==> unchanged(controller.model.subject) && unchanged(controller.model))
    {
      if selectedRow.None? {
        return;
      }
      var row := selectedRow.value;
      var filtered := FilterTodayTasks(today);
      if row < 0 || row >= |filtered| {
        return;
      }
      var task := filtered[row];
      if confirmed {
        RemoveAndNotify(task, today);
      }
    }

    /** A confirmed `delete_selected_task`: the task object leaves the dialog's list, the
        store's observers are notified and the dropdown refilled. */
    method RemoveAndNotify(task: Task, today: string)
      requires task in tasks
      modifies this`tasks, this`dropdown, Store()`notices, Observers()`delivered
      ensures tasks == RemoveFirst(old(tasks), task) && |tasks| == |old(tasks)| - 1
      ensures controller != null ==>
        && controller.model.subject.delivered == old(controller.model.subject.delivered) + controller.model.subject.observers
        && controller.model.notices == old(controller.model.notices) + [controller.model.View()]
        && dropdown == DropdownFor(tasks, controller.model.tasks, today, showExceptions)
      ensures controller == null ==> dropdown == []
    {
      tasks := RemoveFirst(tasks, task);
      if controller != null {
        controller.model.Notify();
      }
      UpdateTaskSelectionDropdown(today);
    }

    /** `save_tasks` of the dialog: the whole list (not the filtered one) goes through the
        controller's save, and a successful save notifies once more. */
    method SaveTasks(date: string, timestamp: string, writeSucceeds: bool) returns (ok: bool)
      modifies Store()`writes, Store()`notices, Observers()`delivered
      ensures ok <==> controller != null && tasks != [] && writeSucceeds
      ensures ok ==>
        controller.model.writes == old(controller.model.writes) +
          [TodayTasksFile(date, Dicts(tasks, timestamp)), TasksFile(Dicts(controller.model.tasks, timestamp))]
      ensures ok ==>
        controller.model.subject.delivered ==
          old(controller.model.subject.delivered) + controller.model.subject.observers + controller.model.subject.observers
      ensures ok ==>
        controller.model.notices == old(controller.model.notices) + [controller.model.View(), controller.model.View()]
      ensures !ok && controller != null ==> unchanged(controller.model) && unchanged(controller.model.subject)
    {
      ok := false;
      if controller != null {
        ok := controller.SaveTodayTasks(Some(tasks), date, timestamp, writeSucceeds);
        if ok {
          controller.model.Notify();
        }
      }
    }

    /** `refresh_today_task_view(view)` of the controller `c`: the dialog gets a copy of the
        store's tasks and tags; a dialog that already lists tasks keeps them and gains the
        auto-add tasks whose names it does not list yet, any other dialog takes the auto-add
        list; then the dropdown is refilled through the dialog's own controller. */
    method Refresh(c: TaskController, today: string)
      modifies this`tasks, this`allTasks, this`allTags, this`dropdown
      ensures allTasks == c.model.tasks && allTags == c.model.tags
      ensures old(tasks) != [] ==>
        tasks == old(tasks + Select(NameNotIn(Names(tasks)), c.GetTodayTasks(today, false, true)))
      ensures old(tasks) == [] ==> tasks == old(c.GetTodayTasks(today, false, true))
      ensures controller == null ==> dropdown == []
      ensures controller != null ==> dropdown == DropdownFor(tasks, controller.model.tasks, today, showExceptions)
    {
      var all := c.GetAllTasks();
      assert all == c.model.tasks;
      var autoTasks := c.GetTodayTasks(today, false, true);
      if tasks != [] {
        var merged := c.MergeAutoTasks(tasks, autoTasks);
        assert merged == old(tasks + Select(NameNotIn(Names(tasks)), c.GetTodayTasks(today, false, true)));
        allTasks := all;
        tasks := merged;
      } else {
        allTasks := all;
        tasks := autoTasks;
      }
      var tags := c.GetAllTags();
      assert tags == c.model.tags;
      allTags := tags;
      UpdateTaskSelectionDropdown(today);
    }
  }

  /** With other days hidden, the filtered list holds each of the dialog's tasks for today
      and each Free task as often as the dialog lists it, and no other task. */
  lemma FilterTodayTasksCounts(view: TodayTaskView, today: string)
    ensures !view.showExceptions ==> forall t :: t in view.tasks ==>
      multiset(view.FilterTodayTasks(today))[t] ==
        if today in t.rec.days || Free in t.rec.days then multiset(view.tasks)[t] else 0
  {
    SelectCounts(ForToday(today, true), view.tasks);
  }

  /** In the running program the store's observer is the main controller, whose update
      refreshes the visible today dialog inside every notification. A confirmed delete of a
      task that names today and not Free, with no other listed task of the same name, is
      therefore undone by that refresh: the task is back in the list the refresh computes
      (the whole auto-add list when the dialog's list became empty, the kept list with the
      missing auto-add tasks appended otherwise). */
  lemma RemovedTaskReturnsOnRefresh(c: TaskController, before: seq<Task>, task: Task, today: string)
    requires task in before && task in c.model.tasks
    requires today in task.rec.days && Free !in task.rec.days
    requires forall t :: t in RemoveFirst(before, task) ==> t.rec.name != task.rec.name
    ensures var remaining := RemoveFirst(before, task);
      var autoTasks := c.GetTodayTasks(today, false, true);
      task in (if remaining == [] then autoTasks
               else remaining + Select(NameNotIn(Names(remaining)), autoTasks))
  {
    var remaining := RemoveFirst(before, task);
    var autoTasks := c.GetTodayTasks(today, false, true);
    assert task in autoTasks;
    if remaining != [] {
      assert task.rec.name !in Names(remaining);
      SelectMembership(NameNotIn(Names(remaining)), autoTasks);
    }
  }
}
