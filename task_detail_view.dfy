/** The task detail dialog (views/task_detail_view.py): the form it fills from a task, and the
    attribute map its Save button hands to `update_task`. */
module TaskDetail {
  import opened Common
  import opened TaskModel
  import opened TaskControl
  import opened Notification
  import opened Schedule

  /** The entries of the status combo box. */
  const StatusLabels: seq<string> := ["Working", "Planned", "Completed"]

  /** The label the combo box shows for a task's status: "working", "planned" and "closed"
      show "Working", "Planned" and "Completed" (the lists are aligned position by position);
      any other status shows "Planned". */
  function LabelForStatus(status: string): (text: string)
    ensures text in StatusLabels
    ensures forall i :: 0 <= i < |StatusOptions| && status == StatusOptions[i] ==> text == StatusLabels[i]
    ensures status !in StatusOptions ==> text == "Planned"
  {
    match status
    case "working" => "Working"
    case "planned" => "Planned"
    case "closed" => "Completed"
    case _ => "Planned"
  }

  /** The status a combo box label saves as: "Working", "Planned" and "Completed" save as
      "working", "planned" and "closed"; any other text saves as "planned". */
  function StatusForLabel(text: string): (status: string)
    ensures status in StatusOptions
    ensures forall i :: 0 <= i < |StatusLabels| && text == StatusLabels[i] ==> status == StatusOptions[i]
    ensures text !in StatusLabels ==> status == "planned"
  {
    match text
    case "Working" => "working"
    case "Planned" => "planned"
    case "Completed" => "closed"
    case _ => "planned"
  }

  /** The two maps are inverse on the three statuses and the three labels: opening and saving
      the dialog keeps a valid status, and every label is shown for the status it saves. */
  lemma StatusLabelRoundTrip(status: string, text: string)
    ensures status in StatusOptions ==> StatusForLabel(LabelForStatus(status)) == status
    ensures text in StatusLabels ==> LabelForStatus(StatusForLabel(text)) == text
    ensures LabelForStatus("working") == "Working" && LabelForStatus("planned") == "Planned"
    ensures LabelForStatus("closed") == "Completed"
    ensures StatusForLabel("Working") == "working" && StatusForLabel("Planned") == "planned"
    ensures StatusForLabel("Completed") == "closed"
  {
    assert StatusOptions[0] == "working" && StatusOptions[1] == "planned" && StatusOptions[2] == "closed";
    assert StatusLabels[0] == "Working" && StatusLabels[1] == "Planned" && StatusLabels[2] == "Completed";
  }

  /** The effort field: empty, or the decimal numeral of an integer. */
  datatype EffortText = Blank | Numeral(value: int)

  /** `int(text or 0)`. */
  function EffortValue(e: EffortText): (effort: int)
    ensures e.Blank? ==> effort == 0
    ensures e.Numeral? ==> effort == e.value
  {
    match e
    case Blank => 0
    case Numeral(v) => v
  }

  /** The state of the dialog's widgets. */
  datatype DetailForm = DetailForm(
    name: string,
    statusLabel: string,
    checkedDays: set<string>,
    completedToday: bool,
    effort: EffortText,
    details: string)

  /** `setup_ui`: the widgets start from the task's values; a day box is checked when the
      task names that day. The details box is given the task's details as rich text, and what
      it then holds as plain text is Qt's reading of them, `shownDetails`. */
  function FormFor(t: TaskRecord, shownDetails: string): (form: DetailForm)
    ensures form.name == t.name && form.details == shownDetails && form.completedToday == t.completedToday
    ensures form.statusLabel == LabelForStatus(t.status) && form.effort == Numeral(t.perceivedEffort)
    ensures forall d :: d in form.checkedDays <==> d in DayOptions && d in t.days
  {
    var checked := set d | d in DayOptions && d in t.days;
    DetailForm(t.name, LabelForStatus(t.status), checked, t.completedToday, Numeral(t.perceivedEffort), shownDetails)
  }

  /** The options of `options` that are checked, in the order of `options`. */
  function CheckedIn(options: seq<string>, checked: set<string>): (r: seq<string>)
    ensures forall x :: x in r <==> x in options && x in checked
    ensures IsSubsequence(r, options)
    decreases |options|
  {
    if options == [] then []
    else
      var front := options[..|options| - 1];
      var last := options[|options| - 1];
      var previous := CheckedIn(front, checked);
      assert options == front + [last];
      SubsequenceSnoc(previous, front, last);
      if last in checked then previous + [last] else previous
  }

  /** The days a save writes: the checked days in the order Monday..Friday, Free, or
      ["Free"] when no box is checked. */
  function DaysInOrder(checked: set<string>): seq<string> {
    var days := CheckedIn(DayOptions, checked);
    if days == [] then [Free] else days
  }

  /** The days a save writes are never empty, come in the fixed order, are exactly the checked
      ones, and fall back to Free alone. */
  lemma DaysInOrderProperties(checked: set<string>)
    ensures DaysInOrder(checked) != []
    ensures IsSubsequence(DaysInOrder(checked), DayOptions)
    ensures forall d :: d in DayOptions && d in checked ==> d in DaysInOrder(checked)
    ensures forall d :: d in DaysInOrder(checked) ==> d in DayOptions && (d in checked || d == Free)
    ensures (forall d :: d in DayOptions ==> d !in checked) ==> DaysInOrder(checked) == [Free]
  {
    if CheckedIn(DayOptions, checked) == [] {
      assert DayOptions == DayOptions[..5] + [Free];
      PrefixIsSubsequence(DayOptions[..5], [Free]);
      assert IsSubsequence([], DayOptions[..5]);
      SubsequenceSnoc([], DayOptions[..5], Free);
      assert [] + [Free] == [Free];
    } else {
      var first := CheckedIn(DayOptions, checked)[0];
      assert first in CheckedIn(DayOptions, checked);
      assert first in DayOptions && first in checked;
    }
  }

  /** The map `save_task` passes to `update_task`. */
  function FormAttributes(form: DetailForm): (attributes: map<Key, AttrValue>)
    ensures attributes.Keys == {Attribute(Name), Attribute(Status), Attribute(Days), Attribute(CompletedToday),
                                Attribute(PerceivedEffort), Attribute(Details)}
    ensures WellTypedMap(attributes)
  {
    map[
      Attribute(Name) := Text(form.name),
      Attribute(Status) := Text(StatusForLabel(form.statusLabel)),
      Attribute(Days) := Texts(DaysInOrder(form.checkedDays)),
      Attribute(CompletedToday) := Flag(form.completedToday),
      Attribute(PerceivedEffort) := Number(EffortValue(form.effort)),
      Attribute(Details) := Text(form.details)]
  }

  /** The form sets six attributes and none of the other four. */
  lemma FormLeavesOthers(form: DetailForm)
    ensures Given(FormAttributes(form), Status) == Some(Text(StatusForLabel(form.statusLabel)))
    ensures Given(FormAttributes(form), Days) == Some(Texts(DaysInOrder(form.checkedDays)))
    ensures Given(FormAttributes(form), Priority) == None && Given(FormAttributes(form), Tags) == None
    ensures Given(FormAttributes(form), Recurring) == None && Given(FormAttributes(form), CalculatedWorkTime) == None
  {
  }

  /** A save from the dialog keeps a task valid: the status is one of the three and the days
      are not empty; the priority, tags, recurrence and allocation are not touched. */
  lemma SaveKeepsTaskValid(t: TaskRecord, form: DetailForm)
    requires Valid(t)
    ensures var u := Overlay(t, FormAttributes(form));
      && Valid(u) && u.status in StatusOptions && u.days == DaysInOrder(form.checkedDays)
      && u.priority == t.priority && u.tags == t.tags && u.recurring == t.recurring
      && u.calculatedWorkTime == t.calculatedWorkTime
  {
    FormLeavesOthers(form);
    DaysInOrderProperties(form.checkedDays);
  }

  /** Opening the dialog and saving it unchanged leaves a task with a valid status as it was,
      except that its days are put in the fixed order (and unknown days dropped) and its
      details become the plain text the details box showed; details that the rich-text
      reading leaves alone are kept. */
  lemma UnchangedSaveRoundTrip(t: TaskRecord, shownDetails: string)
    requires t.status in StatusOptions
    ensures Overlay(t, FormAttributes(FormFor(t, shownDetails)))
      == t.(days := DaysInOrder(FormFor(t, shownDetails).checkedDays), details := shownDetails)
    ensures shownDetails == t.details ==>
      Overlay(t, FormAttributes(FormFor(t, shownDetails))) == t.(days := DaysInOrder(FormFor(t, shownDetails).checkedDays))
  {
    var form := FormFor(t, shownDetails);
    var attributes := FormAttributes(form);
    StatusLabelRoundTrip(t.status, "");
    FormLeavesOthers(form);
    assert Given(attributes, Name) == Some(Text(t.name));
    assert Given(attributes, Details) == Some(Text(shownDetails));
    assert Given(attributes, CompletedToday) == Some(Flag(t.completedToday));
    assert Given(attributes, PerceivedEffort) == Some(Number(t.perceivedEffort));
  }

  datatype DialogResult = Open | Accepted | Rejected

  class TaskDetailView {
    const task: Task
    const controller: TaskController?
    var form: DetailForm
    var result: DialogResult

    /** The dialog opens on a task with its form filled from the task; `shownDetails` is the
        plain text the details box holds once Qt has read the task's details as rich text. */
    constructor (task: Task, controller: TaskController?, shownDetails: string)
      ensures this.task == task && this.controller == controller
      ensures form == FormFor(task.rec, shownDetails) && result == Open
    {
      this.task := task;
      this.controller := controller;
      form := FormFor(task.rec, shownDetails);
      result := Open;
    }

    /** The store the controller works on, if there is a controller. */
    function Store(): set<ScheduleModel> {
      if controller == null then {} else {controller.model}
    }

    /** The store's observer list, if there is a controller. */
    function Observers(): set<Subject> {
      if controller == null then {} else {controller.model.subject}
    }

    /** `save_task`'s loop over the day boxes, in their fixed order, with the Free default. */
    static method SelectedDays(checked: set<string>) returns (days: seq<string>)
      ensures days == DaysInOrder(checked)
    {
      days := [];
      for i := 0 to |DayOptions|
        invariant days == CheckedIn(DayOptions[..i], checked)
      {
        assert DayOptions[..i + 1][..i] == DayOptions[..i];
        if DayOptions[i] in checked {
          days := days + [DayOptions[i]];
        }
      }
      assert DayOptions[..|DayOptions|] == DayOptions;
      if days == [] {
        days := [Free];
      }
    }

    /** `save_task`: without a controller the dialog is rejected and the task left alone;
        otherwise the form's attributes go through one `update_task` call (one notification)
        and the dialog is accepted. */
    method SaveTask()
      modifies this`result, task, Store()`notices, Observers()`delivered
      ensures controller == null ==> result == Rejected && task.rec == old(task.rec)
      ensures controller != null ==> result == Accepted && task.rec == Overlay(old(task.rec), FormAttributes(form))
      ensures controller != null ==>
        controller.model.subject.delivered == old(controller.model.subject.delivered) + controller.model.subject.observers
      ensures controller != null ==> controller.model.notices == old(controller.model.notices) + [controller.model.View()]
    {
      if controller == null {
        result := Rejected;
        return;
      }
      var days := SelectedDays(form.checkedDays);
      var attributes := map[
        Attribute(Name) := Text(form.name),
        Attribute(Status) := Text(StatusForLabel(form.statusLabel)),
        Attribute(Days) := Texts(days),
        Attribute(CompletedToday) := Flag(form.completedToday),
        Attribute(PerceivedEffort) := Number(EffortValue(form.effort)),
        Attribute(Details) := Text(form.details)];
      assert attributes == FormAttributes(form);
      var _ := controller.UpdateTask(task, attributes);
      result := Accepted;
    }
  }
}
