/** The calculation controller (controllers/calculation_controller.py): the work-time strategy
    it holds, the save-then-notify step, and the gate in front of the calculation dialog. */
module CalculationControl {
  import opened TaskModel
  import opened Strategy
  import opened Schedule

  /** The calculation strategies the program defines; there is one. */
  datatype CalculationStrategy = ProportionalTimeCalculation

  /** The gate of `show_calculation_view`: the dialog opens only when every task is
      completed today, which an empty list vacuously is. */
  function ShowCalculationView(tasks: seq<Task>): (shown: bool)
    reads tasks
    ensures shown <==> forall t :: t in tasks ==> t.rec.completedToday
    ensures tasks == [] ==> shown
  {
    if tasks == [] then true
    else
      assert forall t :: t in tasks[1..] ==> t in tasks;
      assert forall t :: t in tasks ==> t == tasks[0] || t in tasks[1..];
      tasks[0].rec.completedToday && ShowCalculationView(tasks[1..])
  }

  class CalculationController {
    const model: ScheduleModel
    var calculationStrategy: CalculationStrategy

    /** A new controller calculates proportionally. */
    constructor (model: ScheduleModel)
      ensures this.model == model && calculationStrategy == ProportionalTimeCalculation
    {
      this.model := model;
      calculationStrategy := ProportionalTimeCalculation;
    }

    /** `set_calculation_strategy`: the strategy used by later calculations. */
    method SetCalculationStrategy(strategy: CalculationStrategy)
      modifies this`calculationStrategy
      ensures calculationStrategy == strategy
    {
      calculationStrategy := strategy;
    }

    /** `calculate_work_time`: exactly what the current strategy computes: the same list,
        each task's allocation set to its share of the budget and nothing else changed. */
    method CalculateWorkTime(tasks: seq<Task>, totalWorkTime: real) returns (r: seq<Task>)
      requires |tasks| > 0
      modifies tasks
      ensures r == tasks
      ensures forall t :: t in tasks ==> t.rec == old(t.rec).(calculatedWorkTime := t.rec.calculatedWorkTime)
      ensures WorkTimes(tasks) == Allocation(old(Efforts(tasks)), totalWorkTime)
    {
      match calculationStrategy
      case ProportionalTimeCalculation =>
        r := Calculate(tasks, totalWorkTime);
    }

    /** `save_work_time`: when the store's save returns, observers are notified and its
        answer (true) is passed on; when it raises, the answer is false and no one is
        notified. */
    method SaveWorkTime(calculated: seq<Task>, history: HistoryContent, date: string, writeSucceeds: bool)
      returns (ok: bool)
      modifies model`writes, model`notices, model.subject`delivered
      ensures ok <==> writeSucceeds
      ensures ok ==>
        model.writes == old(model.writes) + [WorkTimeFile(AppendedHistory(history, WorkTimeRecordOf(calculated, date)))]
      ensures ok ==> model.subject.delivered == old(model.subject.delivered) + model.subject.observers
      ensures ok ==> model.notices == old(model.notices) + [model.View()]
      ensures !ok ==> model.writes == old(model.writes) && model.subject.delivered == old(model.subject.delivered)
      ensures !ok ==> model.notices == old(model.notices)
    {
      var outcome := model.SaveWorkTime(calculated, history, date, writeSucceeds);
      match outcome
      case Raised =>
        ok := false;
      case Returned(result) =>
        model.Notify();
        ok := result;
    }
  }
}
