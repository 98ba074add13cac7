/** The filtering and work-time strategies (patterns/strategy.py). */
module Strategy {
  import opened Common
  import opened TaskModel
  import opened Selection

  /** The two filter strategy objects; each is stateless apart from its constructor argument. */
  datatype FilterStrategy =
    | TodayTasksFilter(includeExceptions: bool)
    | StatusTasksFilter(status: string)

  /** `TodayTasksFilter()` with its default argument. */
  const DefaultTodayFilter: FilterStrategy := TodayTasksFilter(false)

  /** The per-task test of each strategy's comprehension. */
  function CriterionOf(f: FilterStrategy, today: string): Criterion {
    match f
    case TodayTasksFilter(includeExceptions) => ForToday(today, includeExceptions)
    case StatusTasksFilter(status) => WithStatus(status)
  }

  /** `filter(tasks)`: the today filter hands its `include_exceptions` flag to
      `is_for_today(include_free)`, so a task is kept when `today` is one of its days, or when
      the flag is set and "Free" is; the status filter keeps the tasks whose status equals its
      own. Either way a kept task appears as often as in the input, and the result is an
      order-preserving subsequence of the input. */
  function Filter(f: FilterStrategy, tasks: seq<Task>, today: string): (r: seq<Task>)
    reads tasks
    ensures forall t :: t in r ==> t in tasks
    ensures f.TodayTasksFilter? ==> forall t :: t in tasks ==>
      (t in r <==> today in t.rec.days || (f.includeExceptions && Free in t.rec.days))
    ensures f.StatusTasksFilter? ==> forall t :: t in tasks ==> (t in r <==> t.rec.status == f.status)
    ensures f.TodayTasksFilter? ==> forall t :: t in tasks ==>
      multiset(r)[t] == if today in t.rec.days || (f.includeExceptions && Free in t.rec.days) then multiset(tasks)[t] else 0
    ensures f.StatusTasksFilter? ==> forall t :: t in tasks ==>
      multiset(r)[t] == if t.rec.status == f.status then multiset(tasks)[t] else 0
    ensures IsSubsequence(r, tasks)
  {
    var c := CriterionOf(f, today);
    SelectExact(c, tasks);
    Select(c, tasks)
  }

  /** With the default flag a Free-only task is never kept: only tasks that name today are. */
  lemma DefaultTodayFilterDropsFree(tasks: seq<Task>, today: string, t: Task)
    requires t in tasks && t.rec.days == [Free] && today != Free
    ensures t !in Filter(DefaultTodayFilter, tasks, today)
  {
  }

  function Sum(xs: seq<int>): int {
    if xs == [] then 0 else xs[0] + Sum(xs[1..])
  }

  function SumReal(xs: seq<real>): real {
    if xs == [] then 0.0 else xs[0] + SumReal(xs[1..])
  }

  /** The perceived efforts of `tasks`, position by position. */
  function Efforts(tasks: seq<Task>): (efforts: seq<int>)
    reads tasks
    ensures |efforts| == |tasks|
    ensures forall i :: 0 <= i < |tasks| ==> efforts[i] == tasks[i].rec.perceivedEffort
  {
    seq(|tasks|, i reads tasks requires 0 <= i < |tasks| => tasks[i].rec.perceivedEffort)
  }

  /** The allocations currently stored on `tasks`, position by position. */
  function WorkTimes(tasks: seq<Task>): (times: seq<real>)
    reads tasks
    ensures |times| == |tasks|
    ensures forall i :: 0 <= i < |tasks| ==> times[i] == tasks[i].rec.calculatedWorkTime
  {
    seq(|tasks|, i reads tasks requires 0 <= i < |tasks| => tasks[i].rec.calculatedWorkTime)
  }
  /** `(effort / totalEffort) * budget`, the proportional share of one task. */
  function Fraction(effort: int, totalEffort: int, budget: real): real
    requires totalEffort != 0
  {
    (effort as real / totalEffort as real) * budget
  }

  /** One task's share of `budget`: an equal split among `count` tasks when the efforts sum to
      zero, otherwise `effort / totalEffort * budget`. */
  function Share(effort: int, totalEffort: int, count: nat, budget: real): real
    requires count > 0
  {
    if totalEffort == 0 then budget / count as real
    else Fraction(effort, totalEffort, budget)
  }

  /** `n` copies of `x`: the equal split. */
  function Constant(n: nat, x: real): (r: seq<real>)
    ensures |r| == n && forall i :: 0 <= i < n ==> r[i] == x
  {
    seq(n, _ => x)
  }

  /** `effort / totalEffort * budget` for each effort: the proportional split. */
  function Proportional(efforts: seq<int>, totalEffort: int, budget: real): (r: seq<real>)
    requires totalEffort != 0
    ensures |r| == |efforts|
    ensures forall i :: 0 <= i < |efforts| ==> r[i] == Share(efforts[i], totalEffort, |efforts|, budget)
  {
    seq(|efforts|, i requires 0 <= i < |efforts| => Fraction(efforts[i], totalEffort, budget))
  }

  /** The allocation `ProportionalTimeCalculation.calculate` computes for the efforts, in
      exact arithmetic (an empty list would divide by zero in the equal split). */
  function Allocation(efforts: seq<int>, budget: real): (shares: seq<real>)
    requires |efforts| > 0
    ensures |shares| == |efforts|
    ensures forall i :: 0 <= i < |efforts| ==> shares[i] == Share(efforts[i], Sum(efforts), |efforts|, budget)
  {
    if Sum(efforts) == 0 then Constant(|efforts|, budget / |efforts| as real)
    else Proportional(efforts, Sum(efforts), budget)
  }

  lemma {:induction false} ConstantSum(n: nat, x: real)
    ensures SumReal(Constant(n, x)) == n as real * x
  {
    if n > 0 {
      assert Constant(n, x)[1..] == Constant(n - 1, x);
      ConstantSum(n - 1, x);
      assert n as real * x == (n - 1) as real * x + x;
    }
  }

  /** Summing the proportional shares over part of the efforts gives that part's fraction of
      the budget. */
  lemma {:induction false} ProportionalSum(efforts: seq<int>, totalEffort: int, budget: real)
    requires totalEffort != 0
    ensures SumReal(Proportional(efforts, totalEffort, budget)) == (Sum(efforts) as real / totalEffort as real) * budget
  {
    var t := totalEffort as real;
    if efforts == [] {
      assert (0.0 / t) * budget == 0.0;
    } else {
      var tail := efforts[1..];
      assert Proportional(efforts, totalEffort, budget)[1..] == Proportional(tail, totalEffort, budget);
      ProportionalSum(tail, totalEffort, budget);
      AddShares(efforts[0] as real, Sum(tail) as real, t, budget);
    }
  }

  lemma AddShares(a: real, c: real, t: real, b: real)
    requires t != 0.0
    ensures (a / t) * b + (c / t) * b == ((a + c) / t) * b
  {
  }

  /** In exact arithmetic the allocation hands out the whole budget, in both branches. */
  lemma AllocationSumsToBudget(efforts: seq<int>, budget: real)
    requires |efforts| > 0
    ensures SumReal(Allocation(efforts, budget)) == budget
  {
    var n := |efforts|;
    if Sum(efforts) == 0 {
      ConstantSum(n, budget / n as real);
      WholeShare(n as real, budget);
    } else {
      ProportionalSum(efforts, Sum(efforts), budget);
      WholeShare(Sum(efforts) as real, budget);
    }
  }

  lemma WholeShare(t: real, b: real)
    requires t != 0.0
    ensures t * (b / t) == b && (t / t) * b == b
  {
  }

  /** The share of each task: equal when the efforts sum to zero, otherwise proportional to
      its effort, so a zero-effort task gets nothing and twice the effort gets twice the time. */
  lemma ShareProportional(effort: int, other: int, totalEffort: int, count: nat, budget: real)
    requires count > 0
    ensures totalEffort == 0 ==> Share(effort, totalEffort, count, budget) == budget / count as real
    ensures totalEffort != 0 ==>
      Share(effort, totalEffort, count, budget) == effort as real * (budget / totalEffort as real)
    ensures totalEffort != 0 && effort == 0 ==> Share(effort, totalEffort, count, budget) == 0.0
    ensures totalEffort != 0 && other == 2 * effort ==>
      Share(other, totalEffort, count, budget) == 2.0 * Share(effort, totalEffort, count, budget)
  {
    if totalEffort != 0 {
      var t, k := totalEffort as real, budget / totalEffort as real;
      ShareIsScaled(effort as real, t, budget);
      ShareIsScaled(other as real, t, budget);
      assert Share(other, totalEffort, count, budget) == other as real * k;
      assert Share(effort, totalEffort, count, budget) == effort as real * k;
    }
  }

  /** Over exact reals, `e / t * b` is `e` times the per-unit share `b / t`. */
  lemma ShareIsScaled(e: real, t: real, b: real)
    requires t != 0.0
    ensures (e / t) * b == e * (b / t)
  {
  }

  /** Non-negative efforts and budget give non-negative shares. */
  lemma AllocationNonNegative(efforts: seq<int>, budget: real, i: nat)
    requires i < |efforts| && budget >= 0.0
    requires forall k :: 0 <= k < |efforts| ==> efforts[k] >= 0
    ensures Allocation(efforts, budget)[i] >= 0.0
  {
    if Sum(efforts) != 0 {
      NonNegativeSum(efforts);
    }
  }

  lemma {:induction false} NonNegativeSum(xs: seq<int>)
    requires forall k :: 0 <= k < |xs| ==> xs[k] >= 0
    ensures Sum(xs) >= 0
  {
    if xs != [] {
      NonNegativeSum(xs[1..]);
    }
  }

  /** Three zero-effort tasks and a budget of 9 get 3 each; efforts 1 and 3 split 8 as 2 and 6. */
  lemma AllocationExamples()
    ensures Allocation([0, 0, 0], 9.0) == [3.0, 3.0, 3.0]
    ensures Allocation([1, 3], 8.0) == [2.0, 6.0]
  {
    assert Sum([0, 0, 0]) == 0;
    assert Sum([1, 3]) == 4;
  }

  /** The equal-split branch of `calculate`: every task gets `perTaskTime`. */
  method SplitEqually(tasks: seq<Task>, perTaskTime: real)
    modifies tasks
    ensures forall t :: t in tasks ==> t.rec == old(t.rec).(calculatedWorkTime := perTaskTime)
    ensures WorkTimes(tasks) == Constant(|tasks|, perTaskTime)
  {
    for i := 0 to |tasks|
      invariant forall t :: t in tasks ==> t.rec == old(t.rec).(calculatedWorkTime := t.rec.calculatedWorkTime)
      invariant forall j :: 0 <= j < i ==> tasks[j].rec.calculatedWorkTime == perTaskTime
    {
      tasks[i].rec := tasks[i].rec.(calculatedWorkTime := perTaskTime);
    }
  }

  /** The proportional branch of `calculate`: every task gets `effort / totalEffort` of the
      budget. */
  method SplitProportionally(tasks: seq<Task>, totalEffort: int, totalWorkTime: real)
    requires totalEffort != 0
    modifies tasks
    ensures forall t :: t in tasks ==> t.rec == old(t.rec).(calculatedWorkTime := t.rec.calculatedWorkTime)
    ensures WorkTimes(tasks) == Proportional(old(Efforts(tasks)), totalEffort, totalWorkTime)
  {
    ghost var efforts := Efforts(tasks);
    ghost var shares := Proportional(efforts, totalEffort, totalWorkTime);
    for i := 0 to |tasks|
      invariant forall t :: t in tasks ==> t.rec == old(t.rec).(calculatedWorkTime := t.rec.calculatedWorkTime)
      invariant forall j :: 0 <= j < |tasks| ==> tasks[j].rec.perceivedEffort == efforts[j]
      invariant forall j :: 0 <= j < i ==> tasks[j].rec.calculatedWorkTime == shares[j]
    {
      tasks[i].rec := tasks[i].rec.(calculatedWorkTime :=
        Fraction(tasks[i].rec.perceivedEffort, totalEffort, totalWorkTime));
    }
  }

  /** `ProportionalTimeCalculation.calculate`: overwrites the allocation of every task in
      place with its share of `totalWorkTime`, touches no other attribute, and returns the
      list it was given. A task listed twice gets the same share at both positions. */
  method Calculate(tasks: seq<Task>, totalWorkTime: real) returns (r: seq<Task>)
    requires |tasks| > 0
    modifies tasks
    ensures r == tasks
    ensures forall t :: t in tasks ==> t.rec == old(t.rec).(calculatedWorkTime := t.rec.calculatedWorkTime)
    ensures WorkTimes(tasks) == Allocation(old(Efforts(tasks)), totalWorkTime)
  {
    var totalEffort := Sum(Efforts(tasks));
    if totalEffort == 0 {
      SplitEqually(tasks, totalWorkTime / |tasks| as real);
    } else {
      SplitProportionally(tasks, totalEffort, totalWorkTime);
    }
    r := tasks;
  }
}
