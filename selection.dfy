/** The list comprehensions of the scheduler, `[task for task in tasks if test(task)]`, as one
    filter over task objects and one criterion per test the source writes. */
module Selection {
  import opened Common
  import opened TaskModel

  datatype Criterion =
    /** `task.is_for_today(include_free)` with the weekday passed in. */
    | ForToday(today: string, includeFree: bool)
    /** `task.status == status`. */
    | WithStatus(status: string)
    /** `task.status != status`. */
    | WithoutStatus(status: string)
    /** `today in task.days and "Free" not in task.days`: scheduled for today explicitly. */
    | ExplicitlyOn(today: string)
    /** `task.name not in names`. */
    | NameNotIn(names: set<string>)
    /** The add-task dropdown rule: not already listed by name, and Free, for today, or any day
        when exceptions are shown. */
    | Addable(names: set<string>, today: string, showExceptions: bool)

  predicate Holds(c: Criterion, t: TaskRecord) {
    match c
    case ForToday(today, includeFree) => IsForToday(t, today, includeFree)
    case WithStatus(status) => t.status == status
    case WithoutStatus(status) => t.status != status
    case ExplicitlyOn(today) => today in t.days && Free !in t.days
    case NameNotIn(names) => t.name !in names
    case Addable(names, today, showExceptions) =>
      t.name !in names && (Free in t.days || today in t.days || showExceptions)
  }

  /** The tasks of `tasks` that meet `c`, in input order. */
  function Select(c: Criterion, tasks: seq<Task>): (r: seq<Task>)
    reads tasks
    ensures |r| <= |tasks|
    ensures forall t :: t in r ==> t in tasks && Holds(c, t.rec)
  {
    if tasks == [] then []
    else
      var rest := Select(c, tasks[1..]);
      if Holds(c, tasks[0].rec) then [tasks[0]] + rest else rest
  }

  /** The selection is exactly the comprehension's list: every task that meets `c` is kept as
      often as the input holds it, every other task is dropped, and the input order is kept. */
  lemma SelectExact(c: Criterion, tasks: seq<Task>)
    ensures forall t :: t in tasks ==> multiset(Select(c, tasks))[t] == if Holds(c, t.rec) then multiset(tasks)[t] else 0
    ensures IsSubsequence(Select(c, tasks), tasks)
  {
    SelectCounts(c, tasks);
    SelectIsSubsequence(c, tasks);
  }

  lemma {:induction false} SelectCounts(c: Criterion, tasks: seq<Task>)
    ensures forall t: Task :: multiset(Select(c, tasks))[t] == if Holds(c, t.rec) then multiset(tasks)[t] else 0
  {
    if tasks != [] {
      SelectCounts(c, tasks[1..]);
      assert tasks == [tasks[0]] + tasks[1..];
      assert multiset(tasks) == multiset{tasks[0]} + multiset(tasks[1..]);
    }
  }

  lemma {:induction false} SelectIsSubsequence(c: Criterion, tasks: seq<Task>)
    ensures IsSubsequence(Select(c, tasks), tasks)
  {
    if tasks != [] {
      var rest := Select(c, tasks[1..]);
      SelectIsSubsequence(c, tasks[1..]);
      if Holds(c, tasks[0].rec) {
        assert ([tasks[0]] + rest)[1..] == rest;
      }
    }
  }

  /** A task is in the selection exactly when it is in the input and meets `c`. */
  lemma {:induction false} SelectMembership(c: Criterion, tasks: seq<Task>)
    ensures forall t :: t in Select(c, tasks) <==> t in tasks && Holds(c, t.rec)
  {
    if tasks != [] {
      SelectMembership(c, tasks[1..]);
      assert tasks == [tasks[0]] + tasks[1..];
    }
  }

  /** Selecting from a concatenation selects from each part. */
  lemma {:induction false} SelectAppend(c: Criterion, a: seq<Task>, b: seq<Task>)
    ensures Select(c, a + b) == Select(c, a) + Select(c, b)
  {
    if a == [] {
      assert a + b == b;
    } else {
      assert (a + b)[0] == a[0] && (a + b)[1..] == a[1..] + b;
      SelectAppend(c, a[1..], b);
      if Holds(c, a[0].rec) {
        assert [a[0]] + (Select(c, a[1..]) + Select(c, b)) == ([a[0]] + Select(c, a[1..])) + Select(c, b);
      }
    }
  }

  /** A criterion that every task of the list meets selects the whole list. */
  lemma {:induction false} SelectAll(c: Criterion, tasks: seq<Task>)
    requires forall t :: t in tasks ==> Holds(c, t.rec)
    ensures Select(c, tasks) == tasks
  {
    if tasks != [] {
      assert forall t :: t in tasks[1..] ==> t in tasks;
      SelectAll(c, tasks[1..]);
    }
  }

  /** Extending a prefix by one task extends its selection by that task when it meets `c`. */
  lemma SelectPrefixStep(c: Criterion, tasks: seq<Task>, i: nat)
    requires i < |tasks|
    ensures Select(c, tasks[..i + 1]) == Select(c, tasks[..i]) + if Holds(c, tasks[i].rec) then [tasks[i]] else []
  {
    assert tasks[..i + 1] == tasks[..i] + [tasks[i]];
    SelectAppend(c, tasks[..i], [tasks[i]]);
    assert [tasks[i]][1..] == [];
  }
}
