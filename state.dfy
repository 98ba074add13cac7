/** The three-state status workflow (patterns/state.py): a tagged enum and lookup tables. */
module TaskState {
  import opened TaskModel
  import opened Strategy

  datatype State = Working | Planned | Closed

  /** The task status each state stands for. */
  function StatusName(s: State): (status: string)
    ensures status in StatusOptions
  {
    match s
    case Working => "working"
    case Planned => "planned"
    case Closed => "closed"
  }

  /** `StateContext.get_state_for_status`: the state named by `status`, and Planned for any
      other string. */
  function ForStatus(status: string): (s: State)
    ensures status in StatusOptions ==> StatusName(s) == status
    ensures status !in StatusOptions ==> s == Planned
  {
    match status
    case "working" => Working
    case "closed" => Closed
    case _ => Planned
  }

  /** Looking up a state by its own status name gives the state back. */
  lemma ForStatusName(s: State)
    ensures ForStatus(StatusName(s)) == s
  {
  }

  /** `get_next_state`: Planned -> Working -> Closed -> Planned. */
  function NextState(s: State): (next: State)
    ensures next != s
    ensures s == Planned ==> next == Working
    ensures s == Working ==> next == Closed
    ensures s == Closed ==> next == Planned
  {
    match s
    case Working => Closed
    case Planned => Working
    case Closed => Planned
  }

  /** The workflow is a cycle of length exactly three: two steps never return, three always do. */
  lemma NextStateCycle(s: State)
    ensures NextState(NextState(s)) != s
    ensures NextState(NextState(NextState(s))) == s
  {
  }

  /** `get_filter_strategy`: a status filter on the state's own status. */
  function FilterStrategyOf(s: State): (f: FilterStrategy)
    ensures f.StatusTasksFilter? && f.status == StatusName(s)
  {
    StatusTasksFilter(StatusName(s))
  }

  /** For tasks whose status is one of the three, the state's filter keeps exactly the tasks
      that `get_state_for_status` maps to that state. */
  lemma FilterSelectsOwnState(s: State, tasks: seq<Task>, today: string)
    requires forall t :: t in tasks ==> t.rec.status in StatusOptions
    ensures forall t :: t in tasks ==> (t in Filter(FilterStrategyOf(s), tasks, today) <==> ForStatus(t.rec.status) == s)
  {
    forall t | t in tasks
      ensures t in Filter(FilterStrategyOf(s), tasks, today) <==> ForStatus(t.rec.status) == s
    {
      ForStatusName(s);
    }
  }

  datatype DisplayProperties = DisplayProperties(color: string, editable: bool, priority: int)

  /** `get_display_properties`: fixed per state. */
  function DisplayPropertiesOf(s: State): (p: DisplayProperties)
    ensures s == Working ==> p == DisplayProperties("#FFC107", true, 1)
    ensures s == Planned ==> p == DisplayProperties("#2196F3", true, 2)
    ensures s == Closed ==> p == DisplayProperties("#4CAF50", false, 3)
  {
    match s
    case Working => DisplayProperties("#FFC107", true, 1)
    case Planned => DisplayProperties("#2196F3", true, 2)
    case Closed => DisplayProperties("#4CAF50", false, 3)
  }

  /** Only a closed task is read-only, and no two states share a colour or a display rank. */
  lemma DisplayPropertiesDistinguishStates(s: State, u: State)
    ensures DisplayPropertiesOf(s).editable <==> s != Closed
    ensures s != u ==> DisplayPropertiesOf(s).color != DisplayPropertiesOf(u).color
    ensures s != u ==> DisplayPropertiesOf(s).priority != DisplayPropertiesOf(u).priority
  {
  }
}
