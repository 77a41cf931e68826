/** TaskStatus and its extension methods: display names and the lifecycle transition table. */
module TaskStatuses {

  /** The lifecycle states of a task (underlying values 0, 1, 2). */
  datatype TaskStatus = NotStarted | InProgress | Completed

  /** The human-readable name of a status. */
  function GetDisplayName(status: TaskStatus): string
  {
    match status
    case NotStarted => "Not Started"
    case InProgress => "In Progress"
    case Completed => "Completed"
  }

  /** The long description of a status. */
  function GetDescription(status: TaskStatus): string
  {
    match status
    case NotStarted => "Задача создана, но работа над ней еще не начата"
    case InProgress => "Задача находится в процессе выполнения"
    case Completed => "Задача полностью завершена"
  }

  /** The transition table of the task lifecycle. */
  predicate CanTransitionTo(current: TaskStatus, target: TaskStatus)
  {
    match current
    case NotStarted => target == InProgress || target == Completed
    case InProgress => target == NotStarted || target == Completed
    case Completed => target == InProgress
  }

  /** The successors of a status, as a list: exactly the targets CanTransitionTo allows, each once. */
  function GetPossibleTransitions(current: TaskStatus): (r: seq<TaskStatus>)
    ensures forall t :: t in r <==> CanTransitionTo(current, t)
    ensures forall i, j :: 0 <= i < j < |r| ==> r[i] != r[j]
    ensures 1 <= |r| <= 2
  {
    match current
    case NotStarted => [InProgress, Completed]
    case InProgress => [NotStarted, Completed]
    case Completed => [InProgress]
  }

  /** The table, spelled out pair by pair: five allowed transitions and four refused ones. */
  lemma TransitionTable()
    ensures CanTransitionTo(NotStarted, InProgress) && CanTransitionTo(NotStarted, Completed)
    ensures CanTransitionTo(InProgress, NotStarted) && CanTransitionTo(InProgress, Completed)
    ensures CanTransitionTo(Completed, InProgress)
    ensures !CanTransitionTo(Completed, NotStarted)
    ensures forall s :: !CanTransitionTo(s, s)
  {
  }

  /** The successor lists have lengths 2, 2 and 1. */
  lemma SuccessorCounts()
    ensures |GetPossibleTransitions(NotStarted)| == 2
    ensures |GetPossibleTransitions(InProgress)| == 2
    ensures |GetPossibleTransitions(Completed)| == 1
  {
  }

  /** Every status reaches every other status in at most two steps; Completed needs exactly two
      (through InProgress) to get back to NotStarted. */
  lemma StronglyConnected(s: TaskStatus, t: TaskStatus)
    requires s != t
    ensures CanTransitionTo(s, t) || (CanTransitionTo(s, InProgress) && CanTransitionTo(InProgress, t))
    ensures !CanTransitionTo(s, t) <==> s == Completed && t == NotStarted
  {
  }

  /** Distinct statuses have distinct display names. */
  lemma DisplayNamesDistinct(s: TaskStatus, t: TaskStatus)
    ensures GetDisplayName(s) == GetDisplayName(t) <==> s == t
  {
  }

  /** Every status has a non-empty description, and distinct statuses have distinct ones. */
  lemma DescriptionsDistinct(s: TaskStatus, t: TaskStatus)
    ensures GetDescription(s) != []
    ensures GetDescription(s) == GetDescription(t) <==> s == t
  {
  }
}
