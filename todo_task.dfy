/** The TodoTask entity: a task with a status lifecycle, a priority and audit stamps. */
module TodoTasks {
  import opened Common
  import opened TaskStatuses
  import opened TaskPriorities
  import opened Entities
  import opened AuditableEntities
  import opened Titles
  import opened Descriptions

  class TodoTask {
    const base: AuditableEntity
    var title: Title
    var description: Option<Description>
    var status: TaskStatus
    var priority: TaskPriority
    var dueDate: Option<DateTime>
    var completedAt: Option<DateTime>
    var assignedUserId: Option<Guid>
    var todoListId: Guid

    /** CompletedAt is set exactly when the task is Completed. */
    ghost predicate Valid()
      reads this
    {
      completedAt.Some? <==> status == Completed
    }

    /** The task as entity equality sees it: a TodoTask with the base's id. */
    function Key(): (e: Entity<Guid>)
      reads base
      ensures e == base.KeyAs(TodoTaskKind)
    {
      base.KeyAs(TodoTaskKind)
    }

    /** new TodoTask(todoListId, createdBy, title, description, priority, dueDate), for a non-null
        title: NotStarted, not completed, not updated, created by createdBy. The priority the
        source defaults to is DefaultPriority. */
    constructor(id: Guid, todoListId: Guid, createdBy: Guid, title: Title, description: Option<Description>,
                priority: TaskPriority, dueDate: Option<DateTime>, now: DateTime)
      ensures fresh(base) && base.id == id
      ensures this.title == title && this.description == description && this.priority == priority
      ensures this.dueDate == dueDate && this.todoListId == todoListId && assignedUserId == None
      ensures status == NotStarted && completedAt == None && Valid()
      ensures base.Info() == Created(Initial(now), createdBy, now) && !base.IsModified()
      ensures base.createdBy == createdBy
    {
      base := new AuditableEntity(id, now);
      this.title := title;
      this.description := description;
      this.priority := priority;
      this.dueDate := dueDate;
      this.todoListId := todoListId;
      status := NotStarted;
      completedAt := None;
      assignedUserId := None;
      new;
      base.SetCreatedInfo(createdBy, now);
    }

    /** The constructor's null check on the title: null is refused and no task is built. */
    static method New(id: Guid, todoListId: Guid, createdBy: Guid, title: Option<Title>,
                      description: Option<Description>, priority: TaskPriority, dueDate: Option<DateTime>,
                      now: DateTime)
      returns (r: Result<TodoTask>)
      ensures title.None? ==> r == Err(ArgumentNull("title"))
      ensures title.Some? ==> r.Ok?
      ensures r.Ok? ==> fresh(r.value) && fresh(r.value.base) && r.value.base.id == id
      ensures r.Ok? ==> && r.value.title == title.value && r.value.description == description
                        && r.value.priority == priority && r.value.dueDate == dueDate
                        && r.value.todoListId == todoListId && r.value.assignedUserId == None
      ensures r.Ok? ==> r.value.status == NotStarted && r.value.completedAt == None && r.value.Valid()
      ensures r.Ok? ==> r.value.base.Info() == Created(Initial(now), createdBy, now) && !r.value.base.IsModified()
    {
      if title.None? {
        return Err(ArgumentNull("title"));
      }
      var t := new TodoTask(id, todoListId, createdBy, title.value, description, priority, dueDate, now);
      r := Ok(t);
    }

    /** UpdateTitle: a null title is refused with nothing changed; otherwise the title is
        replaced and the update stamped. */
    method UpdateTitle(title: Option<Title>, updatedBy: Guid, now: DateTime) returns (r: Outcome)
      modifies this`title, base`updatedAt, base`updatedBy
      ensures title.None? ==> r == Fail(ArgumentNull("title")) && unchanged(this) && unchanged(base)
      ensures title.Some? ==> r == Pass && this.title == title.value
      ensures title.Some? ==> base.Info() == Updated(old(base.Info()), updatedBy, now)
    {
      if title.None? {
        return Fail(ArgumentNull("title"));
      }
      this.title := title.value;
      base.SetUpdatedInfo(updatedBy, now);
      r := Pass;
    }

    /** UpdateDescription: replaces the description and stamps the update. */
    method UpdateDescription(description: Description, updatedBy: Guid, now: DateTime)
      modifies this`description, base`updatedAt, base`updatedBy
      ensures this.description == Some(description)
      ensures base.Info() == Updated(old(base.Info()), updatedBy, now)
    {
      this.description := Some(description);
      base.SetUpdatedInfo(updatedBy, now);
    }

    /** ChangeStatus: a move the transition table forbids fails and changes nothing, audit
        included. An allowed move sets the status, sets CompletedAt when entering Completed and
        clears it otherwise, and stamps the update. The source reads the clock twice: once for
        CompletedAt (completionClock) and once more inside SetUpdatedInfo (now). */
    method ChangeStatus(target: TaskStatus, updatedBy: Guid, completionClock: DateTime, now: DateTime)
      returns (r: Outcome)
      modifies this`status, this`completedAt, base`updatedAt, base`updatedBy
      ensures !CanTransitionTo(old(status), target) ==>
        r == Fail(InvalidStatusTransition(old(status), target)) && unchanged(this) && unchanged(base)
      ensures CanTransitionTo(old(status), target) ==>
        && r == Pass
        && status == target
        && completedAt == (if target == Completed then Some(completionClock) else None)
        && base.Info() == Updated(old(base.Info()), updatedBy, now)
      ensures r.Pass? ==> Valid()
      ensures old(Valid()) ==> Valid()
    {
      if !CanTransitionTo(status, target) {
        return Fail(InvalidStatusTransition(status, target));
      }
      status := target;
      if target == Completed {
        completedAt := Some(completionClock);
      } else if completedAt.Some? {
        completedAt := None;
      }
      base.SetUpdatedInfo(updatedBy, now);
      r := Pass;
    }

    /** SetPriority: replaces the priority and stamps the update. */
    method SetPriority(priority: TaskPriority, updatedBy: Guid, now: DateTime)
      modifies this`priority, base`updatedAt, base`updatedBy
      ensures this.priority == priority
      ensures base.Info() == Updated(old(base.Info()), updatedBy, now)
    {
      this.priority := priority;
      base.SetUpdatedInfo(updatedBy, now);
    }

    /** SetDueDate: sets the due date and stamps the update. */
    method SetDueDate(dueDate: DateTime, updatedBy: Guid, now: DateTime)
      modifies this`dueDate, base`updatedAt, base`updatedBy
      ensures this.dueDate == Some(dueDate)
      ensures base.Info() == Updated(old(base.Info()), updatedBy, now)
    {
      this.dueDate := Some(dueDate);
      base.SetUpdatedInfo(updatedBy, now);
    }

    /** AssignTo: sets (or, with null, clears) the assignee and stamps the update. */
    method AssignTo(assignedUserId: Option<Guid>, updatedBy: Guid, now: DateTime)
      modifies this`assignedUserId, base`updatedAt, base`updatedBy
      ensures this.assignedUserId == assignedUserId
      ensures base.Info() == Updated(old(base.Info()), updatedBy, now)
    {
      this.assignedUserId := assignedUserId;
      base.SetUpdatedInfo(updatedBy, now);
    }

    /** The public AssignedUserId setter: no audit stamp. */
    method SetAssignedUserId(assignedUserId: Option<Guid>)
      modifies this`assignedUserId
      ensures this.assignedUserId == assignedUserId
    {
      this.assignedUserId := assignedUserId;
    }

    /** The public TodoListId setter: no audit stamp. */
    method SetTodoListId(todoListId: Guid)
      modifies this`todoListId
      ensures this.todoListId == todoListId
    {
      this.todoListId := todoListId;
    }

    /** IsCompleted. */
    predicate IsCompleted()
      reads this
    {
      status == Completed
    }

    /** IsOverdue, as written: a due date in the past AND the task completed. */
    predicate IsOverdue(now: DateTime)
      reads this
    {
      dueDate.Some? && dueDate.value < now && IsCompleted()
    }
  }

  /** An overdue task is always a completed one (so it has a completion time), and a task that
      is not completed is never overdue, whatever its due date. */
  lemma OverdueOnlyWhenCompleted(t: TodoTask, now: DateTime)
    requires t.Valid()
    ensures t.IsOverdue(now) ==> t.IsCompleted() && t.completedAt.Some?
    ensures !t.IsCompleted() ==> !t.IsOverdue(now)
    ensures t.IsCompleted() && t.dueDate.Some? ==> (t.IsOverdue(now) <==> t.dueDate.value < now)
  {
  }

  /** The lifecycle NotStarted -> InProgress -> NotStarted -> Completed succeeds step by step;
      asking to go back from Completed to NotStarted then fails, leaving the task completed with
      the completion time and the update stamp of the step that completed it. */
  method LifecycleScenario(id: Guid, listId: Guid, user: Guid, title: Title, now: DateTime)
    returns (r1: Outcome, r2: Outcome, r3: Outcome, r4: Outcome, finalStatus: TaskStatus, stamped: bool)
    ensures r1 == Pass && r2 == Pass && r3 == Pass
    ensures r4 == Fail(InvalidStatusTransition(Completed, NotStarted))
    ensures finalStatus == Completed && stamped
  {
    var t := new TodoTask(id, listId, user, title, None, DefaultPriority, None, now);
    r1 := t.ChangeStatus(InProgress, user, now + 1, now + 2);
    r2 := t.ChangeStatus(NotStarted, user, now + 3, now + 4);
    r3 := t.ChangeStatus(Completed, user, now + 5, now + 6);
    r4 := t.ChangeStatus(NotStarted, user, now + 7, now + 8);
    finalStatus := t.status;
    stamped := t.completedAt == Some(now + 5) && t.base.updatedAt == Some(now + 6);
  }
}
