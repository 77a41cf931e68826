/** The TodoList aggregate root: a titled list of tasks owned by a user. */
module TodoLists {
  import opened Common
  import opened Entities
  import opened AuditableEntities
  import opened AggregateRoots
  import opened Titles
  import opened Descriptions
  import opened TodoTasks
  import opened TodoListShares
  import Seqs

  /** The bases of the tasks in ts: what entity equality on them reads. */
  function Bases(ts: seq<TodoTask>): set<AuditableEntity>
  {
    set t | t in ts :: t.base
  }

  /** The tasks of ts as entity equality sees them. */
  function TaskKeys(ts: seq<TodoTask>): (ks: seq<Entity<Guid>>)
    reads Bases(ts)
    ensures |ks| == |ts|
  {
    if ts == [] then [] else [ts[0].Key()] + TaskKeys(ts[1..])
  }

  /** The position of the first task in ts with the given id, or |ts|. */
  function IndexOfId(ts: seq<TodoTask>, id: Guid): (k: nat)
    reads Bases(ts)
    ensures k <= |ts|
    ensures k < |ts| ==> ts[k].base.id == id
    ensures forall i :: 0 <= i < k ==> ts[i].base.id != id
  {
    if ts == [] then 0
    else if ts[0].base.id == id then 0
    else 1 + IndexOfId(ts[1..], id)
  }

  /** List<TodoTask>.Remove looks for the first task that Equals the argument; among tasks,
      all of one concrete class, that is the first task with the same id. */
  lemma {:induction false} RemoveFindsFirstSameId(ts: seq<TodoTask>, task: TodoTask)
    ensures IndexOfEqual(TaskKeys(ts), task.Key()) == IndexOfId(ts, task.base.id)
    decreases |ts|
  {
    if ts != [] {
      SameClassEqualsIffSameId(ts[0].base, task.base, TodoTaskKind);
      assert TaskKeys(ts)[1..] == TaskKeys(ts[1..]);
      RemoveFindsFirstSameId(ts[1..], task);
    }
  }

  class TodoList {
    const root: AggregateRoot
    var title: Title
    var description: Option<Description>
    var ownerId: Guid
    var tasks: seq<TodoTask>
    var shares: seq<TodoListShare>

    /** new TodoList(ownerId, title, description) for a non-null title. It never calls
        SetCreatedInfo: CreatedBy keeps its default and the list is not modified. */
    constructor(id: Guid, ownerId: Guid, title: Title, description: Option<Description>, now: DateTime)
      ensures fresh(root) && fresh(root.base) && root.base.id == id && root.domainEvents == []
      ensures this.title == title && this.description == description && this.ownerId == ownerId
      ensures tasks == [] && shares == []
      ensures root.base.Info() == Initial(now)
      ensures root.base.createdBy == EmptyGuid && !root.base.IsModified()
    {
      root := new AggregateRoot(id, now);
      this.title := title;
      this.description := description;
      this.ownerId := ownerId;
      tasks := [];
      shares := [];
    }

    /** The constructor's null check on the title. */
    static method New(id: Guid, ownerId: Guid, title: Option<Title>, description: Option<Description>, now: DateTime)
      returns (r: Result<TodoList>)
      ensures title.None? ==> r == Err(ArgumentNull("title"))
      ensures title.Some? ==> r.Ok?
      ensures r.Ok? ==> fresh(r.value) && fresh(r.value.root) && fresh(r.value.root.base)
      ensures r.Ok? ==> && r.value.title == title.value && r.value.description == description
                        && r.value.ownerId == ownerId && r.value.tasks == [] && r.value.shares == []
      ensures r.Ok? ==> r.value.root.base.id == id && r.value.root.domainEvents == []
      ensures r.Ok? ==> r.value.root.base.Info() == Initial(now) && !r.value.root.base.IsModified()
    {
      if title.None? {
        return Err(ArgumentNull("title"));
      }
      var l := new TodoList(id, ownerId, title.value, description, now);
      r := Ok(l);
    }

    /** UpdateTitle: a null title is refused with nothing changed; otherwise the title is
        replaced and the update stamped. */
    method UpdateTitle(title: Option<Title>, updatedBy: Guid, now: DateTime) returns (r: Outcome)
      modifies this`title, root.base`updatedAt, root.base`updatedBy
      ensures title.None? ==> r == Fail(ArgumentNull("title")) && unchanged(this) && unchanged(root.base)
      ensures title.Some? ==> r == Pass && this.title == title.value
      ensures title.Some? ==> root.base.Info() == Updated(old(root.base.Info()), updatedBy, now)
    {
      if title.None? {
        return Fail(ArgumentNull("title"));
      }
      this.title := title.value;
      root.base.SetUpdatedInfo(updatedBy, now);
      r := Pass;
    }

    /** UpdateDescription: replaces the description, null included, and stamps the update. */
    method UpdateDescription(description: Option<Description>, updatedBy: Guid, now: DateTime)
      modifies this`description, root.base`updatedAt, root.base`updatedBy
      ensures this.description == description
      ensures root.base.Info() == Updated(old(root.base.Info()), updatedBy, now)
    {
      this.description := description;
      root.base.SetUpdatedInfo(updatedBy, now);
    }

    /** AddTask: null is refused; otherwise the task is appended, duplicates included. Nothing
        else changes: no audit stamp, no domain event. */
    method AddTask(task: TodoTask?) returns (r: Outcome)
      modifies this`tasks
      ensures task == null ==> r == Fail(ArgumentNull("task")) && tasks == old(tasks)
      ensures task != null ==> r == Pass && tasks == old(tasks) + [task]
    {
      if task == null {
        return Fail(ArgumentNull("task"));
      }
      tasks := tasks + [task];
      r := Pass;
    }

    /** RemoveTask: null is refused; otherwise the first task with the same id is removed, the
        others keep their order, and nothing happens when no task has that id. Nothing else
        changes: no audit stamp, no domain event. */
    method RemoveTask(task: TodoTask?) returns (r: Outcome)
      modifies this`tasks
      ensures task == null ==> r == Fail(ArgumentNull("task")) && tasks == old(tasks)
      ensures task != null ==> r == Pass
      ensures task != null ==>
        var k := IndexOfId(old(tasks), task.base.id);
        && (k == |old(tasks)| ==> tasks == old(tasks))
        && (k < |old(tasks)| ==> tasks == Seqs.RemoveAt(old(tasks), k))
    {
      if task == null {
        return Fail(ArgumentNull("task"));
      }
      var k := IndexOfEqual(TaskKeys(tasks), task.Key());
      RemoveFindsFirstSameId(tasks, task);
      if k < |tasks| {
        tasks := Seqs.RemoveAt(tasks, k);
      }
      r := Pass;
    }
  }
}
