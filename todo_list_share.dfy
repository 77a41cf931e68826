/** The TodoListShare entity: a user's access to a list, read-only or full. */
module TodoListShares {
  import opened Common
  import opened AuditableEntities

  /** The access a share grants. */
  datatype SharePermission = ReadOnly | FullAccess

  class TodoListShare {
    const base: AuditableEntity
    var todoListId: Guid
    var userId: Guid
    var permission: SharePermission

    /** new TodoListShare(todoListId, userId, permission, createdBy). */
    constructor(id: Guid, todoListId: Guid, userId: Guid, permission: SharePermission, createdBy: Guid, now: DateTime)
      ensures fresh(base) && base.id == id
      ensures this.todoListId == todoListId && this.userId == userId && this.permission == permission
      ensures base.Info() == Created(Initial(now), createdBy, now)
    {
      base := new AuditableEntity(id, now);
      this.todoListId := todoListId;
      this.userId := userId;
      this.permission := permission;
      new;
      base.SetCreatedInfo(createdBy, now);
    }

    /** ChangePermission: sets the permission and stamps the update; list and user stay. */
    method ChangePermission(permission: SharePermission, updatedBy: Guid, now: DateTime)
      modifies this`permission, base`updatedAt, base`updatedBy
      ensures this.permission == permission
      ensures base.Info() == Updated(old(base.Info()), updatedBy, now)
    {
      this.permission := permission;
      base.SetUpdatedInfo(updatedBy, now);
    }

    /** IsReadOnly. */
    predicate IsReadOnly()
      reads this
    {
      permission == ReadOnly
    }

    /** CanWrite. */
    predicate CanWrite()
      reads this
    {
      permission == FullAccess
    }
  }

  /** Exactly one of IsReadOnly and CanWrite holds on every share, and ChangePermission decides
      which. */
  lemma ReadOnlyXorWrite(s: TodoListShare)
    ensures s.IsReadOnly() <==> !s.CanWrite()
    ensures s.CanWrite() <==> s.permission == FullAccess
  {
  }
}
