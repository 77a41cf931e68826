/** AuditableEntity<Guid, Guid>: the entity base every domain entity derives from, holding the id
    and the audit stamps. */
module AuditableEntities {
  import opened Common
  import opened Entities

  /** The four audit fields as a value. CreatedBy and UpdatedBy are `TUserId?` over an
      unconstrained type parameter, which for Guid is a plain Guid defaulting to Guid.Empty. */
  datatype AuditInfo = AuditInfo(createdAt: DateTime, updatedAt: Option<DateTime>, createdBy: Guid, updatedBy: Guid)

  /** The audit fields of a newly allocated entity: CreatedAt from the clock, nothing else set. */
  function Initial(now: DateTime): AuditInfo
  {
    AuditInfo(now, None, EmptyGuid, EmptyGuid)
  }

  /** The effect of SetCreatedInfo(userId) at time now. */
  function Created(a: AuditInfo, userId: Guid, now: DateTime): AuditInfo
  {
    a.(createdAt := now, createdBy := userId)
  }

  /** The effect of SetUpdatedInfo(userId) at time now. */
  function Updated(a: AuditInfo, userId: Guid, now: DateTime): AuditInfo
  {
    a.(updatedAt := Some(now), updatedBy := userId)
  }

  /** IsModified: UpdatedAt is set. */
  predicate Modified(a: AuditInfo)
  {
    a.updatedAt.Some?
  }

  /** A fresh entity is unmodified; SetUpdatedInfo makes it modified; SetCreatedInfo leaves
      IsModified alone; each setter touches only its own two fields. */
  lemma ModifiedLaws(a: AuditInfo, userId: Guid, now: DateTime)
    ensures !Modified(Initial(now))
    ensures Modified(Updated(a, userId, now))
    ensures Modified(Created(a, userId, now)) == Modified(a)
    ensures Created(a, userId, now).updatedAt == a.updatedAt && Created(a, userId, now).updatedBy == a.updatedBy
    ensures Updated(a, userId, now).createdAt == a.createdAt && Updated(a, userId, now).createdBy == a.createdBy
  {
  }

  /** For a fixed user and instant both setters are idempotent; the two setters commute; and a
      second update overwrites the first. */
  lemma StampAlgebra(a: AuditInfo, u: Guid, v: Guid, now: DateTime, later: DateTime)
    ensures Created(Created(a, u, now), u, now) == Created(a, u, now)
    ensures Updated(Updated(a, u, now), u, now) == Updated(a, u, now)
    ensures Created(Updated(a, u, now), v, later) == Updated(Created(a, v, later), u, now)
    ensures Updated(Updated(a, u, now), v, later) == Updated(a, v, later)
  {
  }

  /** The base part of an entity object: its settable Id and its audit fields. */
  class AuditableEntity {
    var id: Guid
    var createdAt: DateTime
    var updatedAt: Option<DateTime>
    var createdBy: Guid
    var updatedBy: Guid

    /** The audit fields, as a value. */
    function Info(): AuditInfo
      reads this
    {
      AuditInfo(createdAt, updatedAt, createdBy, updatedBy)
    }

    /** The entity as BaseEntity's equality sees it, given the concrete class it belongs to.
        A Guid id is never null, so the entity is never transient. */
    function KeyAs(kind: Kind): (e: Entity<Guid>)
      reads this
      ensures e.ref == this && e.kind == kind && e.id == Some(id)
      ensures !IsTransient(e)
    {
      FromGuid(this, kind, id)
    }

    /** IsModified. */
    predicate IsModified()
      reads this
    {
      Modified(Info())
    }

    /** Allocation with a given id (the Guid.NewGuid of AuditableEntityGuid), CreatedAt from the clock. */
    constructor(id: Guid, now: DateTime)
      ensures this.id == id
      ensures Info() == Initial(now) && !IsModified()
    {
      this.id := id;
      createdAt := now;
      updatedAt := None;
      createdBy := EmptyGuid;
      updatedBy := EmptyGuid;
    }

    /** SetCreatedInfo(userId): CreatedAt := now, CreatedBy := userId, nothing else. */
    method SetCreatedInfo(userId: Guid, now: DateTime)
      modifies this`createdAt, this`createdBy
      ensures Info() == Created(old(Info()), userId, now)
      ensures IsModified() == old(IsModified())
    {
      createdAt := now;
      createdBy := userId;
    }

    /** SetUpdatedInfo(userId): UpdatedAt := now, UpdatedBy := userId, nothing else. */
    method SetUpdatedInfo(userId: Guid, now: DateTime)
      modifies this`updatedAt, this`updatedBy
      ensures Info() == Updated(old(Info()), userId, now)
      ensures IsModified()
    {
      updatedAt := Some(now);
      updatedBy := userId;
    }
  }

  /** Two entities of the same concrete class are equal exactly when their ids are equal:
      the same object has one id, and different objects are compared by id. */
  lemma SameClassEqualsIffSameId(a: AuditableEntity, b: AuditableEntity, kind: Kind)
    ensures Equals(a.KeyAs(kind), Some(b.KeyAs(kind))) <==> a.id == b.id
  {
  }

  /** Entities of different concrete classes are never equal, even with equal ids. */
  lemma DifferentClassesNeverEqual(a: AuditableEntity, b: AuditableEntity, ka: Kind, kb: Kind)
    requires a != b && ka != kb
    ensures !Equals(a.KeyAs(ka), Some(b.KeyAs(kb)))
  {
  }
}
