/** The Tag entity: a trimmed name of at most 50 characters owned by a user. */
module Tags {
  import opened Common
  import opened Text
  import opened AuditableEntities

  const NameMaxLength: Int32 := 50

  class Tag {
    const base: AuditableEntity
    var name: string
    var ownerId: Guid

    /** The name is always trimmed and at most 50 characters long. */
    ghost predicate Valid()
      reads this
    {
      IsTrimmed(name) && |name| <= NameMaxLength
    }

    /** The constructor's assignments, for a name the checks have accepted. */
    constructor(id: Guid, name: string, ownerId: Guid, now: DateTime)
      requires |Trim(name)| <= NameMaxLength
      ensures fresh(base) && base.id == id
      ensures this.name == Trim(name) && this.ownerId == ownerId
      ensures base.Info() == Created(Initial(now), ownerId, now)
      ensures Valid()
    {
      base := new AuditableEntity(id, now);
      this.name := Trim(name);
      this.ownerId := ownerId;
      new;
      base.SetCreatedInfo(ownerId, now);
    }

    /** new Tag(name, ownerId): null is refused, as is a name longer than 50 characters once
        trimmed; blank names are accepted and stored as "". */
    static method New(id: Guid, name: Option<string>, ownerId: Guid, now: DateTime) returns (r: Result<Tag>)
      ensures name.None? ==> r == Err(ArgumentNull("name"))
      ensures name.Some? && |Trim(name.value)| > NameMaxLength ==> r == Err(Argument("name"))
      ensures r.Ok? <==> name.Some? && |Trim(name.value)| <= NameMaxLength
      ensures r.Ok? ==> fresh(r.value) && fresh(r.value.base) && r.value.Valid() && r.value.name == Trim(name.value)
      ensures r.Ok? ==> r.value.ownerId == ownerId && r.value.base.createdBy == ownerId
      ensures r.Ok? ==> r.value.base.id == id && r.value.base.Info() == Created(Initial(now), ownerId, now)
      ensures r.Ok? ==> !r.value.base.IsModified()
    {
      if name.None? {
        return Err(ArgumentNull("name"));
      }
      if |Trim(name.value)| > NameMaxLength {
        return Err(Argument("name"));
      }
      var t := new Tag(id, name.value, ownerId, now);
      r := Ok(t);
    }

    /** UpdateName: the constructor's checks; a refused update changes nothing, an accepted one
        stores the trimmed name and stamps the update, and the owner stays. */
    method UpdateName(name: Option<string>, updatedBy: Guid, now: DateTime) returns (r: Outcome)
      modifies this`name, base`updatedAt, base`updatedBy
      ensures name.None? ==> r == Fail(ArgumentNull("name"))
      ensures r.Pass? <==> name.Some? && |Trim(name.value)| <= NameMaxLength
      ensures r.Fail? && name.Some? ==> r == Fail(Argument("name"))
      ensures r.Fail? ==> unchanged(this) && unchanged(base)
      ensures r.Pass? ==> this.name == Trim(name.value) && base.Info() == Updated(old(base.Info()), updatedBy, now)
      ensures old(Valid()) ==> Valid()
    {
      if name.None? {
        return Fail(ArgumentNull("name"));
      }
      if |Trim(name.value)| > NameMaxLength {
        return Fail(Argument("name"));
      }
      this.name := Trim(name.value);
      base.SetUpdatedInfo(updatedBy, now);
      r := Pass;
    }
  }
}
