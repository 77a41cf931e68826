/** The Comment entity: trimmed text of at most 1000 characters left on a task by its author. */
module Comments {
  import opened Common
  import opened Text
  import opened AuditableEntities

  const ContentMaxLength: Int32 := 1000

  class Comment {
    const base: AuditableEntity
    var content: string
    var authorId: Guid
    var todoTaskId: Guid

    /** The content is always trimmed and at most 1000 characters long. */
    ghost predicate Valid()
      reads this
    {
      IsTrimmed(content) && |content| <= ContentMaxLength
    }

    /** The constructor's assignments, for content the checks have accepted. */
    constructor(id: Guid, content: string, todoTaskId: Guid, authorId: Guid, now: DateTime)
      requires |Trim(content)| <= ContentMaxLength
      ensures fresh(base) && base.id == id
      ensures this.content == Trim(content) && this.todoTaskId == todoTaskId && this.authorId == authorId
      ensures base.Info() == Created(Initial(now), authorId, now)
      ensures Valid()
    {
      base := new AuditableEntity(id, now);
      this.content := Trim(content);
      this.todoTaskId := todoTaskId;
      this.authorId := authorId;
      new;
      base.SetCreatedInfo(authorId, now);
    }

    /** new Comment(content, todoTaskId, authorId): null content is refused, as is content longer
        than 1000 characters once trimmed; blank content is accepted and stored as "". */
    static method New(id: Guid, content: Option<string>, todoTaskId: Guid, authorId: Guid, now: DateTime)
      returns (r: Result<Comment>)
      ensures content.None? ==> r == Err(ArgumentNull("content"))
      ensures content.Some? && |Trim(content.value)| > ContentMaxLength ==> r == Err(Argument("content"))
      ensures r.Ok? <==> content.Some? && |Trim(content.value)| <= ContentMaxLength
      ensures r.Ok? ==> fresh(r.value) && fresh(r.value.base) && r.value.Valid() && r.value.content == Trim(content.value)
      ensures r.Ok? ==> r.value.authorId == authorId && r.value.todoTaskId == todoTaskId
      ensures r.Ok? ==> r.value.base.id == id && r.value.base.Info() == Created(Initial(now), authorId, now)
      ensures r.Ok? ==> r.value.base.createdBy == authorId && !r.value.base.IsModified()
    {
      if content.None? {
        return Err(ArgumentNull("content"));
      }
      if |Trim(content.value)| > ContentMaxLength {
        return Err(Argument("content"));
      }
      var c := new Comment(id, content.value, todoTaskId, authorId, now);
      r := Ok(c);
    }

    /** UpdateContent: null and "" are refused (blank text is not), as is content longer than
        1000 characters once trimmed; a refused update changes nothing. Otherwise the trimmed
        content is stored and the update stamped; author and task stay. */
    method UpdateContent(content: Option<string>, updatedBy: Guid, now: DateTime) returns (r: Outcome)
      modifies this`content, base`updatedAt, base`updatedBy
      ensures content.None? ==> r == Fail(ArgumentNull("content"))
      ensures content == Some("") ==> r == Fail(Argument("content"))
      ensures r.Pass? <==> content.Some? && content.value != "" && |Trim(content.value)| <= ContentMaxLength
      ensures r.Fail? ==> unchanged(this) && unchanged(base)
      ensures r.Pass? ==> this.content == Trim(content.value) && base.Info() == Updated(old(base.Info()), updatedBy, now)
      ensures old(Valid()) ==> Valid()
    {
      if content.None? {
        return Fail(ArgumentNull("content"));
      }
      if content.value == "" {
        return Fail(Argument("content"));
      }
      if |Trim(content.value)| > ContentMaxLength {
        return Fail(Argument("content"));
      }
      this.content := Trim(content.value);
      base.SetUpdatedInfo(updatedBy, now);
      r := Pass;
    }
  }

  /** Blank text is accepted by both the constructor and UpdateContent and stored as "", while
      UpdateContent refuses the empty string itself. */
  method BlankContentScenario(id: Guid, task: Guid, author: Guid, now: DateTime)
    returns (created: Result<Comment>, blankUpdate: Outcome, emptyUpdate: Outcome, stored: string)
    ensures created.Ok?
    ensures blankUpdate == Pass && stored == ""
    ensures emptyUpdate == Fail(Argument("content"))
  {
    assert AllWhiteSpace("  ");
    TrimEmptyIffWhiteSpace("  ");
    TrimOfTrimmed("");
    created := Comment.New(id, Some(""), task, author, now);
    var c := created.value;
    blankUpdate := c.UpdateContent(Some("  "), author, now + 1);
    emptyUpdate := c.UpdateContent(Some(""), author, now + 2);
    stored := c.content;
  }
}
