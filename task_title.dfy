/** The TaskTitle value object: a trimmed, non-blank task title of at most 200 characters. */
module TaskTitles {
  import opened Common
  import opened Text

  const MaxLength: Int32 := 200
  const MinLength: Int32 := 1

  /** A sealed record over its value. */
  datatype TaskTitle = TaskTitle(value: string)

  /** new TaskTitle(value). */
  function NewTaskTitle(value: Option<string>): (r: Result<TaskTitle>)
    ensures IsNullOrWhiteSpace(value) ==> r == Err(Argument("value"))
    ensures r.Err? ==> r.error == Argument("value")
    ensures r.Ok? <==> !IsNullOrWhiteSpace(value) && MinLength <= |Trim(value.value)| <= MaxLength
    ensures r.Ok? ==> r.value.value == Trim(value.value) && IsTrimmed(r.value.value)
  {
    if IsNullOrWhiteSpace(value) then Err(Argument("value"))
    else
      var trimmed := Trim(value.value);
      if |trimmed| < MinLength then Err(Argument("value"))
      else if |trimmed| > MaxLength then Err(Argument("value"))
      else Ok(TaskTitle(trimmed))
  }

  /** The minimum-length check can never fire: once blank text is refused, the trimmed value has
      at least one character, so acceptance depends on the upper bound alone. */
  lemma MinLengthCheckUnreachable(value: Option<string>)
    ensures !IsNullOrWhiteSpace(value) ==> |Trim(value.value)| >= MinLength
    ensures NewTaskTitle(value).Ok? <==> !IsNullOrWhiteSpace(value) && |Trim(value.value)| <= MaxLength
  {
    if value.Some? {
      TrimEmptyIffWhiteSpace(value.value);
    }
  }

  /** TaskTitle.IsValid. */
  predicate IsValid(value: Option<string>)
  {
    if IsNullOrWhiteSpace(value) then false
    else
      var trimmed := Trim(value.value);
      MinLength <= |trimmed| <= MaxLength
  }

  /** IsValid says exactly whether the constructor succeeds. */
  lemma IsValidIffConstructs(value: Option<string>)
    ensures IsValid(value) <==> NewTaskTitle(value).Ok?
  {
  }

  /** Rebuilding a TaskTitle from its own value gives it back. */
  lemma RebuildFromValue(value: Option<string>)
    requires NewTaskTitle(value).Ok?
    ensures NewTaskTitle(Some(NewTaskTitle(value).value.value)) == NewTaskTitle(value)
  {
    var t := NewTaskTitle(value).value.value;
    TrimOfTrimmed(t);
    MinLengthCheckUnreachable(value);
    TrimEmptyIffWhiteSpace(t);
  }
}
