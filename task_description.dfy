/** The TaskDescription value object: trimmed text of at most 2000 characters, "" when absent. */
module TaskDescriptions {
  import opened Common
  import opened Text

  const MaxLength: Int32 := 2000

  /** A sealed record over its value, which is never null. */
  datatype TaskDescription = TaskDescription(value: string)

  /** What every constructed TaskDescription satisfies. */
  predicate WellFormed(d: TaskDescription)
  {
    IsTrimmed(d.value) && |d.value| <= MaxLength
  }

  /** new TaskDescription(value): null becomes "", anything else is trimmed and bounded. */
  function NewTaskDescription(value: Option<string>): (r: Result<TaskDescription>)
    ensures value.None? ==> r == Ok(TaskDescription(""))
    ensures r.Ok? <==> value.None? || |Trim(value.value)| <= MaxLength
    ensures r.Err? ==> r.error == Argument("value")
    ensures r.Ok? && value.Some? ==> r.value.value == Trim(value.value)
    ensures r.Ok? ==> WellFormed(r.value)
  {
    if value.None? then Ok(TaskDescription(""))
    else
      var trimmed := Trim(value.value);
      if |trimmed| > MaxLength then Err(Argument("value"))
      else Ok(TaskDescription(trimmed))
  }

  /** TaskDescription.IsEmpty: string.IsNullOrWhiteSpace(Value). */
  predicate IsEmpty(d: TaskDescription)
  {
    AllWhiteSpace(d.value)
  }

  /** On a constructed description, IsEmpty means exactly that the value is "";
      blank input gives "", not an absent value. */
  lemma IsEmptyIffBlank(d: TaskDescription, value: string)
    requires WellFormed(d)
    ensures IsEmpty(d) <==> d.value == ""
    ensures AllWhiteSpace(value) ==> NewTaskDescription(Some(value)) == Ok(TaskDescription(""))
  {
    TrimOfTrimmed(d.value);
    TrimEmptyIffWhiteSpace(d.value);
    TrimEmptyIffWhiteSpace(value);
  }

  /** TaskDescription.IsValid. */
  predicate IsValid(value: Option<string>)
  {
    value.None? || |Trim(value.value)| <= MaxLength
  }

  /** IsValid says exactly whether the constructor succeeds. */
  lemma IsValidIffConstructs(value: Option<string>)
    ensures IsValid(value) <==> NewTaskDescription(value).Ok?
  {
  }

  /** TaskDescription.Contains(searchText, ignoreCase): never true on an empty description. */
  predicate Contains(d: TaskDescription, searchText: string, ignoreCase: bool, fold: char -> char)
  {
    && !IsEmpty(d)
    && (if ignoreCase then ContainsIgnoreCase(d.value, searchText, fold) else Text.Contains(d.value, searchText))
  }

  /** On a non-empty description the ordinal search is a substring test, and its hits are
      hits of the case-insensitive search as well. */
  lemma ContainsOrdinal(d: TaskDescription, searchText: string, fold: char -> char)
    requires WellFormed(d) && d.value != ""
    ensures Contains(d, searchText, false, fold) <==> exists i :: OccursAt(searchText, d.value, i)
    ensures Contains(d, searchText, false, fold) ==> Contains(d, searchText, true, fold)
  {
    IsEmptyIffBlank(d, d.value);
    ContainsIff(d.value, searchText);
    if Text.Contains(d.value, searchText) {
      OrdinalImpliesIgnoreCase(d.value, searchText, fold);
    }
  }

  /** TaskDescription.GetWordCount. */
  function GetWordCount(d: TaskDescription): nat
  {
    if IsEmpty(d) then 0 else WordCount(d.value)
  }

  /** TaskDescription.GetLineCount. */
  function GetLineCount(d: TaskDescription): nat
  {
    if IsEmpty(d) then 0 else LineCount(d.value)
  }

  /** The counts are 0 on "", and otherwise the numbers of maximal runs of non-separators,
      at least one each. */
  lemma CountsAreRuns(d: TaskDescription)
    requires WellFormed(d)
    ensures d.value == "" ==> GetWordCount(d) == 0 && GetLineCount(d) == 0
    ensures d.value != "" ==>
      && GetWordCount(d) == CountRuns(d.value, WordSeparators, false) >= 1
      && GetLineCount(d) == CountRuns(d.value, LineSeparators, false) >= 1
  {
    IsEmptyIffBlank(d, d.value);
    if d.value != "" {
      SplitCountsRuns(d.value, WordSeparators);
      SplitCountsRuns(d.value, LineSeparators);
      CountsOfTrimmedText(d.value);
    }
  }
}
