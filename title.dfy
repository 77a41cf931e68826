/** The Title value object: a trimmed, non-blank text of bounded length. */
module Titles {
  import opened Common
  import opened Text

  const DefaultMaxLength: Int32 := 200
  const DefaultMinLength: Int32 := 1

  /** A sealed record: equality is structural over (value, maxLength). */
  datatype Title = Title(value: string, maxLength: Int32)

  /** What every constructed Title satisfies. */
  predicate WellFormed(t: Title)
  {
    && t.maxLength >= DefaultMinLength
    && IsTrimmed(t.value)
    && DefaultMinLength <= |t.value| <= t.maxLength
  }

  /** new Title(value, maxLength). The checks run in the constructor's order: the bound first,
      then null, then blank text, then the trimmed length. */
  function NewTitle(value: Option<string>, maxLength: Int32): (r: Result<Title>)
    ensures maxLength < 1 ==> r == Err(ArgumentOutOfRange("maxLength"))
    ensures maxLength >= 1 && value.None? ==> r == Err(ArgumentNull("value"))
    ensures maxLength >= 1 && value.Some? && AllWhiteSpace(value.value) ==> r == Err(Argument("value"))
    ensures r.Ok? <==> maxLength >= 1 && value.Some? && 1 <= |Trim(value.value)| <= maxLength
    ensures r.Ok? ==> r.value == Title(Trim(value.value), maxLength) && WellFormed(r.value)
  {
    if maxLength < DefaultMinLength then Err(ArgumentOutOfRange("maxLength"))
    else if value.None? then Err(ArgumentNull("value"))
    else if IsNullOrWhiteSpace(value) then Err(Argument("value"))
    else
      var trimmed := Trim(value.value);
      if |trimmed| < DefaultMinLength || |trimmed| > maxLength then Err(ArgumentOutOfRange("value"))
      else Ok(Title(trimmed, maxLength))
  }

  /** Title.ForList: the default bound of 200 (also what the implicit conversion from string uses). */
  function ForList(value: Option<string>): Result<Title>
  {
    NewTitle(value, DefaultMaxLength)
  }

  /** Title.ForTask: a bound of 100. */
  function ForTask(value: Option<string>): Result<Title>
  {
    NewTitle(value, 100)
  }

  /** Title.IsValid. */
  predicate IsValid(value: Option<string>, maxLength: Int32)
  {
    if maxLength < DefaultMinLength then false
    else if IsNullOrWhiteSpace(value) then false
    else
      var trimmed := Trim(value.value);
      DefaultMinLength <= |trimmed| <= maxLength
  }

  /** IsValid says exactly whether the constructor succeeds. */
  lemma IsValidIffConstructs(value: Option<string>, maxLength: Int32)
    ensures IsValid(value, maxLength) <==> NewTitle(value, maxLength).Ok?
  {
    if value.Some? {
      TrimEmptyIffWhiteSpace(value.value);
    }
  }

  /** The trimmed length decides: a non-null value is accepted exactly when it has between 1 and
      maxLength characters once trimmed, and blank text is never accepted. */
  lemma AcceptedIffTrimmedLengthInRange(value: string, maxLength: Int32)
    requires maxLength >= 1
    ensures NewTitle(Some(value), maxLength).Ok? <==> !AllWhiteSpace(value) && |Trim(value)| <= maxLength
  {
    TrimEmptyIffWhiteSpace(value);
  }

  /** Rebuilding a Title from its own value and bound gives the same Title: trimming is idempotent. */
  lemma RebuildFromValue(t: Title)
    requires WellFormed(t)
    ensures NewTitle(Some(t.value), t.maxLength) == Ok(t)
  {
    TrimOfTrimmed(t.value);
  }

  /** The constructor is idempotent on its own output. */
  lemma ConstructIdempotent(value: Option<string>, maxLength: Int32)
    requires NewTitle(value, maxLength).Ok?
    ensures NewTitle(Some(NewTitle(value, maxLength).value.value), maxLength) == NewTitle(value, maxLength)
  {
    RebuildFromValue(NewTitle(value, maxLength).value);
  }

  /** The two bounds, at their edges: 101 characters fit a list title but not a task title,
      and 200 / 201 is the edge for a list title. */
  lemma ListAndTaskBounds()
    ensures ForList(Some(Letters(101))).Ok? && ForTask(Some(Letters(101))) == Err(ArgumentOutOfRange("value"))
    ensures ForTask(Some(Letters(100))).Ok?
    ensures ForList(Some(Letters(200))).Ok? && ForList(Some(Letters(201))) == Err(ArgumentOutOfRange("value"))
  {
    TrimOfTrimmed(Letters(100));
    TrimOfTrimmed(Letters(101));
    TrimOfTrimmed(Letters(200));
    TrimOfTrimmed(Letters(201));
  }

  /** Title.Contains(searchText, ignoreCase). The case-insensitive comparison is made through the
      invariant case mapping `fold`. */
  predicate Contains(t: Title, searchText: string, ignoreCase: bool, fold: char -> char)
  {
    if ignoreCase then ContainsIgnoreCase(t.value, searchText, fold) else Text.Contains(t.value, searchText)
  }

  /** The ordinal search is a substring test on the value, and whatever it finds, the
      case-insensitive search finds as well. */
  lemma ContainsOrdinal(t: Title, searchText: string, fold: char -> char)
    ensures Contains(t, searchText, false, fold) <==> exists i :: OccursAt(searchText, t.value, i)
    ensures Contains(t, searchText, false, fold) ==> Contains(t, searchText, true, fold)
  {
    ContainsIff(t.value, searchText);
    if Text.Contains(t.value, searchText) {
      OrdinalImpliesIgnoreCase(t.value, searchText, fold);
    }
  }
}
