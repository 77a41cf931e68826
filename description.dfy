/** The Description value object: optional trimmed text of bounded length; blank text is absent. */
module Descriptions {
  import opened Common
  import opened Text

  const DefaultMaxLength: Int32 := 2000

  /** A sealed record over (value, maxLength); value None is a null Value. */
  datatype Description = Description(value: Option<string>, maxLength: Int32)

  /** What every constructed Description satisfies: a present value is trimmed, non-empty and
      within the bound. */
  predicate WellFormed(d: Description)
  {
    && d.maxLength >= 0
    && (d.value.Some? ==> IsTrimmed(d.value.value) && 1 <= |d.value.value| <= d.maxLength)
  }

  /** new Description(value, maxLength). */
  function NewDescription(value: Option<string>, maxLength: Int32): (r: Result<Description>)
    ensures maxLength < 0 ==> r == Err(Argument("maxLength"))
    ensures maxLength >= 0 ==> (r.Ok? <==> value.None? || |Trim(value.value)| <= maxLength)
    ensures r.Err? && maxLength >= 0 ==> r.error == Argument("value")
    ensures r.Ok? ==> && r.value.maxLength == maxLength
                      && (r.value.value.None? <==> IsNullOrWhiteSpace(value))
                      && (r.value.value.Some? ==> r.value.value.value == Trim(value.value))
                      && WellFormed(r.value)
  {
    if maxLength < 0 then Err(Argument("maxLength"))
    else if value.None? then Ok(Description(None, maxLength))
    else
      var trimmed := Trim(value.value);
      TrimEmptyIffWhiteSpace(value.value);
      if trimmed == [] then Ok(Description(None, maxLength))
      else if |trimmed| > maxLength then Err(Argument("value"))
      else Ok(Description(Some(trimmed), maxLength))
  }

  /** Description.ForList: the default bound of 2000 (also what the implicit conversion uses). */
  function ForList(value: Option<string>): Result<Description>
  {
    NewDescription(value, DefaultMaxLength)
  }

  /** Description.ForTask: a bound of 500. */
  function ForTask(value: Option<string>): Result<Description>
  {
    NewDescription(value, 500)
  }

  /** The two bounds, at their edges: 501 characters fit a list description but not a task
      description, and 2000 / 2001 is the edge for a list description. */
  lemma ListAndTaskBounds()
    ensures ForList(Some(Letters(501))).Ok? && ForTask(Some(Letters(501))) == Err(Argument("value"))
    ensures ForTask(Some(Letters(500))).Ok?
    ensures ForList(Some(Letters(2000))).Ok? && ForList(Some(Letters(2001))) == Err(Argument("value"))
  {
    TrimOfTrimmed(Letters(500));
    TrimOfTrimmed(Letters(501));
    TrimOfTrimmed(Letters(2000));
    TrimOfTrimmed(Letters(2001));
  }

  /** Rebuilding a Description from its own value and bound gives the same Description:
      trimming is idempotent, and an absent value stays absent. */
  lemma RebuildFromValue(d: Description)
    requires WellFormed(d)
    ensures NewDescription(d.value, d.maxLength) == Ok(d)
  {
    if d.value.Some? {
      TrimOfTrimmed(d.value.value);
    }
  }

  /** The constructor is idempotent on its own output. */
  lemma ConstructIdempotent(value: Option<string>, maxLength: Int32)
    requires NewDescription(value, maxLength).Ok?
    ensures NewDescription(NewDescription(value, maxLength).value.value, maxLength) == NewDescription(value, maxLength)
  {
    RebuildFromValue(NewDescription(value, maxLength).value);
  }

  /** Description.IsEmpty: string.IsNullOrWhiteSpace(Value). */
  predicate IsEmpty(d: Description)
  {
    IsNullOrWhiteSpace(d.value)
  }

  /** On a constructed description, IsEmpty means exactly that the value is absent. */
  lemma IsEmptyIffAbsent(d: Description)
    requires WellFormed(d)
    ensures IsEmpty(d) <==> d.value.None?
  {
    if d.value.Some? {
      TrimOfTrimmed(d.value.value);
      TrimEmptyIffWhiteSpace(d.value.value);
    }
  }

  /** Blank input, null included, builds the empty description under any valid bound. */
  lemma BlankIsAbsent(value: Option<string>, maxLength: Int32)
    requires maxLength >= 0 && IsNullOrWhiteSpace(value)
    ensures NewDescription(value, maxLength) == Ok(Description(None, maxLength))
  {
    if value.Some? {
      TrimEmptyIffWhiteSpace(value.value);
    }
  }

  /** Description.IsValid as written: it ignores maxLength's own range. */
  predicate IsValidAsWritten(value: Option<string>, maxLength: Int32)
  {
    value.None? || |Trim(value.value)| <= maxLength
  }

  /** For every bound the constructor accepts, the written IsValid agrees with it. */
  lemma IsValidAsWrittenAgrees(value: Option<string>, maxLength: Int32)
    requires maxLength >= 0
    ensures IsValidAsWritten(value, maxLength) <==> NewDescription(value, maxLength).Ok?
  {
  }

  /** With a negative bound the written IsValid accepts null, while the constructor throws. */
  lemma IsValidAsWrittenDisagrees()
    ensures IsValidAsWritten(None, -1)
    ensures NewDescription(None, -1) == Err(Argument("maxLength"))
  {
  }

  /** IsValid with the bound checked as the constructor checks it. */
  predicate IsValid(value: Option<string>, maxLength: Int32)
  {
    maxLength >= 0 && (value.None? || |Trim(value.value)| <= maxLength)
  }

  /** The corrected IsValid says exactly whether the constructor succeeds, for every bound. */
  lemma IsValidIffConstructs(value: Option<string>, maxLength: Int32)
    ensures IsValid(value, maxLength) <==> NewDescription(value, maxLength).Ok?
    ensures maxLength >= 0 ==> (IsValid(value, maxLength) <==> IsValidAsWritten(value, maxLength))
  {
  }

  /** Description.Contains(searchText, ignoreCase): never true on an empty description. */
  predicate Contains(d: Description, searchText: string, ignoreCase: bool, fold: char -> char)
  {
    && !IsEmpty(d)
    && (if ignoreCase then ContainsIgnoreCase(d.value.value, searchText, fold)
        else Text.Contains(d.value.value, searchText))
  }

  /** The ordinal search on a present value is a substring test, and nothing is found in an
      absent one. */
  lemma ContainsOrdinal(d: Description, searchText: string, fold: char -> char)
    requires WellFormed(d)
    ensures d.value.None? ==> !Contains(d, searchText, false, fold) && !Contains(d, searchText, true, fold)
    ensures d.value.Some? ==>
      (Contains(d, searchText, false, fold) <==> exists i :: OccursAt(searchText, d.value.value, i))
  {
    IsEmptyIffAbsent(d);
    if d.value.Some? {
      ContainsIff(d.value.value, searchText);
    }
  }

  /** Description.GetWordCount: 0 when empty, otherwise the number of pieces between
      spaces, tabs, carriage returns and line feeds. */
  function GetWordCount(d: Description): nat
  {
    if IsEmpty(d) then 0 else WordCount(d.value.value)
  }

  /** Description.GetLineCount: 0 when empty, otherwise the number of non-empty '\n'-separated lines. */
  function GetLineCount(d: Description): nat
  {
    if IsEmpty(d) then 0 else LineCount(d.value.value)
  }

  /** The counts are the numbers of maximal runs of non-separators, at least one each when the
      description is present, and zero when it is absent. */
  lemma CountsAreRuns(d: Description)
    requires WellFormed(d)
    ensures d.value.None? ==> GetWordCount(d) == 0 && GetLineCount(d) == 0
    ensures d.value.Some? ==>
      && GetWordCount(d) == CountRuns(d.value.value, WordSeparators, false) >= 1
      && GetLineCount(d) == CountRuns(d.value.value, LineSeparators, false) >= 1
  {
    IsEmptyIffAbsent(d);
    if d.value.Some? {
      SplitCountsRuns(d.value.value, WordSeparators);
      SplitCountsRuns(d.value.value, LineSeparators);
      CountsOfTrimmedText(d.value.value);
    }
  }
}
