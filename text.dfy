/** The .NET string operations the value objects rely on: Char.IsWhiteSpace, String.Trim,
    String.IsNullOrWhiteSpace, String.Split with RemoveEmptyEntries and ordinal String.Contains. */
module Text {
  import opened Common

  /** Char.IsWhiteSpace: the Unicode space, line and paragraph separators, U+0009 to U+000D and U+0085. */
  predicate IsWhiteSpace(c: char)
  {
    ('\t' <= c <= '\r') || c == ' ' || c == '\U{0085}' || c == '\U{00A0}' || c == '\U{1680}'
    || ('\U{2000}' <= c <= '\U{200A}') || c == '\U{2028}' || c == '\U{2029}' || c == '\U{202F}'
    || c == '\U{205F}' || c == '\U{3000}'
  }

  predicate AllWhiteSpace(s: string)
  {
    forall i :: 0 <= i < |s| ==> IsWhiteSpace(s[i])
  }

  /** String.IsNullOrWhiteSpace. */
  predicate IsNullOrWhiteSpace(s: Option<string>)
  {
    s.None? || AllWhiteSpace(s.value)
  }

  /** String.IsNullOrEmpty. */
  predicate IsNullOrEmpty(s: Option<string>)
  {
    s.None? || s.value == []
  }

  /** A string with no white space at either end. */
  predicate IsTrimmed(s: string)
  {
    s == [] || (!IsWhiteSpace(s[0]) && !IsWhiteSpace(s[|s| - 1]))
  }

  /** Where the text starts: the first index at or after `from` that is not white space, or |s|. */
  function TrimStartIndex(s: string, from: nat): (lo: nat)
    requires from <= |s|
    ensures from <= lo <= |s|
    ensures forall i :: from <= i < lo ==> IsWhiteSpace(s[i])
    ensures lo < |s| ==> !IsWhiteSpace(s[lo])
    decreases |s| - from
  {
    if from < |s| && IsWhiteSpace(s[from]) then TrimStartIndex(s, from + 1) else from
  }

  /** Where the text ends: the least hi in [lo, upTo] such that s[hi..upTo] is all white space. */
  function TrimEndIndex(s: string, lo: nat, upTo: nat): (hi: nat)
    requires lo <= upTo <= |s|
    ensures lo <= hi <= upTo
    ensures forall i :: hi <= i < upTo ==> IsWhiteSpace(s[i])
    ensures lo < hi ==> !IsWhiteSpace(s[hi - 1])
    decreases upTo
  {
    if lo < upTo && IsWhiteSpace(s[upTo - 1]) then TrimEndIndex(s, lo, upTo - 1) else upTo
  }

  /** String.Trim(): the middle s[lo..hi] left after dropping white space at both ends;
      it has no white space at either end, and everything outside it is white space. */
  function Trim(s: string): (r: string)
    ensures IsTrimmed(r)
    ensures |r| <= |s|
    ensures var lo := TrimStartIndex(s, 0); var hi := TrimEndIndex(s, lo, |s|);
      && r == s[lo..hi]
      && (forall i :: 0 <= i < lo ==> IsWhiteSpace(s[i]))
      && (forall i :: hi <= i < |s| ==> IsWhiteSpace(s[i]))
  {
    var lo := TrimStartIndex(s, 0);
    var hi := TrimEndIndex(s, lo, |s|);
    s[lo..hi]
  }

  /** Trim is the only way to cut s into white space, a trimmed middle, and white space:
      any such cut yields Trim(s). */
  lemma TrimUnique(s: string, lo: nat, hi: nat)
    requires lo <= hi <= |s|
    requires IsTrimmed(s[lo..hi])
    requires forall i :: 0 <= i < lo ==> IsWhiteSpace(s[i])
    requires forall i :: hi <= i < |s| ==> IsWhiteSpace(s[i])
    requires lo == hi ==> lo == 0
    ensures Trim(s) == s[lo..hi]
  {
    var a := TrimStartIndex(s, 0);
    if lo < hi {
      assert s[lo..hi][0] == s[lo] && s[lo..hi][hi - lo - 1] == s[hi - 1];
      assert a == lo;
    } else {
      TrimOfWhiteSpace(s);
    }
  }

  /** Trimming text that is all white space leaves nothing. */
  lemma TrimOfWhiteSpace(s: string)
    requires AllWhiteSpace(s)
    ensures Trim(s) == []
  {
  }

  /** Trimming leaves nothing exactly when the text is all white space, which is
      what String.IsNullOrWhiteSpace tests on a non-null string. */
  lemma {:induction false} TrimEmptyIffWhiteSpace(s: string)
    ensures Trim(s) == [] <==> AllWhiteSpace(s)
    ensures !IsNullOrWhiteSpace(Some(s)) <==> |Trim(s)| >= 1
  {
    if AllWhiteSpace(s) {
      TrimOfWhiteSpace(s);
    } else {
      var k :| 0 <= k < |s| && !IsWhiteSpace(s[k]);
    }
  }

  /** Trimming a trimmed string changes nothing; in particular Trim is idempotent. */
  lemma TrimOfTrimmed(s: string)
    requires IsTrimmed(s)
    ensures Trim(s) == s
  {
    TrimUnique(s, 0, |s|);
  }

  lemma TrimIdempotent(s: string)
    ensures Trim(Trim(s)) == Trim(s)
  {
    TrimOfTrimmed(Trim(s));
  }

  /** n copies of the letter 'a': a trimmed text of any length. */
  function Letters(n: nat): (s: string)
    ensures |s| == n && IsTrimmed(s)
  {
    seq(n, _ => 'a')
  }

  // ----- String.Split(separators, StringSplitOptions.RemoveEmptyEntries) -----

  /** The length of the longest prefix of s that holds no separator. */
  function RunLength(s: string, seps: set<char>): (n: nat)
    ensures n <= |s|
    ensures forall i :: 0 <= i < n ==> s[i] !in seps
    ensures n < |s| ==> s[n] in seps
  {
    if s == [] || s[0] in seps then 0 else 1 + RunLength(s[1..], seps)
  }

  /** The non-empty pieces of s between separators, in order. */
  function Split(s: string, seps: set<char>): (parts: seq<string>)
    ensures forall k :: 0 <= k < |parts| ==> |parts[k]| > 0
    ensures forall k, i :: 0 <= k < |parts| && 0 <= i < |parts[k]| ==> parts[k][i] !in seps
    decreases |s|
  {
    if s == [] then []
    else if s[0] in seps then Split(s[1..], seps)
    else
      var n := RunLength(s, seps);
      [s[..n]] + Split(s[n..], seps)
  }

  /** A left-to-right scan that counts the maximal runs of non-separator characters:
      one for every non-separator that does not continue a run. */
  function CountRuns(s: string, seps: set<char>, inRun: bool): nat
  {
    if s == [] then 0
    else if s[0] in seps then CountRuns(s[1..], seps, false)
    else (if inRun then 0 else 1) + CountRuns(s[1..], seps, true)
  }

  /** Inside a run, the scan counts nothing until the run ends. */
  lemma {:induction false} CountRunsInsideRun(s: string, seps: set<char>, k: nat)
    requires k <= RunLength(s, seps)
    ensures CountRuns(s[k..], seps, true) == CountRuns(s[RunLength(s, seps)..], seps, true)
    decreases RunLength(s, seps) - k
  {
    var n := RunLength(s, seps);
    if k < n {
      assert s[k..][1..] == s[k + 1..];
      CountRunsInsideRun(s, seps, k + 1);
    }
  }

  /** Split with RemoveEmptyEntries yields exactly one piece per maximal run of non-separators. */
  lemma {:induction false} SplitCountsRuns(s: string, seps: set<char>)
    ensures |Split(s, seps)| == CountRuns(s, seps, false)
    decreases |s|
  {
    if s == [] {
    } else if s[0] in seps {
      SplitCountsRuns(s[1..], seps);
    } else {
      var n := RunLength(s, seps);
      SplitCountsRuns(s[n..], seps);
      CountRunsInsideRun(s, seps, 1);
      assert s[1..] == s[1..][0..];
      var rest := s[n..];
      assert rest == [] || rest[0] in seps;
    }
  }

  /** Split yields no piece exactly when s holds separators only. */
  lemma {:induction false} SplitEmptyIff(s: string, seps: set<char>)
    ensures Split(s, seps) == [] <==> forall i :: 0 <= i < |s| ==> s[i] in seps
    decreases |s|
  {
    if s != [] && s[0] in seps {
      SplitEmptyIff(s[1..], seps);
      assert forall i :: 1 <= i < |s| ==> s[i] == s[1..][i - 1];
    }
  }

  /** The separators Description.GetWordCount splits on. */
  const WordSeparators: set<char> := {' ', '\t', '\n', '\r'}

  /** The separator Description.GetLineCount splits on. */
  const LineSeparators: set<char> := {'\n'}

  /** Number of words: pieces between spaces, tabs and line breaks. */
  function WordCount(s: string): nat
  {
    |Split(s, WordSeparators)|
  }

  /** Number of non-empty lines: pieces between '\n'; a '\r' is part of a line. */
  function LineCount(s: string): nat
  {
    |Split(s, LineSeparators)|
  }

  /** Trimmed, non-empty text has at least one word and at least one line, because
      both separator sets are white space and the first character is not. */
  lemma CountsOfTrimmedText(s: string)
    requires IsTrimmed(s) && s != []
    ensures WordCount(s) >= 1 && LineCount(s) >= 1
  {
    SplitEmptyIff(s, WordSeparators);
    SplitEmptyIff(s, LineSeparators);
  }

  // ----- ordinal String.IndexOf / String.Contains -----

  /** t occurs in s at position i. */
  predicate OccursAt(t: string, s: string, i: int)
  {
    0 <= i && i + |t| <= |s| && s[i..i + |t|] == t
  }

  /** The first position at or after `from` where t occurs in s, or -1. */
  function IndexOfFrom(s: string, t: string, from: nat): (r: int)
    ensures r == -1 || (from <= r && OccursAt(t, s, r))
    ensures forall j :: from <= j && (r == -1 || j < r) ==> !OccursAt(t, s, j)
    decreases |s| - from
  {
    if from + |t| > |s| then -1
    else if s[from..from + |t|] == t then from
    else IndexOfFrom(s, t, from + 1)
  }

  /** String.IndexOf(t, StringComparison.Ordinal). */
  function IndexOf(s: string, t: string): int
  {
    IndexOfFrom(s, t, 0)
  }

  /** String.Contains(t, StringComparison.Ordinal). */
  predicate Contains(s: string, t: string)
  {
    IndexOf(s, t) >= 0
  }

  /** Ordinal containment is the existence of an occurrence. */
  lemma ContainsIff(s: string, t: string)
    ensures Contains(s, t) <==> exists i :: OccursAt(t, s, i)
  {
    if !Contains(s, t) {
      assert forall j :: 0 <= j ==> !OccursAt(t, s, j);
    }
  }

  /** A string mapped character by character through a case mapping. */
  function Fold(s: string, fold: char -> char): (r: string)
    ensures |r| == |s| && forall i :: 0 <= i < |s| ==> r[i] == fold(s[i])
  {
    seq(|s|, i requires 0 <= i < |s| => fold(s[i]))
  }

  /** String.Contains(t, StringComparison.OrdinalIgnoreCase): both sides are compared after
      mapping every character through the invariant case mapping, supplied as `fold`. */
  predicate ContainsIgnoreCase(s: string, t: string, fold: char -> char)
  {
    Contains(Fold(s, fold), Fold(t, fold))
  }

  /** What an ordinal search finds, a case-insensitive search finds too, whatever the mapping. */
  lemma OrdinalImpliesIgnoreCase(s: string, t: string, fold: char -> char)
    requires Contains(s, t)
    ensures ContainsIgnoreCase(s, t, fold)
  {
    ContainsIff(s, t);
    var i :| OccursAt(t, s, i);
    var fs, ft := Fold(s, fold), Fold(t, fold);
    assert fs[i..i + |ft|] == ft;
    assert OccursAt(ft, fs, i);
    ContainsIff(fs, ft);
  }
}
