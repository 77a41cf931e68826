/** Shared vocabulary of the domain core: nullable values, failures, ids and instants. */
module Common {
  import opened TaskStatuses

  /** A value that may be absent; None stands for a C# null. */
  datatype Option<+T> = None | Some(value: T)

  /** The exceptions the domain core throws, by kind and by the parameter they name. */
  datatype Error =
    | ArgumentNull(paramName: string)           // ArgumentNullException
    | ArgumentOutOfRange(paramName: string)     // ArgumentOutOfRangeException
    | Argument(paramName: string)               // ArgumentException
    | InvalidStatusTransition(current: TaskStatus, requested: TaskStatus)  // InvalidOperationException

  /** The outcome of an operation that returns a value or throws. */
  datatype Result<+T> = Ok(value: T) | Err(error: Error)

  /** The outcome of an operation that returns nothing or throws. */
  datatype Outcome = Pass | Fail(error: Error)

  /** A System.Guid: 128 bits. */
  type Guid = bv128

  /** Guid.Empty, the default value of a Guid. */
  const EmptyGuid: Guid := 0

  /** A DateTime, as its tick count. */
  type DateTime = int

  const MinInt32: int := -0x8000_0000
  const MaxInt32: int := 0x7FFF_FFFF

  /** A C# int. */
  type Int32 = x: int | MinInt32 <= x <= MaxInt32

  /** Unchecked narrowing of an integer to a C# int (two's-complement wrap-around). */
  function Wrap32(x: int): (r: Int32)
    ensures MinInt32 <= x <= MaxInt32 ==> r == x
    ensures (r - x) % 0x1_0000_0000 == 0
  {
    (x - MinInt32) % 0x1_0000_0000 + MinInt32
  }
}

/** Positional helpers over sequences, in the sense of List<T>.IndexOf and List<T>.Remove. */
module Seqs {

  /** The first index of x in s, or |s| when x does not occur. */
  function IndexOf<T(==)>(s: seq<T>, x: T): (k: nat)
    ensures k <= |s|
    ensures k < |s| ==> s[k] == x
    ensures forall i :: 0 <= i < k ==> s[i] != x
  {
    if s == [] then 0
    else if s[0] == x then 0
    else 1 + IndexOf(s[1..], x)
  }

  /** s without its k-th element. */
  function RemoveAt<T>(s: seq<T>, k: nat): (r: seq<T>)
    requires k < |s|
    ensures |r| == |s| - 1
    ensures forall i :: 0 <= i < k ==> r[i] == s[i]
    ensures forall i :: k <= i < |r| ==> r[i] == s[i + 1]
  {
    s[..k] + s[k + 1..]
  }

  /** List<T>.Remove: drop the first occurrence of x, if there is one. */
  function RemoveFirst<T(==)>(s: seq<T>, x: T): seq<T>
  {
    var k := IndexOf(s, x);
    if k < |s| then RemoveAt(s, k) else s
  }

  /** Removing the first occurrence takes exactly one copy of x out of the multiset of elements,
      and leaves the sequence alone when x is absent. */
  lemma {:induction false} RemoveFirstMultiset<T>(s: seq<T>, x: T)
    ensures x !in s ==> RemoveFirst(s, x) == s
    ensures x in s ==> |RemoveFirst(s, x)| == |s| - 1
    ensures multiset(RemoveFirst(s, x)) == multiset(s) - multiset{x}
  {
    var k := IndexOf(s, x);
    if k < |s| {
      assert s == s[..k] + [x] + s[k + 1..];
      calc {
        multiset(s);
        multiset(s[..k]) + multiset{x} + multiset(s[k + 1..]);
        multiset(RemoveAt(s, k)) + multiset{x};
      }
    } else {
      assert x !in s;
    }
  }
}
