/** Values shared by every module: options, bytes, identifiers and the outcome of a call
    that may raise. */
module Basics {
  datatype Option<+T> = None | Some(value: T)

  /** The result of a call: a value, or the exception it raised. */
  datatype Result<+T, +E> = Ok(value: T) | Raised(error: E)
  {
    predicate IsFailure() {
      Raised?
    }

    function PropagateFailure<U>(): Result<U, E>
      requires Raised?
    {
      Raised(error)
    }

    function Extract(): T
      requires Ok?
    {
      value
    }
  }

  newtype byte = x: int | 0 <= x < 256

  type bytes = seq<byte>

  /** The sixteen bytes of a UUID. */
  type Uuid = b: bytes | |b| == 16 witness [0, 0, 0, 0, 0, 0, 0, 0, 0, 0, 0, 0, 0, 0, 0, 0]

  /** Python's `o or d` on an optional integer: absent and zero both give the default. */
  function OrElse(o: Option<int>, d: int): int {
    if o.Some? && o.value != 0 then o.value else d
  }

  /** Refused with e unless the condition holds; the next conditions come after it. */
  function Unless<E>(holds: bool, e: E, rest: Option<E>): Option<E> {
    if holds then rest else Some(e)
  }

  /** The outcome that the first condition to fail decides. */
  ghost predicate Decides<T, E>(refusal: Option<E>, r: Result<T, E>) {
    match refusal
    case None => r.Ok?
    case Some(e) => r == Raised(e)
  }

  function Min(a: int, b: int): int {
    if a <= b then a else b
  }

  function Max(a: int, b: int): int {
    if a >= b then a else b
  }

  ghost predicate Distinct<T>(s: seq<T>) {
    forall i, j :: 0 <= i < j < |s| ==> s[i] != s[j]
  }

  lemma {:induction false} Assoc<T>(a: seq<T>, b: seq<T>, c: seq<T>)
    ensures a + b + c == a + (b + c)
  {
  }

  lemma {:induction false} DistinctSnoc<T>(s: seq<T>, v: T)
    requires Distinct(s) && v !in s
    ensures Distinct(s + [v])
  {
  }

  lemma {:induction false} DistinctFront<T>(s: seq<T>)
    requires Distinct(s) && s != []
    ensures Distinct(s[..|s| - 1]) && s[|s| - 1] !in s[..|s| - 1]
  {
  }

  lemma {:induction false} Pick<T>(s: set<T>) returns (x: T)
    requires s != {}
    ensures x in s
  {
    x :| x in s;
  }
}
