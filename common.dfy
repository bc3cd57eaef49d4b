/** Outcomes of the modelled Python code and the small pieces of real
    arithmetic that the other modules share. */
module Common {

  /** The exceptions the modelled functions raise, plus the one case where
      numpy quietly produces NaN values instead of raising. */
  datatype PyError =
    | ValueError(message: string)
    | ZeroDivisionError
    | LinAlgError(message: string)
    | KeyError(key: string)
    | UnboundLocalError(name: string)
    | NotANumber

  datatype Option<+T> = None | Some(value: T)

  /** A Python call either returns a value or raises. */
  datatype Result<+T> = Success(value: T) | Failure(error: PyError) {
    predicate IsFailure() { Failure? }
    function PropagateFailure<U>(): Result<U> requires Failure? { Failure(error) }
    function Extract(): T requires Success? { value }
  }

  /** np.sum over a vector of reals. */
  function Sum(s: seq<real>): real
  {
    if s == [] then 0.0 else s[0] + Sum(s[1..])
  }

  lemma SumCons(h: real, t: seq<real>)
    ensures Sum([h] + t) == h + Sum(t)
  {
    assert ([h] + t)[1..] == t;
  }

  /** Inner product of two vectors of equal length. */
  function Dot(a: seq<real>, b: seq<real>): real
    requires |a| == |b|
  {
    if a == [] then 0.0 else a[0] * b[0] + Dot(a[1..], b[1..])
  }

  /** Sum of the squares of the entries, np.sum(x**2). */
  function SumSquares(s: seq<real>): real
  {
    if s == [] then 0.0 else s[0] * s[0] + SumSquares(s[1..])
  }

  lemma {:induction false} SumSquaresNonnegative(s: seq<real>)
    ensures 0.0 <= SumSquares(s)
  {
    if s != [] {
      SumSquaresNonnegative(s[1..]);
    }
  }

  /** Every single square is at most the sum of squares. */
  lemma {:induction false} SumSquaresAtLeast(s: seq<real>, k: nat)
    requires k < |s|
    ensures s[k] * s[k] <= SumSquares(s)
  {
    if k == 0 {
      SumSquaresNonnegative(s[1..]);
    } else {
      SumSquaresAtLeast(s[1..], k - 1);
    }
  }

  lemma {:induction false} SumNonnegative(s: seq<real>)
    requires forall i :: 0 <= i < |s| ==> 0.0 <= s[i]
    ensures 0.0 <= Sum(s)
  {
    if s != [] {
      SumNonnegative(s[1..]);
    }
  }

  /** Number of positions of `s` holding `x` (np.sum(x == s)). */
  function Count<T(==)>(s: seq<T>, x: T): nat
  {
    if s == [] then 0 else (if s[0] == x then 1 else 0) + Count(s[1..], x)
  }

  lemma {:induction false} CountPositive<T>(s: seq<T>, x: T)
    requires x in s
    ensures 1 <= Count(s, x)
  {
    if s[0] != x {
      CountPositive(s[1..], x);
    }
  }

  /** Sum of a sequence of naturals, as np.sum over an integer array. */
  function NatSum(s: seq<nat>): nat
  {
    if s == [] then 0 else s[0] + NatSum(s[1..])
  }
}
