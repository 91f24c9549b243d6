/** Option, Result and sums over tables, shared by every module. */
module Prelude {

  datatype Option<+T> = None | Some(value: T)

  datatype Result<+T, +E> = Ok(value: T) | Err(error: E) {
    predicate IsFailure() {
      Err?
    }

    function PropagateFailure<U>(): Result<U, E>
      requires Err?
    {
      Err(error)
    }

    function Extract(): T
      requires Ok?
    {
      value
    }
  }

  function Min(a: int, b: int): int {
    if a <= b then a else b
  }

  function Max(a: int, b: int): int {
    if a >= b then a else b
  }

  /** The sum of `f` over the rows of a table, in insertion order. */
  function Sum<T>(rows: seq<T>, f: T -> int): int {
    if |rows| == 0 then 0 else Sum(rows[..|rows| - 1], f) + f(rows[|rows| - 1])
  }

  lemma SumAppend<T>(rows: seq<T>, row: T, f: T -> int)
    ensures Sum(rows + [row], f) == Sum(rows, f) + f(row)
  {
    assert (rows + [row])[..|rows|] == rows;
  }

  lemma SumAppend2<T>(rows: seq<T>, a: T, b: T, f: T -> int)
    ensures Sum(rows + [a, b], f) == Sum(rows, f) + f(a) + f(b)
  {
    assert rows + [a, b] == (rows + [a]) + [b];
    SumAppend(rows + [a], b, f);
    SumAppend(rows, a, f);
  }

  lemma {:induction false} SumUpdate<T>(rows: seq<T>, i: nat, row: T, f: T -> int)
    requires i < |rows|
    ensures Sum(rows[i := row], f) == Sum(rows, f) - f(rows[i]) + f(row)
  {
    var n := |rows| - 1;
    if i == n {
      assert rows[i := row][..n] == rows[..n];
    } else {
      assert rows[i := row][..n] == rows[..n][i := row];
      SumUpdate(rows[..n], i, row, f);
    }
  }

  /** Two functions that agree on every row have the same sum. */
  lemma {:induction false} SumSame<T>(rows: seq<T>, f: T -> int, g: T -> int)
    requires forall i :: 0 <= i < |rows| ==> f(rows[i]) == g(rows[i])
    ensures Sum(rows, f) == Sum(rows, g)
  {
    if |rows| > 0 {
      SumSame(rows[..|rows| - 1], f, g);
    }
  }

  lemma {:induction false} SumZero<T>(rows: seq<T>, f: T -> int)
    requires forall i :: 0 <= i < |rows| ==> f(rows[i]) == 0
    ensures Sum(rows, f) == 0
  {
    if |rows| > 0 {
      SumZero(rows[..|rows| - 1], f);
    }
  }

  lemma {:induction false} SumMonotone<T>(rows: seq<T>, f: T -> int, g: T -> int)
    requires forall i :: 0 <= i < |rows| ==> f(rows[i]) <= g(rows[i])
    ensures Sum(rows, f) <= Sum(rows, g)
  {
    if |rows| > 0 {
      SumMonotone(rows[..|rows| - 1], f, g);
    }
  }

  /** A sum of non-negative terms is at least each of its terms. */
  lemma {:induction false} SumAtLeast<T>(rows: seq<T>, k: nat, f: T -> int)
    requires k < |rows|
    requires forall i :: 0 <= i < |rows| ==> f(rows[i]) >= 0
    ensures Sum(rows, f) >= f(rows[k])
  {
    var n := |rows| - 1;
    if k == n {
      SumNonNegative(rows[..n], f);
    } else {
      SumAtLeast(rows[..n], k, f);
    }
  }

  lemma {:induction false} SumNonNegative<T>(rows: seq<T>, f: T -> int)
    requires forall i :: 0 <= i < |rows| ==> f(rows[i]) >= 0
    ensures Sum(rows, f) >= 0
  {
    if |rows| > 0 {
      SumNonNegative(rows[..|rows| - 1], f);
    }
  }

  lemma {:induction false} SumConcat<T>(a: seq<T>, b: seq<T>, f: T -> int)
    ensures Sum(a + b, f) == Sum(a, f) + Sum(b, f)
  {
    if |b| == 0 {
      assert a + b == a;
    } else {
      var n := |b| - 1;
      assert a + b == (a + b[..n]) + [b[n]];
      SumAppend(a + b[..n], b[n], f);
      SumConcat(a, b[..n], f);
    }
  }

  /** A sum with one term that is not zero. */
  lemma {:induction false} SingleTerm<T>(rows: seq<T>, k: nat, f: T -> int)
    requires k < |rows|
    requires forall i :: 0 <= i < |rows| && i != k ==> f(rows[i]) == 0
    ensures Sum(rows, f) == f(rows[k])
  {
    var n := |rows| - 1;
    if k == n {
      SumZero(rows[..n], f);
    } else {
      SingleTerm(rows[..n], k, f);
    }
  }

  /** Two tables with the same terms have the same sum. */
  lemma {:induction false} SumAlike<T>(a: seq<T>, b: seq<T>, f: T -> int)
    requires |a| == |b| && forall i :: 0 <= i < |a| ==> f(a[i]) == f(b[i])
    ensures Sum(a, f) == Sum(b, f)
  {
    if |a| > 0 {
      SumAlike(a[..|a| - 1], b[..|b| - 1], f);
    }
  }
}
