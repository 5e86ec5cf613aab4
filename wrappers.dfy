/** Option and Result, the two failure-compatible wrappers the model uses:
    Option stands for a pandas cell that may be NaN, Result for an operation
    that may raise. */
module Wrappers {

  datatype Option<+T> = None | Some(value: T)

  datatype Result<+R, +E> = Success(value: R) | Failure(error: E) {

    predicate IsFailure() {
      Failure?
    }

    function PropagateFailure<U>(): Result<U, E>
      requires Failure?
    {
      Failure(error)
    }

    function Extract(): R
      requires Success?
    {
      value
    }
  }

  /** `dropna()`: the non-null cells of a column, in order. */
  function Present<T(==,!new)>(cells: seq<Option<T>>): (r: seq<T>)
    ensures |r| <= |cells|
    ensures forall v :: v in r <==> Some(v) in cells
  {
    if cells == [] then []
    else
      var front := Present(cells[..|cells| - 1]);
      var last := cells[|cells| - 1];
      assert cells == cells[..|cells| - 1] + [last];
      if last.Some? then front + [last.value] else front
  }

  // ---------------------------------------------------------------------
  // Means of nullable cells, shared by the rankings and the profiler

  /** `count()`: the number of non-null cells. */
  function Count(cells: seq<Option<real>>): nat {
    if cells == [] then 0 else Count(cells[1..]) + (if cells[0].Some? then 1 else 0)
  }

  function Sum(cells: seq<Option<real>>): real {
    if cells == [] then 0.0 else Sum(cells[1..]) + (if cells[0].Some? then cells[0].value else 0.0)
  }

  /** `mean(axis=1)` on one row: the mean of its non-null cells, null when
      every cell is null. */
  function MeanPresent(cells: seq<Option<real>>): (m: Option<real>)
    ensures m.None? <==> forall j :: 0 <= j < |cells| ==> cells[j].None?
  {
    CountZero(cells);
    if Count(cells) == 0 then None else Some(Sum(cells) / Count(cells) as real)
  }

  lemma {:induction false} CountZero(cells: seq<Option<real>>)
    ensures Count(cells) == 0 <==> forall j :: 0 <= j < |cells| ==> cells[j].None?
  {
    if cells != [] {
      CountZero(cells[1..]);
      assert forall j :: 1 <= j < |cells| ==> cells[j] == cells[1..][j - 1];
    }
  }

  lemma {:induction false} SumBounds(cells: seq<Option<real>>, lo: real, hi: real)
    requires forall j :: 0 <= j < |cells| && cells[j].Some? ==> lo <= cells[j].value <= hi
    ensures lo * Count(cells) as real <= Sum(cells) <= hi * Count(cells) as real
  {
    if cells != [] {
      assert forall j :: 0 <= j < |cells[1..]| ==> cells[1..][j] == cells[j + 1];
      SumBounds(cells[1..], lo, hi);
    }
  }

  /** The mean of cells lying in [lo, hi] lies in [lo, hi]. */
  lemma MeanBounds(cells: seq<Option<real>>, lo: real, hi: real)
    requires forall j :: 0 <= j < |cells| && cells[j].Some? ==> lo <= cells[j].value <= hi
    requires MeanPresent(cells).Some?
    ensures lo <= MeanPresent(cells).value <= hi
  {
    SumBounds(cells, lo, hi);
    QuotientBounds(Sum(cells), Count(cells) as real, lo, hi);
  }

  lemma QuotientBounds(s: real, n: real, lo: real, hi: real)
    requires n > 0.0 && lo * n <= s <= hi * n
    ensures lo <= s / n <= hi
  {
  }
}
