/** The per-column statistics of the profiler (explore_util.py): null, sign
    and empty counts as percentages of the row count, distinct values,
    extremes, the mean and sum of a numeric column, and the string-length
    bounds of a text column. */
module ColumnStats {
  import opened Wrappers
  import opened Order

  // ---------------------------------------------------------------------
  // Counting cells

  /** `isna().sum()` */
  function Nulls<T>(cells: seq<Option<T>>): nat {
    if cells == [] then 0 else (if cells[0].None? then 1 else 0) + Nulls(cells[1..])
  }

  lemma {:induction false} PresentCons<T(!new)>(x: Option<T>, rest: seq<Option<T>>)
    ensures Present([x] + rest) == (if x.Some? then [x.value] else []) + Present(rest)
    decreases |rest|
  {
    var cells := [x] + rest;
    if rest != [] {
      assert cells[..|cells| - 1] == [x] + rest[..|rest| - 1];
      PresentCons(x, rest[..|rest| - 1]);
    }
  }

  /** Every cell is either null or one of the non-null values. */
  lemma {:induction false} PresentAndNulls<T(!new)>(cells: seq<Option<T>>)
    ensures |Present(cells)| + Nulls(cells) == |cells|
  {
    if cells != [] {
      assert cells == [cells[0]] + cells[1..];
      PresentCons(cells[0], cells[1..]);
      PresentAndNulls(cells[1..]);
    }
  }

  /** The non-null count the mean divides by is the number of non-null cells. */
  lemma {:induction false} CountIsPresent(cells: seq<Option<real>>)
    ensures Count(cells) == |Present(cells)|
  {
    if cells != [] {
      assert cells == [cells[0]] + cells[1..];
      PresentCons(cells[0], cells[1..]);
      CountIsPresent(cells[1..]);
    }
  }

  /** `dropna()` keeps every value as often as it occurs. */
  lemma {:induction false} PresentCounts<T(!new)>(cells: seq<Option<T>>)
    ensures forall v :: multiset(Present(cells))[v] == multiset(cells)[Some(v)]
  {
    if cells != [] {
      assert cells == [cells[0]] + cells[1..];
      PresentCons(cells[0], cells[1..]);
      PresentCounts(cells[1..]);
    }
  }

  /** `len(data.loc[data[i] == 0, i])`; a null cell compares false. */
  function Zeros(cells: seq<Option<real>>): nat {
    if cells == [] then 0 else (if cells[0] == Some(0.0) then 1 else 0) + Zeros(cells[1..])
  }

  /** `len(data.loc[data[i] > 0, i])` */
  function Positives(cells: seq<Option<real>>): nat {
    if cells == [] then 0
    else (if cells[0].Some? && cells[0].value > 0.0 then 1 else 0) + Positives(cells[1..])
  }

  /** `len(data.loc[data[i] < 0, i])` */
  function Negatives(cells: seq<Option<real>>): nat {
    if cells == [] then 0
    else (if cells[0].Some? && cells[0].value < 0.0 then 1 else 0) + Negatives(cells[1..])
  }

  /** Every numeric cell is null, zero, positive or negative, and only one
      of them. */
  lemma {:induction false} SignsPartition(cells: seq<Option<real>>)
    ensures Nulls(cells) + Zeros(cells) + Positives(cells) + Negatives(cells) == |cells|
  {
    if cells != [] {
      SignsPartition(cells[1..]);
    }
  }

  /** `len(data.loc[data[i] == '', i])`: only the empty string counts; a null
      cell compares false. */
  function Empties(cells: seq<Option<string>>): nat {
    if cells == [] then 0 else (if cells[0] == Some("") then 1 else 0) + Empties(cells[1..])
  }

  lemma {:induction false} EmptiesCount(cells: seq<Option<string>>)
    ensures Empties(cells) == multiset(cells)[Some("")]
    ensures Empties(cells) + Nulls(cells) <= |cells|
  {
    if cells != [] {
      assert cells == [cells[0]] + cells[1..];
      EmptiesCount(cells[1..]);
    }
  }

  /** `100.0 * k / total_count` */
  function Percent(k: nat, total: nat): (p: real)
    requires total > 0
    ensures 0.0 <= p
    ensures k <= total ==> p <= 100.0
    ensures k == 0 ==> p == 0.0
    ensures k == total ==> p == 100.0
  {
    PercentBound(k, total);
    100.0 * k as real / total as real
  }

  lemma PercentBound(k: nat, total: nat)
    requires total > 0
    ensures k <= total ==> 100.0 * k as real / total as real <= 100.0
  {
    if k <= total {
      assert 100.0 * k as real <= 100.0 * total as real;
    }
  }

  lemma PercentAdd(a: nat, b: nat, total: nat)
    requires total > 0
    ensures Percent(a, total) + Percent(b, total) == Percent(a + b, total)
  {
  }

  // ---------------------------------------------------------------------
  // Extremes

  predicate RealLess(a: real, b: real) { a < b }

  predicate IntLess(a: int, b: int) { a < b }

  lemma RealLessIsStrictTotalOrder()
    ensures StrictTotalOrder(RealLess)
  {
  }

  lemma IntLessIsStrictTotalOrder()
    ensures StrictTotalOrder(IntLess)
  {
  }

  /** The smallest element of a non-empty sequence. */
  function Least<T(!new)>(s: seq<T>, lt: (T, T) -> bool): (m: T)
    requires s != [] && StrictTotalOrder(lt)
    ensures m in s
    ensures forall x :: x in s ==> !lt(x, m)
  {
    if |s| == 1 then s[0]
    else
      var m := Least(s[1..], lt);
      assert s == [s[0]] + s[1..];
      if lt(s[0], m) then s[0] else m
  }

  /** The largest element of a non-empty sequence. */
  function Greatest<T(!new)>(s: seq<T>, lt: (T, T) -> bool): (m: T)
    requires s != [] && StrictTotalOrder(lt)
    ensures m in s
    ensures forall x :: x in s ==> !lt(m, x)
  {
    if |s| == 1 then s[0]
    else
      var m := Greatest(s[1..], lt);
      assert s == [s[0]] + s[1..];
      if lt(m, s[0]) then s[0] else m
  }

  // ---------------------------------------------------------------------
  // Numeric columns

  /** One row of explore_num_data's profile, without `std` and the
      quartiles: `row_count` and `min`, `max`, `mean` come from describe(). */
  datatype NumericProfile = NumericProfile(
    rowCount: nat,
    distNum: nat,
    min: Option<real>,
    max: Option<real>,
    mean: Option<real>,
    totalSum: real,
    nullPerc: real,
    zeroPerc: real,
    posPerc: real,
    negPerc: real)

  /** describe()'s `min`: null when the column has no value. */
  function Smallest(cells: seq<Option<real>>): (m: Option<real>)
    ensures m.Some? <==> Present(cells) != []
    ensures m.Some? ==> Some(m.value) in cells && forall v :: Some(v) in cells ==> m.value <= v
  {
    RealLessIsStrictTotalOrder();
    var values := Present(cells);
    if values == [] then None else Some(Least(values, RealLess))
  }

  /** describe()'s `max`: null when the column has no value. */
  function Largest(cells: seq<Option<real>>): (m: Option<real>)
    ensures m.Some? <==> Present(cells) != []
    ensures m.Some? ==> Some(m.value) in cells && forall v :: Some(v) in cells ==> v <= m.value
  {
    RealLessIsStrictTotalOrder();
    var values := Present(cells);
    if values == [] then None else Some(Greatest(values, RealLess))
  }

  /** `len(data[i].dropna().unique())` and `dropna().value_counts().count()`:
      the number of groups of the non-null values. */
  function Distinct<T(==,!new)>(cells: seq<Option<T>>, lt: (T, T) -> bool): (k: nat)
    requires StrictTotalOrder(lt)
    ensures k == |set v | v in Present(cells)|
  {
    GroupsAreDistinctValues(Present(cells), lt);
    |Groups(Present(cells), lt)|
  }

  function NumericProfileOf(cells: seq<Option<real>>): (p: NumericProfile)
    requires |cells| > 0
    ensures p.rowCount == |Present(cells)| && p.rowCount + Nulls(cells) == |cells|
    ensures p.distNum == |set v | v in Present(cells)|
    ensures p.min == Smallest(cells) && p.max == Largest(cells)
    ensures p.mean.Some? <==> p.rowCount > 0
    ensures p.nullPerc == Percent(Nulls(cells), |cells|)
    ensures p.zeroPerc == Percent(Zeros(cells), |cells|)
    ensures p.posPerc == Percent(Positives(cells), |cells|)
    ensures p.negPerc == Percent(Negatives(cells), |cells|)
  {
    RealLessIsStrictTotalOrder();
    PresentAndNulls(cells);
    NoValues(cells);
    NumericProfile(
      |Present(cells)|,
      Distinct(cells, RealLess),
      Smallest(cells),
      Largest(cells),
      MeanPresent(cells),
      Sum(cells),
      Percent(Nulls(cells), |cells|),
      Percent(Zeros(cells), |cells|),
      Percent(Positives(cells), |cells|),
      Percent(Negatives(cells), |cells|))
  }

  lemma NoValues(cells: seq<Option<real>>)
    ensures Present(cells) == [] <==> forall j :: 0 <= j < |cells| ==> cells[j].None?
  {
    if exists j :: 0 <= j < |cells| && cells[j].Some? {
      var j :| 0 <= j < |cells| && cells[j].Some?;
      assert cells[j].value in Present(cells);
    }
  }

  /** describe()'s `mean` is the column sum over the non-null count. */
  lemma NumericMean(cells: seq<Option<real>>)
    requires |cells| > 0 && NumericProfileOf(cells).rowCount > 0
    ensures var p := NumericProfileOf(cells);
      p.mean == Some(p.totalSum / p.rowCount as real)
  {
    CountIsPresent(cells);
  }

  /** The sum of a sequence of values, first to last. */
  function SumOfValues(values: seq<real>): real {
    if values == [] then 0.0 else values[0] + SumOfValues(values[1..])
  }

  lemma {:induction false} SumIsPresent(cells: seq<Option<real>>)
    ensures Sum(cells) == SumOfValues(Present(cells))
  {
    if cells != [] {
      assert cells == [cells[0]] + cells[1..];
      PresentCons(cells[0], cells[1..]);
      SumIsPresent(cells[1..]);
      if cells[0].Some? {
        var p := [cells[0].value] + Present(cells[1..]);
        assert p[0] == cells[0].value && p[1..] == Present(cells[1..]);
      } else {
        assert [] + Present(cells[1..]) == Present(cells[1..]);
      }
    }
  }

  /** `total_sum`, `sum()` of a column, adds up the non-null cells, and is 0.0 for a
      column whose every cell is null. */
  lemma NumericTotalSum(cells: seq<Option<real>>)
    requires |cells| > 0
    ensures NumericProfileOf(cells).totalSum == SumOfValues(Present(cells))
    ensures (forall j :: 0 <= j < |cells| ==> cells[j].None?) ==> NumericProfileOf(cells).totalSum == 0.0
  {
    SumIsPresent(cells);
    NoValues(cells);
  }

  /** Each percentage lies in [0, 100] and the four add up to 100. */
  lemma NumericPercentages(cells: seq<Option<real>>)
    requires |cells| > 0
    ensures var p := NumericProfileOf(cells);
      && 0.0 <= p.nullPerc <= 100.0 && 0.0 <= p.zeroPerc <= 100.0
      && 0.0 <= p.posPerc <= 100.0 && 0.0 <= p.negPerc <= 100.0
      && p.nullPerc + p.zeroPerc + p.posPerc + p.negPerc == 100.0
  {
    var t := |cells|;
    SignsPartition(cells);
    PercentAdd(Nulls(cells), Zeros(cells), t);
    PercentAdd(Nulls(cells) + Zeros(cells), Positives(cells), t);
    PercentAdd(Nulls(cells) + Zeros(cells) + Positives(cells), Negatives(cells), t);
  }

  /** The mean lies between the minimum and the maximum. */
  lemma NumericMeanBetween(cells: seq<Option<real>>)
    requires |cells| > 0 && NumericProfileOf(cells).rowCount > 0
    ensures var p := NumericProfileOf(cells);
      p.min.value <= p.mean.value <= p.max.value
  {
    var p := NumericProfileOf(cells);
    forall j | 0 <= j < |cells| && cells[j].Some?
      ensures p.min.value <= cells[j].value <= p.max.value
    {
      assert Some(cells[j].value) in cells;
    }
    MeanBounds(cells, p.min.value, p.max.value);
  }

  // ---------------------------------------------------------------------
  // Text columns

  /** `astype(str)`: a null cell becomes the text "nan". */
  function Text(cell: Option<string>): string {
    if cell.Some? then cell.value else "nan"
  }

  function Lengths(cells: seq<Option<string>>): seq<int> {
    seq(|cells|, i requires 0 <= i < |cells| => |Text(cells[i])|)
  }

  /** One row of explore_cat_data's profile. */
  datatype CategoricalProfile = CategoricalProfile(
    rowCount: nat,
    distNum: nat,
    minLength: int,
    maxLength: int,
    nullPerc: real,
    emptyPerc: real)

  function CategoricalProfileOf(cells: seq<Option<string>>): (p: CategoricalProfile)
    requires |cells| > 0
    ensures p.rowCount == |Present(cells)| && p.rowCount + Nulls(cells) == |cells|
    ensures p.distNum == |set v | v in Present(cells)|
    ensures p.minLength <= p.maxLength
    ensures forall i :: 0 <= i < |cells| ==> p.minLength <= |Text(cells[i])| <= p.maxLength
    ensures exists i :: 0 <= i < |cells| && |Text(cells[i])| == p.minLength
    ensures exists i :: 0 <= i < |cells| && |Text(cells[i])| == p.maxLength
    ensures p.nullPerc == Percent(Nulls(cells), |cells|)
    ensures p.emptyPerc == Percent(multiset(cells)[Some("")], |cells|)
  {
    var lengths := Lengths(cells);
    LexLessIsStrictTotalOrder();
    IntLessIsStrictTotalOrder();
    PresentAndNulls(cells);
    EmptiesCount(cells);
    var lo := Least(lengths, IntLess);
    var hi := Greatest(lengths, IntLess);
    assert forall i :: 0 <= i < |cells| ==> lengths[i] == |Text(cells[i])| && lengths[i] in lengths;
    CategoricalProfile(
      |Present(cells)|,
      Distinct(cells, LexLess),
      lo,
      hi,
      Percent(Nulls(cells), |cells|),
      Percent(Empties(cells), |cells|))
  }

  /** Both percentages lie in [0, 100]; an empty string is not null, so
      together they are at most 100. */
  lemma CategoricalPercentages(cells: seq<Option<string>>)
    requires |cells| > 0
    ensures var p := CategoricalProfileOf(cells);
      && 0.0 <= p.nullPerc <= 100.0 && 0.0 <= p.emptyPerc <= 100.0
      && p.nullPerc + p.emptyPerc <= 100.0
  {
    EmptiesCount(cells);
    PercentAdd(Nulls(cells), Empties(cells), |cells|);
  }
}
