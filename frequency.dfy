/** The three frequency tables the profiler builds for every column
    (explore_util.py): `groupby(value).agg(count)` sorted by count, by value
    ascending and by value descending, cut to the first n rows, with
    `freq = count / total_count`. */
module Frequency {
  import opened Order

  /** One row of a frequency table: a value, the number of rows holding it
      and that number over the table's row count. */
  datatype FreqRow<T> = FreqRow(value: T, count: nat, freq: real)

  /** `reset_index()` and `temp['freq'] = temp['count'] / total_count`. */
  function Tabulate<T>(g: seq<Group<T>>, total: nat): (r: seq<FreqRow<T>>)
    requires total > 0
    ensures |r| == |g|
    ensures forall i :: 0 <= i < |g| ==>
      r[i].value == g[i].key && r[i].count == g[i].count && r[i].freq == g[i].count as real / total as real
  {
    seq(|g|, i requires 0 <= i < |g| => FreqRow(g[i].key, g[i].count, g[i].count as real / total as real))
  }

  /** The sort key of `sort_values('count', ascending=False)`. */
  function ByCount<T>(g: Group<T>): int {
    -(g.count as int)
  }

  /** The most frequent values first. */
  function MostFrequent<T(==,!new)>(values: seq<T>, lt: (T, T) -> bool, total: nat, n: int): seq<FreqRow<T>>
    requires StrictTotalOrder(lt) && total > 0
  {
    Tabulate(Head(SortBy(Groups(values, lt), ByCount), n), total)
  }

  /** The smallest values first; the groups are already in ascending order. */
  function FirstValues<T(==,!new)>(values: seq<T>, lt: (T, T) -> bool, total: nat, n: int): seq<FreqRow<T>>
    requires StrictTotalOrder(lt) && total > 0
  {
    Tabulate(Head(Groups(values, lt), n), total)
  }

  /** The largest values first. */
  function LastValues<T(==,!new)>(values: seq<T>, lt: (T, T) -> bool, total: nat, n: int): seq<FreqRow<T>>
    requires StrictTotalOrder(lt) && total > 0
  {
    Tabulate(Head(Reverse(Groups(values, lt)), n), total)
  }

  /** The number of rows `head(n)` keeps of a table of d rows. */
  function HeadSize(d: nat, n: int): nat {
    if n >= 0 then Min(n, d) else Max(d + n, 0)
  }

  /** Every row holds one of the values (never a null: the values are the
      non-null cells), its number of occurrences, at least one, and that
      number over the total. */
  ghost predicate Counted<T>(r: seq<FreqRow<T>>, values: seq<T>, total: nat)
    requires total > 0
  {
    forall i :: 0 <= i < |r| ==>
      && r[i].value in values
      && r[i].count == multiset(values)[r[i].value]
      && r[i].count >= 1
      && r[i].freq == r[i].count as real / total as real
  }

  /** No row of the table shows x. */
  ghost predicate NotShown<T>(r: seq<FreqRow<T>>, x: T) {
    forall i :: 0 <= i < |r| ==> r[i].value != x
  }

  /** A row of the tables built from h, a part of the groups, is counted. */
  lemma GroupsCounted<T(!new)>(values: seq<T>, lt: (T, T) -> bool, total: nat, h: seq<Group<T>>)
    requires StrictTotalOrder(lt) && total > 0
    requires forall x :: x in h ==> x in Groups(values, lt)
    ensures Counted(Tabulate(h, total), values, total)
  {
    var g := Groups(values, lt);
    forall i | 0 <= i < |h|
      ensures h[i].key in values && h[i].count == multiset(values)[h[i].key] && h[i].count >= 1
    {
      assert h[i] in g;
      var m :| 0 <= m < |g| && g[m] == h[i];
      assert Keys(g)[m] == h[i].key;
      GroupCount(values, lt, m);
    }
  }

  /** An ascending group table holds each group once. */
  lemma {:induction false} AscendingOnce<T(!new)>(g: seq<Group<T>>, lt: (T, T) -> bool)
    requires StrictTotalOrder(lt) && Ascending(g, lt)
    ensures forall x :: multiset(g)[x] <= 1
  {
    if g != [] {
      assert g == [g[0]] + g[1..];
      AscendingOnce(g[1..], lt);
      forall j | 0 <= j < |g[1..]| ensures g[1..][j] != g[0] {
        assert lt(g[0].key, g[j + 1].key);
      }
    }
  }

  /** A sequence holding every element at most once has no repeated
      position. */
  lemma OnceDistinct<T>(s: seq<T>)
    requires forall x :: multiset(s)[x] <= 1
    ensures forall i, j :: 0 <= i < j < |s| ==> s[i] != s[j]
  {
    forall i, j | 0 <= i < j < |s| ensures s[i] != s[j] {
      assert s == s[..j] + [s[j]] + s[j + 1..];
      assert multiset(s) == multiset(s[..j]) + multiset{s[j]} + multiset(s[j + 1..]);
      assert s[i] in s[..j];
      assert multiset(s[..j])[s[i]] >= 1;
      assert multiset(s)[s[j]] <= 1;
    }
  }

  /** The groups sorted by count: the same groups, each once. */
  lemma SortedGroups<T(!new)>(values: seq<T>, lt: (T, T) -> bool)
    requires StrictTotalOrder(lt)
    ensures var g := Groups(values, lt);
      var s := SortBy(g, ByCount);
      && |s| == |g|
      && (forall x :: x in s ==> x in g)
      && (forall i, j :: 0 <= i < j < |s| ==> s[i] != s[j])
  {
    var g := Groups(values, lt);
    var s := SortBy(g, ByCount);
    assert |s| == |multiset(s)| == |multiset(g)| == |g|;
    forall x | x in s ensures x in g {
      assert x in multiset(s);
    }
    AscendingOnce(g, lt);
    OnceDistinct(s);
  }

  // ---------------------------------------------------------------------
  // The three cuts of a group table, stated on the groups alone

  lemma CountsNonIncreasing<T>(s: seq<Group<T>>, n: int, total: nat)
    requires total > 0 && SortedBy(s, ByCount)
    ensures var r := Tabulate(Head(s, n), total);
      forall i, j :: 0 <= i < j < |r| ==> r[i].count >= r[j].count
  {
    var h := Head(s, n);
    forall i, j | 0 <= i < j < |h| ensures h[i].count >= h[j].count {
      assert h[i] == s[i] && h[j] == s[j];
      assert ByCount(s[i]) <= ByCount(s[j]);
    }
  }

  /** A group cut off by head(n) is no more frequent than a group kept. */
  lemma TopCounts<T>(s: seq<Group<T>>, n: int, total: nat, p: nat)
    requires total > 0 && SortedBy(s, ByCount) && p < |s|
    requires NotShown(Tabulate(Head(s, n), total), s[p].key)
    ensures var r := Tabulate(Head(s, n), total);
      forall i :: 0 <= i < |r| ==> r[i].count >= s[p].count
  {
    var h := Head(s, n);
    var r := Tabulate(h, total);
    assert forall i :: 0 <= i < |h| ==> r[i].value == s[i].key;
    assert p >= |h|;
    forall i | 0 <= i < |r| ensures r[i].count >= s[p].count {
      assert h[i] == s[i];
      assert ByCount(s[i]) <= ByCount(s[p]);
    }
  }

  lemma AscendingShown<T>(g: seq<Group<T>>, lt: (T, T) -> bool, n: int, total: nat)
    requires total > 0 && Ascending(g, lt)
    ensures var r := Tabulate(Head(g, n), total);
      forall i, j :: 0 <= i < j < |r| ==> lt(r[i].value, r[j].value)
  {
    var h := Head(g, n);
    assert forall i :: 0 <= i < |h| ==> h[i] == g[i];
  }

  /** A group cut off the ascending table is larger than every group kept. */
  lemma SmallestShown<T>(g: seq<Group<T>>, lt: (T, T) -> bool, n: int, total: nat, m: nat)
    requires total > 0 && Ascending(g, lt) && m < |g|
    requires NotShown(Tabulate(Head(g, n), total), g[m].key)
    ensures var r := Tabulate(Head(g, n), total);
      forall i :: 0 <= i < |r| ==> lt(r[i].value, g[m].key)
  {
    var h := Head(g, n);
    var r := Tabulate(h, total);
    assert forall i :: 0 <= i < |h| ==> r[i].value == g[i].key;
    assert m >= |h|;
  }

  /** Row i of the descending table is the i-th group from the end. */
  lemma ReversedAt<T>(g: seq<Group<T>>, n: int, total: nat, i: nat)
    requires total > 0 && i < |Tabulate(Head(Reverse(g), n), total)|
    ensures i < |g| && Tabulate(Head(Reverse(g), n), total)[i].value == g[|g| - 1 - i].key
  {
    var h := Head(Reverse(g), n);
    assert h[i] == Reverse(g)[i];
  }

  lemma DescendingShown<T>(g: seq<Group<T>>, lt: (T, T) -> bool, n: int, total: nat)
    requires total > 0 && Ascending(g, lt)
    ensures var r := Tabulate(Head(Reverse(g), n), total);
      forall i, j :: 0 <= i < j < |r| ==> lt(r[j].value, r[i].value)
  {
    var r := Tabulate(Head(Reverse(g), n), total);
    forall i, j | 0 <= i < j < |r| ensures lt(r[j].value, r[i].value) {
      ReversedAt(g, n, total, i);
      ReversedAt(g, n, total, j);
    }
  }

  /** A group cut off the descending table is smaller than every group kept. */
  lemma LargestShown<T>(g: seq<Group<T>>, lt: (T, T) -> bool, n: int, total: nat, m: nat)
    requires total > 0 && Ascending(g, lt) && m < |g|
    requires NotShown(Tabulate(Head(Reverse(g), n), total), g[m].key)
    ensures var r := Tabulate(Head(Reverse(g), n), total);
      forall i :: 0 <= i < |r| ==> lt(g[m].key, r[i].value)
  {
    var v := Reverse(g);
    var h := Head(v, n);
    var r := Tabulate(h, total);
    var k := |g| - 1 - m;
    assert v[k] == g[m];
    assert forall i :: 0 <= i < |h| ==> r[i].value == v[i].key;
    assert k >= |h|;
    forall i | 0 <= i < |r| ensures lt(g[m].key, r[i].value) {
      ReversedAt(g, n, total, i);
    }
  }

  // ---------------------------------------------------------------------
  // The tables of a column

  /** Counted rows of distinct groups show distinct values: two groups of
      one value would carry the same count. */
  lemma CountedDistinct<T>(h: seq<Group<T>>, values: seq<T>, total: nat)
    requires total > 0 && Counted(Tabulate(h, total), values, total)
    requires forall i, j :: 0 <= i < j < |h| ==> h[i] != h[j]
    ensures var r := Tabulate(h, total);
      forall i, j :: 0 <= i < j < |r| ==> r[i].value != r[j].value
  {
    var r := Tabulate(h, total);
    forall i, j | 0 <= i < j < |r| ensures r[i].value != r[j].value {
      assert r[i].count == multiset(values)[r[i].value];
      assert r[j].count == multiset(values)[r[j].value];
      assert h[i] == Group(r[i].value, r[i].count);
      assert h[j] == Group(r[j].value, r[j].count);
    }
  }

  /** The most-frequent table: at most n rows (n < 0 drops the last -n
      groups), each a distinct counted value, counts non-increasing, and no
      value left out occurs more often than a value shown. */
  lemma MostFrequentTable<T(!new)>(values: seq<T>, lt: (T, T) -> bool, total: nat, n: int)
    requires StrictTotalOrder(lt) && total > 0
    ensures var r := MostFrequent(values, lt, total, n);
      && |r| == HeadSize(|set x | x in values|, n)
      && Counted(r, values, total)
      && (forall i, j :: 0 <= i < j < |r| ==> r[i].count >= r[j].count)
      && (forall i, j :: 0 <= i < j < |r| ==> r[i].value != r[j].value)
      && (forall x :: x in values && NotShown(r, x) ==>
            forall i :: 0 <= i < |r| ==> r[i].count >= multiset(values)[x])
  {
    var g := Groups(values, lt);
    var s := SortBy(g, ByCount);
    var h := Head(s, n);
    var r := MostFrequent(values, lt, total, n);
    assert |r| == HeadSize(|set x | x in values|, n) by {
      GroupsAreDistinctValues(values, lt);
      SortedGroups(values, lt);
    }
    assert Counted(r, values, total) by {
      SortedGroups(values, lt);
      assert forall i :: 0 <= i < |h| ==> h[i] == s[i];
      GroupsCounted(values, lt, total, h);
    }
    CountsNonIncreasing(s, n, total);
    assert forall i, j :: 0 <= i < j < |h| ==> h[i] != h[j] by {
      SortedGroups(values, lt);
      assert forall i :: 0 <= i < |h| ==> h[i] == s[i];
    }
    CountedDistinct(h, values, total);
    assert forall x :: x in values && NotShown(r, x) ==>
             forall i :: 0 <= i < |r| ==> r[i].count >= multiset(values)[x] by {
      forall x | x in values && NotShown(r, x)
        ensures forall i :: 0 <= i < |r| ==> r[i].count >= multiset(values)[x]
      {
        MostFrequentLeftOut(values, lt, total, n, x);
      }
    }
  }

  lemma MostFrequentLeftOut<T(!new)>(values: seq<T>, lt: (T, T) -> bool, total: nat, n: int, x: T)
    requires StrictTotalOrder(lt) && total > 0
    requires x in values && NotShown(MostFrequent(values, lt, total, n), x)
    ensures var r := MostFrequent(values, lt, total, n);
      forall i :: 0 <= i < |r| ==> r[i].count >= multiset(values)[x]
  {
    var g := Groups(values, lt);
    var s := SortBy(g, ByCount);
    assert x in Keys(g);
    var m :| 0 <= m < |g| && Keys(g)[m] == x;
    assert g[m].count == multiset(values)[x] by {
      GroupCount(values, lt, m);
    }
    assert g[m] in multiset(s);
    var p :| 0 <= p < |s| && s[p] == g[m];
    TopCounts(s, n, total, p);
  }

  /** The first-values table: at most n rows, strictly ascending, counted,
      and every value left out is larger than every value shown. */
  lemma FirstValuesTable<T(!new)>(values: seq<T>, lt: (T, T) -> bool, total: nat, n: int)
    requires StrictTotalOrder(lt) && total > 0
    ensures var r := FirstValues(values, lt, total, n);
      && |r| == HeadSize(|set x | x in values|, n)
      && Counted(r, values, total)
      && (forall i, j :: 0 <= i < j < |r| ==> lt(r[i].value, r[j].value))
      && (forall x :: x in values && NotShown(r, x) ==>
            forall i :: 0 <= i < |r| ==> lt(r[i].value, x))
  {
    var g := Groups(values, lt);
    var h := Head(g, n);
    var r := FirstValues(values, lt, total, n);
    GroupsAreDistinctValues(values, lt);
    GroupsCounted(values, lt, total, h);
    AscendingShown(g, lt, n, total);
    assert forall x :: x in values && NotShown(r, x) ==> forall i :: 0 <= i < |r| ==> lt(r[i].value, x) by {
      forall x | x in values && NotShown(r, x)
        ensures forall i :: 0 <= i < |r| ==> lt(r[i].value, x)
      {
        assert x in Keys(g);
        var m :| 0 <= m < |g| && Keys(g)[m] == x;
        SmallestShown(g, lt, n, total, m);
      }
    }
  }

  /** The last-values table: at most n rows, strictly descending, counted,
      and every value left out is smaller than every value shown. */
  lemma LastValuesTable<T(!new)>(values: seq<T>, lt: (T, T) -> bool, total: nat, n: int)
    requires StrictTotalOrder(lt) && total > 0
    ensures var r := LastValues(values, lt, total, n);
      && |r| == HeadSize(|set x | x in values|, n)
      && Counted(r, values, total)
      && (forall i, j :: 0 <= i < j < |r| ==> lt(r[j].value, r[i].value))
      && (forall x :: x in values && NotShown(r, x) ==>
            forall i :: 0 <= i < |r| ==> lt(x, r[i].value))
  {
    var g := Groups(values, lt);
    var h := Head(Reverse(g), n);
    var r := LastValues(values, lt, total, n);
    assert |r| == HeadSize(|set x | x in values|, n) by {
      GroupsAreDistinctValues(values, lt);
    }
    assert Counted(r, values, total) by {
      forall x | x in h ensures x in g {
        var k :| 0 <= k < |h| && h[k] == x;
        assert x == g[|g| - 1 - k];
      }
      GroupsCounted(values, lt, total, h);
    }
    DescendingShown(g, lt, n, total);
    assert forall x :: x in values && NotShown(r, x) ==> forall i :: 0 <= i < |r| ==> lt(x, r[i].value) by {
      forall x | x in values && NotShown(r, x)
        ensures forall i :: 0 <= i < |r| ==> lt(x, r[i].value)
      {
        assert x in Keys(g);
        var m :| 0 <= m < |g| && Keys(g)[m] == x;
        LargestShown(g, lt, n, total, m);
      }
    }
  }

  function TotalCount<T>(r: seq<FreqRow<T>>): nat {
    if r == [] then 0 else r[0].count + TotalCount(r[1..])
  }

  lemma {:induction false} TotalCountOfGroups<T>(g: seq<Group<T>>, total: nat)
    requires total > 0
    ensures TotalCount(Tabulate(g, total)) == SumCounts(g)
  {
    if g != [] {
      assert Tabulate(g, total)[1..] == Tabulate(g[1..], total);
      TotalCountOfGroups(g[1..], total);
    }
  }

  lemma {:induction false} SumCountsAppend<T>(a: seq<Group<T>>, b: seq<Group<T>>)
    ensures SumCounts(a + b) == SumCounts(a) + SumCounts(b)
  {
    if a == [] {
      assert a + b == b;
    } else {
      assert (a + b)[1..] == a[1..] + b;
      SumCountsAppend(a[1..], b);
    }
  }

  lemma {:induction false} SumCountsReverse<T>(g: seq<Group<T>>)
    ensures SumCounts(Reverse(g)) == SumCounts(g)
  {
    if g != [] {
      assert Reverse(g) == Reverse(g[1..]) + [g[0]];
      SumCountsAppend(Reverse(g[1..]), [g[0]]);
      SumCountsReverse(g[1..]);
    }
  }

  /** When every distinct value fits in the table, the last-values table is
      the first-values table backwards, and its counts add up to the number
      of values. */
  lemma AllValuesShown<T(!new)>(values: seq<T>, lt: (T, T) -> bool, total: nat, n: int)
    requires StrictTotalOrder(lt) && total > 0
    requires |set x | x in values| <= n
    ensures LastValues(values, lt, total, n) == Reverse(FirstValues(values, lt, total, n))
    ensures TotalCount(LastValues(values, lt, total, n)) == |values|
  {
    var g := Groups(values, lt);
    GroupsAreDistinctValues(values, lt);
    assert Head(g, n) == g;
    assert Head(Reverse(g), n) == Reverse(g);
    TotalCountOfGroups(Reverse(g), total);
    SumCountsReverse(g);
  }
}
