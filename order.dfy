/** Orders and the sequence operations pandas applies to whole tables:
    grouping by a key (`groupby(...)`, `value_counts().sort_index()`),
    sorting by a computed key (`sort_values`), `head(n)` and reversal. */
module Order {

  // ---------------------------------------------------------------------
  // Strict total orders and Python's string comparison

  ghost predicate StrictTotalOrder<T(!new)>(lt: (T, T) -> bool) {
    && (forall a :: !lt(a, a))
    && (forall a, b, c :: lt(a, b) && lt(b, c) ==> lt(a, c))
    && (forall a, b :: a != b ==> lt(a, b) || lt(b, a))
  }

  /** Python's `<` on `str`: lexicographic by code point, a proper prefix
      coming first. */
  predicate LexLess(a: string, b: string)
    decreases |a|
  {
    if |a| == 0 then |b| > 0
    else if |b| == 0 then false
    else if a[0] != b[0] then a[0] < b[0]
    else LexLess(a[1..], b[1..])
  }

  lemma {:induction false} LexLessIrreflexive(a: string)
    ensures !LexLess(a, a)
  {
    if |a| > 0 {
      LexLessIrreflexive(a[1..]);
    }
  }

  lemma {:induction false} LexLessTransitive(a: string, b: string, c: string)
    requires LexLess(a, b) && LexLess(b, c)
    ensures LexLess(a, c)
    decreases |a|
  {
    if |a| > 0 && |b| > 0 && |c| > 0 && a[0] == b[0] && b[0] == c[0] {
      LexLessTransitive(a[1..], b[1..], c[1..]);
    }
  }

  lemma {:induction false} LexLessTotal(a: string, b: string)
    requires a != b
    ensures LexLess(a, b) || LexLess(b, a)
    decreases |a|
  {
    if |a| > 0 && |b| > 0 && a[0] == b[0] {
      assert a == [a[0]] + a[1..] && b == [b[0]] + b[1..];
      LexLessTotal(a[1..], b[1..]);
    }
  }

  lemma LexLessIsStrictTotalOrder()
    ensures StrictTotalOrder(LexLess)
  {
    forall a: string ensures !LexLess(a, a) {
      LexLessIrreflexive(a);
    }
    forall a: string, b: string, c: string | LexLess(a, b) && LexLess(b, c)
      ensures LexLess(a, c)
    {
      LexLessTransitive(a, b, c);
    }
    forall a: string, b: string | a != b ensures LexLess(a, b) || LexLess(b, a) {
      LexLessTotal(a, b);
    }
  }

  // ---------------------------------------------------------------------
  // Grouping: the sorted table of distinct keys with their row counts

  datatype Group<T> = Group(key: T, count: nat)

  function Keys<T>(g: seq<Group<T>>): seq<T> {
    seq(|g|, i requires 0 <= i < |g| => g[i].key)
  }

  /** Keys strictly ascending: every key occurs once. */
  ghost predicate Ascending<T>(g: seq<Group<T>>, lt: (T, T) -> bool) {
    forall i, j :: 0 <= i < j < |g| ==> lt(g[i].key, g[j].key)
  }

  ghost predicate PositiveCounts<T>(g: seq<Group<T>>) {
    forall i :: 0 <= i < |g| ==> g[i].count >= 1
  }

  /** The count recorded for key k (0 when k has no group). */
  function CountOf<T(==)>(g: seq<Group<T>>, k: T): nat {
    if g == [] then 0
    else if g[0].key == k then g[0].count
    else CountOf(g[1..], k)
  }

  function SumCounts<T>(g: seq<Group<T>>): nat {
    if g == [] then 0 else g[0].count + SumCounts(g[1..])
  }

  lemma {:induction false} CountOfAbsent<T>(g: seq<Group<T>>, k: T)
    requires k !in Keys(g)
    ensures CountOf(g, k) == 0
  {
    if g != [] {
      assert Keys(g)[0] == g[0].key;
      assert Keys(g[1..]) == Keys(g)[1..];
      CountOfAbsent(g[1..], k);
    }
  }

  /** In an ascending group table the count of a present key is the count
      stored beside it. */
  lemma {:induction false} CountOfAt<T(!new)>(g: seq<Group<T>>, i: nat, lt: (T, T) -> bool)
    requires StrictTotalOrder(lt) && Ascending(g, lt) && i < |g|
    ensures CountOf(g, g[i].key) == g[i].count
  {
    if i > 0 {
      assert lt(g[0].key, g[i].key);
      CountOfAt(g[1..], i - 1, lt);
    }
  }

  /** Record one more row with key x. */
  function AddOne<T(==)>(x: T, g: seq<Group<T>>, lt: (T, T) -> bool): seq<Group<T>> {
    if g == [] then [Group(x, 1)]
    else if g[0].key == x then [Group(x, g[0].count + 1)] + g[1..]
    else if lt(x, g[0].key) then [Group(x, 1)] + g
    else [g[0]] + AddOne(x, g[1..], lt)
  }

  lemma {:induction false} AddOneKeys<T>(x: T, g: seq<Group<T>>, lt: (T, T) -> bool)
    ensures forall k :: k in Keys(AddOne(x, g, lt)) <==> k in Keys(g) || k == x
  {
    var r := AddOne(x, g, lt);
    if g != [] {
      assert Keys(g) == [g[0].key] + Keys(g[1..]);
      if g[0].key == x {
        assert Keys(r) == Keys(g);
      } else if lt(x, g[0].key) {
        assert Keys(r) == [x] + Keys(g);
      } else {
        AddOneKeys(x, g[1..], lt);
        assert Keys(r) == [g[0].key] + Keys(AddOne(x, g[1..], lt));
      }
    } else {
      assert Keys(r) == [x];
    }
  }

  lemma {:induction false} AddOneAscending<T(!new)>(x: T, g: seq<Group<T>>, lt: (T, T) -> bool)
    requires StrictTotalOrder(lt) && Ascending(g, lt)
    ensures Ascending(AddOne(x, g, lt), lt)
  {
    if g != [] && g[0].key != x && !lt(x, g[0].key) {
      var rest := AddOne(x, g[1..], lt);
      AddOneAscending(x, g[1..], lt);
      AddOneKeys(x, g[1..], lt);
      assert lt(g[0].key, x);
      var r := [g[0]] + rest;
      forall j | 0 < j < |r| ensures lt(r[0].key, r[j].key) {
        assert r[j].key == Keys(rest)[j - 1];
        if r[j].key != x {
          assert r[j].key in Keys(g[1..]);
          var m :| 0 <= m < |g[1..]| && Keys(g[1..])[m] == r[j].key;
          assert g[m + 1].key == r[j].key;
        }
      }
    }
  }

  lemma {:induction false} AddOneCounts<T(!new)>(x: T, g: seq<Group<T>>, lt: (T, T) -> bool)
    requires StrictTotalOrder(lt) && Ascending(g, lt)
    ensures forall k :: CountOf(AddOne(x, g, lt), k) == CountOf(g, k) + (if k == x then 1 else 0)
    ensures SumCounts(AddOne(x, g, lt)) == SumCounts(g) + 1
    ensures PositiveCounts(g) ==> PositiveCounts(AddOne(x, g, lt))
  {
    if g != [] && g[0].key != x {
      if lt(x, g[0].key) {
        assert x !in Keys(g) by {
          forall j | 0 <= j < |g| ensures Keys(g)[j] != x {
            if j > 0 { assert lt(g[0].key, g[j].key); }
          }
        }
        CountOfAbsent(g, x);
      } else {
        AddOneCounts(x, g[1..], lt);
      }
    }
  }

  /** The groups of a column of keys: `groupby(column).agg(count)` and
      `value_counts().sort_index()`, keys ascending. */
  function Groups<T(==,!new)>(values: seq<T>, lt: (T, T) -> bool): (r: seq<Group<T>>)
    requires StrictTotalOrder(lt)
    ensures Ascending(r, lt) && PositiveCounts(r)
    ensures forall k :: CountOf(r, k) == multiset(values)[k]
    ensures forall k :: k in Keys(r) <==> k in values
    ensures SumCounts(r) == |values|
  {
    if values == [] then []
    else
      var front := values[..|values| - 1];
      var last := values[|values| - 1];
      assert values == front + [last];
      var g := Groups(front, lt);
      AddOneKeys(last, g, lt);
      AddOneAscending(last, g, lt);
      AddOneCounts(last, g, lt);
      AddOne(last, g, lt)
  }

  /** Each group's count is the number of rows holding its key. */
  lemma GroupCount<T(!new)>(values: seq<T>, lt: (T, T) -> bool, i: nat)
    requires StrictTotalOrder(lt) && i < |Groups(values, lt)|
    ensures Groups(values, lt)[i].count == multiset(values)[Groups(values, lt)[i].key]
  {
    CountOfAt(Groups(values, lt), i, lt);
  }

  lemma {:induction false} DistinctElements<T>(s: seq<T>)
    requires forall i, j :: 0 <= i < j < |s| ==> s[i] != s[j]
    ensures |set x | x in s| == |s|
  {
    if s != [] {
      DistinctElements(s[1..]);
      assert (set x | x in s) == (set x | x in s[1..]) + {s[0]};
      assert s[0] !in (set x | x in s[1..]);
    }
  }

  /** There are exactly as many groups as distinct keys. */
  lemma GroupsAreDistinctValues<T(!new)>(values: seq<T>, lt: (T, T) -> bool)
    requires StrictTotalOrder(lt)
    ensures |Groups(values, lt)| == |set x | x in values|
  {
    var g := Groups(values, lt);
    var ks := Keys(g);
    forall i, j | 0 <= i < j < |ks| ensures ks[i] != ks[j] {
      assert lt(g[i].key, g[j].key);
    }
    DistinctElements(ks);
    assert (set x | x in ks) == (set x | x in values);
  }

  // ---------------------------------------------------------------------
  // Sorting by a computed integer key (stable insertion sort)

  ghost predicate SortedBy<T>(s: seq<T>, key: T -> int) {
    forall i, j :: 0 <= i < j < |s| ==> key(s[i]) <= key(s[j])
  }

  function InsertBy<T>(x: T, s: seq<T>, key: T -> int): (r: seq<T>)
    requires SortedBy(s, key)
    ensures SortedBy(r, key)
    ensures multiset(r) == multiset(s) + multiset{x}
  {
    if s == [] || key(x) <= key(s[0]) then
      [x] + s
    else
      var rest := InsertBy(x, s[1..], key);
      assert s == [s[0]] + s[1..];
      InsertAfterHead(x, s, key, rest);
      [s[0]] + rest
  }

  /** Putting the smallest element in front of a sorted insertion into the
      rest keeps the sequence sorted. */
  lemma InsertAfterHead<T>(x: T, s: seq<T>, key: T -> int, rest: seq<T>)
    requires s != [] && key(s[0]) < key(x) && SortedBy(s, key) && SortedBy(rest, key)
    requires multiset(rest) == multiset(s[1..]) + multiset{x}
    ensures SortedBy([s[0]] + rest, key)
  {
    var r := [s[0]] + rest;
    forall j | 0 < j < |r| ensures key(r[0]) <= key(r[j]) {
      assert r[j] == rest[j - 1];
      assert r[j] in multiset(rest);
      if r[j] != x {
        assert r[j] in multiset(s[1..]);
        var m :| 0 <= m < |s[1..]| && s[1..][m] == r[j];
        assert s[m + 1] == r[j];
      }
    }
  }

  /** `sort_values(key)`: a permutation of s ordered by key. */
  function SortBy<T>(s: seq<T>, key: T -> int): (r: seq<T>)
    ensures SortedBy(r, key)
    ensures multiset(r) == multiset(s)
  {
    if s == [] then []
    else
      assert s == [s[0]] + s[1..];
      InsertBy(s[0], SortBy(s[1..], key), key)
  }

  // ---------------------------------------------------------------------
  // head(n) and reversal

  function Min(a: int, b: int): int { if a <= b then a else b }

  function Max(a: int, b: int): int { if a >= b then a else b }

  /** pandas `head(n)`: the first n rows; a negative n drops the last -n rows. */
  function Head<T>(s: seq<T>, n: int): (r: seq<T>)
    ensures r <= s
    ensures |r| == if n >= 0 then Min(n, |s|) else Max(|s| + n, 0)
  {
    if n >= 0 then s[..Min(n, |s|)] else s[..Max(|s| + n, 0)]
  }

  function Reverse<T>(s: seq<T>): (r: seq<T>)
    ensures |r| == |s|
    ensures forall i :: 0 <= i < |s| ==> r[i] == s[|s| - 1 - i]
  {
    if s == [] then [] else Reverse(s[1..]) + [s[0]]
  }
}
