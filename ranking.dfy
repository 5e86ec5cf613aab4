/** The scoring half of `update_table(num_weeks)` (app.py:383-402):
    pandas `rank(method='average')` of a projected column, the row mean of
    a group of rank columns (`mean(axis=1)`, NaN skipped) and rounding to one
    decimal. Ranks are over the exact projected values. */
module Ranking {
  import opened Wrappers

  // ---------------------------------------------------------------------
  // Average rank

  /** `ascending=False` ranks the largest value first, `ascending=True` the
      smallest. */
  datatype Direction = Descending | Ascending

  /** a comes strictly before b in the ranking order. */
  predicate Before(d: Direction, a: real, b: real) {
    if d == Descending then a > b else a < b
  }

  function CountBefore(base: seq<real>, v: real, d: Direction): nat {
    if base == [] then 0
    else CountBefore(base[..|base| - 1], v, d) + (if Before(d, base[|base| - 1], v) then 1 else 0)
  }

  function CountEqual(base: seq<real>, v: real): nat {
    if base == [] then 0
    else CountEqual(base[..|base| - 1], v) + (if base[|base| - 1] == v then 1 else 0)
  }

  function CountAfter(base: seq<real>, v: real, d: Direction): nat {
    if base == [] then 0
    else CountAfter(base[..|base| - 1], v, d) + (if Before(d, v, base[|base| - 1]) then 1 else 0)
  }

  /** Every value of the base is before v, equal to it or after it. */
  lemma {:induction false} CountsPartition(base: seq<real>, v: real, d: Direction)
    ensures CountBefore(base, v, d) + CountEqual(base, v) + CountAfter(base, v, d) == |base|
  {
    if base != [] {
      CountsPartition(base[..|base| - 1], v, d);
    }
  }

  lemma {:induction false} CountEqualPresent(base: seq<real>, v: real)
    requires v in base
    ensures CountEqual(base, v) >= 1
  {
    if base[|base| - 1] != v {
      assert v in base[..|base| - 1];
      CountEqualPresent(base[..|base| - 1], v);
    }
  }

  /** The average of the positions the tied values of v occupy once base is
      ordered: positions CountBefore + 1 .. CountBefore + CountEqual. */
  function Rank(base: seq<real>, v: real, d: Direction): real {
    CountBefore(base, v, d) as real + (CountEqual(base, v) + 1) as real / 2.0
  }

  /** `column.rank(method='average', ascending=...)`: each non-null cell gets
      the average rank of its value among the non-null cells; nulls stay
      null. */
  function AverageRank(values: seq<Option<real>>, d: Direction): (r: seq<Option<real>>)
    ensures |r| == |values|
    ensures forall i :: 0 <= i < |values| ==> (r[i].None? <==> values[i].None?)
  {
    RanksAgainst(values, Present(values), d)
  }

  /** Each non-null cell ranked against the values of base. */
  function RanksAgainst(values: seq<Option<real>>, base: seq<real>, d: Direction): seq<Option<real>> {
    seq(|values|, i requires 0 <= i < |values| =>
      if values[i].Some? then Some(Rank(base, values[i].value, d)) else None)
  }

  /** Ranks run from 1 to the number of non-null cells. */
  lemma RankBounds(values: seq<Option<real>>, d: Direction, i: nat)
    requires i < |values| && values[i].Some?
    ensures var r := AverageRank(values, d)[i].value;
      1.0 <= r <= |Present(values)| as real
  {
    var base := Present(values);
    var v := values[i].value;
    assert v in base;
    CountEqualPresent(base, v);
    CountsPartition(base, v, d);
  }

  lemma {:induction false} CountBeforeGrows(base: seq<real>, a: real, b: real, d: Direction)
    requires Before(d, a, b)
    ensures CountBefore(base, b, d) >= CountBefore(base, a, d) + CountEqual(base, a)
  {
    if base != [] {
      CountBeforeGrows(base[..|base| - 1], a, b, d);
    }
  }

  /** Strictly better values get strictly better ranks, and equal values
      share their rank. */
  lemma RankOrder(values: seq<Option<real>>, d: Direction, i: nat, j: nat)
    requires i < |values| && j < |values| && values[i].Some? && values[j].Some?
    ensures Before(d, values[i].value, values[j].value) ==>
              AverageRank(values, d)[i].value < AverageRank(values, d)[j].value
    ensures values[i].value == values[j].value ==>
              AverageRank(values, d)[i].value == AverageRank(values, d)[j].value
  {
    var base := Present(values);
    var a, b := values[i].value, values[j].value;
    if Before(d, a, b) {
      assert a in base;
      CountEqualPresent(base, a);
      CountBeforeGrows(base, a, b, d);
    }
  }

  /** Twice the sum, over the values of items, of 2 * CountBefore + CountEqual
      against base: ranks in whole halves. */
  function Weight(items: seq<real>, base: seq<real>, d: Direction): nat {
    if items == [] then 0
    else
      var v := items[|items| - 1];
      Weight(items[..|items| - 1], base, d) + 2 * CountBefore(base, v, d) + CountEqual(base, v)
  }

  lemma {:induction false} WeightExtendBase(items: seq<real>, base: seq<real>, x: real, d: Direction)
    ensures Weight(items, base + [x], d) ==
            Weight(items, base, d) + 2 * CountAfter(items, x, d) + CountEqual(items, x)
  {
    if items != [] {
      var v := items[|items| - 1];
      WeightExtendBase(items[..|items| - 1], base, x, d);
      assert (base + [x])[..|base + [x]| - 1] == base;
    }
  }

  lemma {:induction false} WeightSelf(s: seq<real>, d: Direction)
    ensures Weight(s, s, d) == |s| * |s|
  {
    if s != [] {
      var front, x := s[..|s| - 1], s[|s| - 1];
      var k := |front|;
      assert s == front + [x];
      assert Weight(s, s, d) == Weight(front, s, d) + 2 * CountBefore(s, x, d) + CountEqual(s, x);
      WeightSelf(front, d);
      WeightExtendBase(front, front, x, d);
      CountsPartition(front, x, d);
      assert CountBefore(s, x, d) == CountBefore(front, x, d);
      assert CountEqual(s, x) == CountEqual(front, x) + 1;
      assert Weight(s, s, d) == k * k + 2 * k + 1;
      SquareStep(k);
    }
  }

  lemma SquareStep(k: int)
    ensures (k + 1) * (k + 1) == k * k + 2 * k + 1
  {
  }

  function SumRanks(items: seq<real>, base: seq<real>, d: Direction): real {
    if items == [] then 0.0
    else SumRanks(items[..|items| - 1], base, d) + Rank(base, items[|items| - 1], d)
  }

  lemma {:induction false} SumRanksWeight(items: seq<real>, base: seq<real>, d: Direction)
    ensures 2.0 * SumRanks(items, base, d) == (Weight(items, base, d) + |items|) as real
  {
    if items != [] {
      SumRanksWeight(items[..|items| - 1], base, d);
    }
  }

  /** The sum of the present ranks, Σ over non-null cells. */
  function SumPresent(r: seq<Option<real>>): real {
    if r == [] then 0.0
    else SumPresent(r[..|r| - 1]) + (if r[|r| - 1].Some? then r[|r| - 1].value else 0.0)
  }

  lemma {:induction false} SumPresentIsSumRanks(values: seq<Option<real>>, base: seq<real>, d: Direction)
    ensures SumPresent(RanksAgainst(values, base, d)) == SumRanks(Present(values), base, d)
  {
    if values != [] {
      var front := values[..|values| - 1];
      SumPresentIsSumRanks(front, base, d);
      var r := RanksAgainst(values, base, d);
      assert r[..|r| - 1] == RanksAgainst(front, base, d);
      if values[|values| - 1].Some? {
        var p := Present(front) + [values[|values| - 1].value];
        assert p[..|p| - 1] == Present(front);
      }
    }
  }

  /** Average ranks keep the total of ordinary ranks: the k non-null cells'
      ranks add up to 1 + 2 + ... + k, whatever the ties. */
  lemma RankSum(values: seq<Option<real>>, d: Direction)
    ensures var k := |Present(values)|;
      2.0 * SumPresent(AverageRank(values, d)) == (k * (k + 1)) as real
  {
    var base := Present(values);
    var k := |base|;
    SumPresentIsSumRanks(values, base, d);
    SumRanksWeight(base, base, d);
    WeightSelf(base, d);
    Triangle(SumRanks(base, base, d), Weight(base, base, d), k);
  }

  lemma Triangle(sum: real, w: int, k: int)
    requires 2.0 * sum == (w + k) as real && w == k * k
    ensures 2.0 * sum == (k * (k + 1)) as real
  {
    assert k * (k + 1) == k * k + k;
  }

  /** Two tied values in the middle share the average of ranks 2 and 3. */
  lemma TiedExample()
    ensures AverageRank([Some(9.0), Some(4.0), None, Some(4.0), Some(1.0)], Descending)
            == [Some(1.0), Some(2.5), None, Some(2.5), Some(4.0)]
  {
    var values := [Some(9.0), Some(4.0), None, Some(4.0), Some(1.0)];
    ExamplePresent();
    ExampleRanks();
    var r := AverageRank(values, Descending);
    assert r == RanksAgainst(values, [9.0, 4.0, 4.0, 1.0], Descending);
    assert r[0] == Some(1.0) && r[1] == Some(2.5) && r[2] == None && r[3] == Some(2.5) && r[4] == Some(4.0);
  }

  lemma ExamplePresent()
    ensures Present([Some(9.0), Some(4.0), None, Some(4.0), Some(1.0)]) == [9.0, 4.0, 4.0, 1.0]
  {
    var v1, v2, v3 := [Some(9.0)], [Some(9.0), Some(4.0)], [Some(9.0), Some(4.0), None];
    var v4, values := v3 + [Some(4.0)], v3 + [Some(4.0), Some(1.0)];
    assert v1[..0] == [] && v2[..1] == v1 && v3[..2] == v2 && v4[..3] == v3 && values[..4] == v4;
    assert Present(v1) == [9.0];
    assert Present(v2) == [9.0, 4.0];
    assert Present(v3) == [9.0, 4.0];
    assert Present(v4) == [9.0, 4.0, 4.0];
    assert Present(values) == [9.0, 4.0, 4.0, 1.0];
    assert values == [Some(9.0), Some(4.0), None, Some(4.0), Some(1.0)];
  }

  lemma ExampleRanks()
    ensures var base := [9.0, 4.0, 4.0, 1.0];
      Rank(base, 9.0, Descending) == 1.0 && Rank(base, 4.0, Descending) == 2.5 &&
      Rank(base, 1.0, Descending) == 4.0
  {
    var base := [9.0, 4.0, 4.0, 1.0];
    var b1, b2, b3 := [9.0], [9.0, 4.0], [9.0, 4.0, 4.0];
    assert b1[..0] == [] && b2[..1] == b1 && b3[..2] == b2 && base[..3] == b3;
    assert CountBefore(base, 4.0, Descending) == 1 && CountEqual(base, 4.0) == 2;
    assert CountBefore(base, 9.0, Descending) == 0 && CountEqual(base, 9.0) == 1;
    assert CountBefore(base, 1.0, Descending) == 3 && CountEqual(base, 1.0) == 1;
    assert Rank(base, 1.0, Descending) == 3.0 + 2.0 / 2.0;
  }

  // ---------------------------------------------------------------------
  // Rounding

  /** Round half to even, as numpy rounds. */
  function RoundHalfEven(y: real): (k: int)
    ensures y - 0.5 <= k as real <= y + 0.5
    ensures y - y.Floor as real != 0.5 ==> y - 0.5 < k as real < y + 0.5
    ensures y - y.Floor as real == 0.5 ==> k % 2 == 0
  {
    var f := y.Floor;
    var frac := y - f as real;
    if frac < 0.5 then f
    else if frac > 0.5 then f + 1
    else if f % 2 == 0 then f else f + 1
  }

  /** `round(1)`: the nearest multiple of 0.1, ties to the even tenth. */
  function Round1(x: real): (r: real)
    ensures x - 0.05 <= r <= x + 0.05
    ensures (r * 10.0).Floor as real == r * 10.0
    ensures (x * 10.0) - (x * 10.0).Floor as real != 0.5 ==> x - 0.05 < r < x + 0.05
    ensures (x * 10.0) - (x * 10.0).Floor as real == 0.5 ==> (r * 10.0).Floor % 2 == 0
  {
    RoundHalfEven(x * 10.0) as real / 10.0
  }

  /** Ties go to the even tenth, as numpy rounds: 0.25 becomes 0.2 and 0.35
      becomes 0.4, while 0.26 becomes 0.3. */
  lemma RoundTiesExample()
    ensures RoundHalfEven(2.5) == 2 && RoundHalfEven(3.5) == 4
    ensures Round1(0.25) == 0.2 && Round1(0.35) == 0.4 && Round1(0.26) == 0.3
  {
    assert (2.5).Floor == 2 && (3.5).Floor == 3 && (2.6).Floor == 2;
    assert 0.25 * 10.0 == 2.5 && 0.35 * 10.0 == 3.5 && 0.26 * 10.0 == 2.6;
  }

  lemma RoundHalfEvenInteger(k: int)
    ensures RoundHalfEven(k as real) == k
  {
  }

  lemma {:induction false} RoundHalfEvenMonotone(y: real, z: real)
    requires y <= z
    ensures RoundHalfEven(y) <= RoundHalfEven(z)
  {
    var f, g := y.Floor, z.Floor;
    if f == g {
    } else {
      assert f < g;
    }
  }

  /** Rounding keeps a value between two whole numbers between them, and a
      rounded value rounds to itself. */
  lemma Round1Bounds(x: real, lo: int, hi: int)
    requires lo as real <= x <= hi as real
    ensures lo as real <= Round1(x) <= hi as real
  {
    RoundHalfEvenMonotone((lo * 10) as real, x * 10.0);
    RoundHalfEvenMonotone(x * 10.0, (hi * 10) as real);
    RoundHalfEvenInteger(lo * 10);
    RoundHalfEvenInteger(hi * 10);
  }

  lemma Round1Idempotent(x: real)
    ensures Round1(Round1(x)) == Round1(x)
  {
    var k := RoundHalfEven(x * 10.0);
    assert Round1(x) * 10.0 == k as real;
    RoundHalfEvenInteger(k);
  }
}
