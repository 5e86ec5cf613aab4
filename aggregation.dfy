/** `agg_week` (app.py): restrict the box scores to the trailing window of
    weeks, then sum every counter per team and attach the number of games
    played in the window. */
module Aggregation {
  import opened Order
  import opened BoxScore

  /** One row of agg_week's result: a team, its summed counters and `gp`. */
  datatype TeamTotal = TeamTotal(team: string, counters: seq<int>, gp: nat)

  /** `weekly_boxscore["week"].max()` */
  function MaxWeek(rows: seq<Row>): (m: int)
    requires rows != []
    ensures forall x :: x in rows ==> x.week <= m
    ensures exists x :: x in rows && x.week == m
  {
    if |rows| == 1 then rows[0].week
    else
      var m := MaxWeek(rows[1..]);
      assert rows == [rows[0]] + rows[1..];
      if rows[0].week >= m then rows[0].week else m
  }

  /** The rows whose week lies in (lo, hi], in their original order. */
  function Between(rows: seq<Row>, lo: int, hi: int): (r: seq<Row>)
    ensures forall x :: x in r ==> x in rows
  {
    if rows == [] then []
    else (if lo < rows[0].week <= hi then [rows[0]] else []) + Between(rows[1..], lo, hi)
  }

  lemma {:induction false} BetweenCounts(rows: seq<Row>, lo: int, hi: int)
    ensures forall x :: multiset(Between(rows, lo, hi))[x] ==
                        if lo < x.week <= hi then multiset(rows)[x] else 0
  {
    if rows != [] {
      assert rows == [rows[0]] + rows[1..];
      BetweenCounts(rows[1..], lo, hi);
    }
  }

  /** The rows agg_week keeps (app.py:27-29); the maximum of an empty week
      column is NaN, which no comparison satisfies. */
  function Window(rows: seq<Row>, numWeeks: int): seq<Row> {
    if rows == [] then [] else Between(rows, MaxWeek(rows) - numWeeks, MaxWeek(rows))
  }

  /** The window keeps exactly the rows (with their multiplicity) whose week is
      one of the last numWeeks weeks up to the latest one. */
  lemma {:induction false} WindowKeeps(rows: seq<Row>, numWeeks: int)
    requires rows != []
    ensures forall x :: multiset(Window(rows, numWeeks))[x] ==
                        if x in rows && MaxWeek(rows) - numWeeks < x.week then multiset(rows)[x] else 0
  {
    BetweenCounts(rows, MaxWeek(rows) - numWeeks, MaxWeek(rows));
  }

  lemma {:induction false} BetweenAll(rows: seq<Row>, lo: int, hi: int)
    requires forall x :: x in rows ==> lo < x.week <= hi
    ensures Between(rows, lo, hi) == rows
  {
    if rows != [] {
      assert rows == [rows[0]] + rows[1..];
      BetweenAll(rows[1..], lo, hi);
    }
  }

  /** Weeks start at 1, so a window at least as long as the latest week keeps
      every row. */
  lemma {:induction false} WindowSaturates(rows: seq<Row>, numWeeks: int)
    requires forall x :: x in rows ==> x.week >= 1
    requires rows != [] ==> numWeeks >= MaxWeek(rows)
    ensures Window(rows, numWeeks) == rows
  {
    if rows != [] {
      var m := MaxWeek(rows);
      assert forall x :: x in rows ==> m - numWeeks < x.week <= m;
      BetweenAll(rows, m - numWeeks, m);
    }
  }

  function TeamNames(rows: seq<Row>): seq<string> {
    seq(|rows|, i requires 0 <= i < |rows| => rows[i].team)
  }

  /** The rows of one team, in order. */
  function RowsOf(rows: seq<Row>, team: string): (r: seq<Row>)
    ensures forall x :: x in r ==> x in rows && x.team == team
  {
    if rows == [] then []
    else (if rows[0].team == team then [rows[0]] else []) + RowsOf(rows[1..], team)
  }

  lemma {:induction false} TeamNameCount(rows: seq<Row>, team: string)
    ensures multiset(TeamNames(rows))[team] == |RowsOf(rows, team)|
  {
    if rows != [] {
      assert TeamNames(rows) == [rows[0].team] + TeamNames(rows[1..]);
      TeamNameCount(rows[1..], team);
    }
  }

  /** The sum of counter c over the rows. */
  function Total(rows: seq<Row>, c: Counter): int
    requires WellFormed(rows)
  {
    if rows == [] then 0 else rows[0].counters[c] + Total(rows[1..], c)
  }

  function Totals(rows: seq<Row>): seq<int>
    requires WellFormed(rows)
  {
    seq(Width, c requires 0 <= c < Width => Total(rows, c))
  }

  function TeamsOf(totals: seq<TeamTotal>): seq<string> {
    seq(|totals|, i requires 0 <= i < |totals| => totals[i].team)
  }

  /** The window's team groups (`value_counts().sort_index()`): strictly
      ascending team names, each with the number of its rows in the window. */
  function TeamGroups(rows: seq<Row>, numWeeks: int): (g: seq<Group<string>>)
    ensures forall i, j :: 0 <= i < j < |g| ==> LexLess(g[i].key, g[j].key)
    ensures forall t :: t in Keys(g) <==> t in TeamNames(Window(rows, numWeeks))
    ensures forall i :: 0 <= i < |g| ==>
              g[i].count == |RowsOf(Window(rows, numWeeks), g[i].key)| && g[i].count >= 1
  {
    LexLessIsStrictTotalOrder();
    var w := Window(rows, numWeeks);
    var g := Groups(TeamNames(w), LexLess);
    assert forall i :: 0 <= i < |g| ==> g[i].count == |RowsOf(w, g[i].key)| by {
      forall i | 0 <= i < |g| ensures g[i].count == |RowsOf(w, g[i].key)| {
        GroupCount(TeamNames(w), LexLess, i);
        TeamNameCount(w, g[i].key);
      }
    }
    g
  }

  /** agg_week (app.py:26-33): the window's team groups in ascending team
      order (`groupby(['team_abv'])`), each with the window sums of its rows
      and its row count as `gp`. */
  function AggWeek(rows: seq<Row>, numWeeks: int): (r: seq<TeamTotal>)
    requires WellFormed(rows)
    ensures forall t :: t in r ==> |t.counters| == Width
  {
    var w := Window(rows, numWeeks);
    var g := TeamGroups(rows, numWeeks);
    seq(|g|, i requires 0 <= i < |g| => TeamTotal(g[i].key, Totals(RowsOf(w, g[i].key)), g[i].count))
  }

  /** After aggregation there is one row per team that has a row in the
      window, in strictly ascending team order; `gp` is the number of the
      team's rows in the window and each counter is their sum. */
  lemma {:induction false} AggWeekRows(rows: seq<Row>, numWeeks: int)
    requires WellFormed(rows)
    ensures var r := AggWeek(rows, numWeeks);
      && (forall i, j :: 0 <= i < j < |r| ==> LexLess(r[i].team, r[j].team))
      && (forall t :: t in TeamsOf(r) <==> t in TeamNames(Window(rows, numWeeks)))
      && (forall i :: 0 <= i < |r| ==>
            r[i].gp == |RowsOf(Window(rows, numWeeks), r[i].team)| && r[i].gp >= 1)
      && (forall i :: 0 <= i < |r| ==> |r[i].counters| == Width)
      && (forall i, c: Counter :: 0 <= i < |r| ==>
            r[i].counters[c] == Total(RowsOf(Window(rows, numWeeks), r[i].team), c))
  {
    var w := Window(rows, numWeeks);
    var g := TeamGroups(rows, numWeeks);
    var r := AggWeek(rows, numWeeks);
    assert |r| == |g|;
    assert forall i :: 0 <= i < |r| ==> r[i].team == g[i].key && r[i].gp == g[i].count;
    assert TeamsOf(r) == Keys(g);
    forall i, c: Counter | 0 <= i < |r|
      ensures r[i].counters[c] == Total(RowsOf(w, r[i].team), c)
    {
      assert r[i].counters == Totals(RowsOf(w, g[i].key));
    }
  }

  /** Windows at least as long as the season give the same aggregate. */
  lemma {:induction false} AggWeekSaturates(rows: seq<Row>, a: int, b: int)
    requires WellFormed(rows)
    requires forall x :: x in rows ==> x.week >= 1
    requires rows != [] ==> a >= MaxWeek(rows) && b >= MaxWeek(rows)
    ensures AggWeek(rows, a) == AggWeek(rows, b)
  {
    WindowSaturates(rows, a);
    WindowSaturates(rows, b);
  }
}
