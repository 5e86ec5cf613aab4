/** The derivation inside the rankings callback `update_table(num_weeks)`
    (app.py:221-381): per-game rates over the aggregated window, the team
    lookup `get_values_list`, and the matchup projections built from them. */
module Projection {
  import opened Wrappers
  import opened BoxScore
  import opened Aggregation

  // ---------------------------------------------------------------------
  // Rates (app.py:224-273)

  /** The rate columns added to prior_weeks. */
  datatype Rate =
    | PassTdPerGm | PassTdAlwPerGm | PassYrdPerGm | PassYrdAlwPerGm
    | PassYrdPerPass | PassYrdAlwPerPassAlw | PassFirstDownPerGm | PassFirstDownAlwPerGm
    | RushTdPerGm | RushTdAlwPerGm | RushYrdPerGm | RushYrdAlwPerGm
    | RushYrdPerRush | RushYrdAlwPerRushAlw | RushFirstDownPerGm | RushFirstDownAlwPerGm
    | RecYrdPerGm | RecYrdAlwPerGm | RecYrdPerTar | RecYrdAlwPerTarAlw
    | RecTarPerGm | RecTarAlwPerGm | RecPerGm | RecAlwPerGm
    | DefStTdPerGm | DefStTdAlwPerGm | FumblePerGm | FumbleLostPerGm
    | IntPerGm | IntAlwPerGm | SacksPerGm | SacksTakenPerGm
    | KckPtsPerGm | KckPtsAlwPerGm | ReturnYrdsPerGm | ReturnYrdsAlwPerGm

  /** What a rate divides by: games played in the window, or an opportunity
      counter such as attempts or targets. */
  datatype Denominator = GamesPlayed | Opportunities(counter: Counter)

  /** A rate is the sum of its numerator counters over its denominator. */
  datatype Ratio = Ratio(numerator: seq<Counter>, denominator: Denominator)

  function Definition(r: Rate): Ratio {
    match r
    case PassTdPerGm => Ratio([PassTds], GamesPlayed)
    case PassTdAlwPerGm => Ratio([PassTdsAlw], GamesPlayed)
    case PassYrdPerGm => Ratio([TotYrdsPass], GamesPlayed)
    case PassYrdAlwPerGm => Ratio([TotYrdsPassAlw], GamesPlayed)
    case PassYrdPerPass => Ratio([TotYrdsPass], Opportunities(PassAtt))
    case PassYrdAlwPerPassAlw => Ratio([TotYrdsPassAlw], Opportunities(PassAttAlw))
    case PassFirstDownPerGm => Ratio([FirstDwnPass], GamesPlayed)
    case PassFirstDownAlwPerGm => Ratio([FirstDwnPassAlw], GamesPlayed)
    case RushTdPerGm => Ratio([RushTds], GamesPlayed)
    case RushTdAlwPerGm => Ratio([RushTdsAlw], GamesPlayed)
    case RushYrdPerGm => Ratio([TotRushYrds], GamesPlayed)
    case RushYrdAlwPerGm => Ratio([TotRushYrdsAlw], GamesPlayed)
    case RushYrdPerRush => Ratio([TotRushYrds], Opportunities(RushAtt))
    case RushYrdAlwPerRushAlw => Ratio([TotRushYrdsAlw], Opportunities(RushAttAlw))
    case RushFirstDownPerGm => Ratio([FirstDwnRush], GamesPlayed)
    case RushFirstDownAlwPerGm => Ratio([FirstDwnRushAlw], GamesPlayed)
    case RecYrdPerGm => Ratio([TotRecYrds], GamesPlayed)
    case RecYrdAlwPerGm => Ratio([TotRecYrdsAlw], GamesPlayed)
    case RecYrdPerTar => Ratio([TotRecYrds], Opportunities(RecTargets))
    case RecYrdAlwPerTarAlw => Ratio([TotRecYrdsAlw], Opportunities(RecTargetsAlw))
    case RecTarPerGm => Ratio([RecTargets], GamesPlayed)
    case RecTarAlwPerGm => Ratio([RecTargetsAlw], GamesPlayed)
    case RecPerGm => Ratio([TotRec], GamesPlayed)
    case RecAlwPerGm => Ratio([TotRecAlw], GamesPlayed)
    case DefStTdPerGm => Ratio([DefTds, KickRetTds, PuntRetTds], GamesPlayed)
    case DefStTdAlwPerGm => Ratio([DefTdsAlw, KickRetTdsAlw, PuntRetTdsAlw], GamesPlayed)
    case FumblePerGm => Ratio([FumbleRec], GamesPlayed)
    case FumbleLostPerGm => Ratio([FumbleLost], GamesPlayed)
    case IntPerGm => Ratio([DefInts], GamesPlayed)
    case IntAlwPerGm => Ratio([DefIntsAlw], GamesPlayed)
    case SacksPerGm => Ratio([TotSck], GamesPlayed)
    case SacksTakenPerGm => Ratio([SacksTaken], GamesPlayed)
    case KckPtsPerGm => Ratio([KickPts], GamesPlayed)
    case KckPtsAlwPerGm => Ratio([KickPtsAlw], GamesPlayed)
    case ReturnYrdsPerGm => Ratio([KickRetYrds, PuntRetYrds], GamesPlayed)
    case ReturnYrdsAlwPerGm => Ratio([KickRetYrdsAlw, PuntRetYrdsAlw], GamesPlayed)
  }

  /** Column division `a / b`: a zero denominator gives NaN or inf in pandas,
      both `None` here. */
  function Divide(a: real, b: real): (q: Option<real>)
    ensures q.Some? <==> b != 0.0
    ensures q.Some? ==> q.value * b == a
  {
    if b == 0.0 then None else Some(a / b)
  }

  /** A team row of prior_weeks carries every counter. */
  predicate Shaped(prior: seq<TeamTotal>) {
    forall t :: t in prior ==> |t.counters| == Width
  }

  function SumOf(t: TeamTotal, cs: seq<Counter>): int
    requires |t.counters| == Width
  {
    if cs == [] then 0 else t.counters[cs[0]] + SumOf(t, cs[1..])
  }

  function DenominatorOf(t: TeamTotal, d: Denominator): int
    requires |t.counters| == Width
  {
    match d
    case GamesPlayed => t.gp
    case Opportunities(c) => t.counters[c]
  }

  function RateValue(t: TeamTotal, r: Rate): Option<real>
    requires |t.counters| == Width
  {
    var d := Definition(r);
    Divide(SumOf(t, d.numerator) as real, DenominatorOf(t, d.denominator) as real)
  }

  /** The rows of the window that belong to one team, and the mean per game
      of a sum of counters over them. */
  function WindowRows(rows: seq<Row>, numWeeks: int, team: string): seq<Row> {
    RowsOf(Window(rows, numWeeks), team)
  }

  function WindowSum(rows: seq<Row>, cs: seq<Counter>): int
    requires WellFormed(rows)
  {
    if cs == [] then 0 else Total(rows, cs[0]) + WindowSum(rows, cs[1..])
  }

  lemma {:induction false} WindowRowsShaped(rows: seq<Row>, numWeeks: int, team: string)
    requires WellFormed(rows)
    ensures WellFormed(WindowRows(rows, numWeeks, team))
  {
    if rows != [] {
      BetweenCounts(rows, MaxWeek(rows) - numWeeks, MaxWeek(rows));
    }
  }

  lemma {:induction false} SumOfTotals(t: TeamTotal, w: seq<Row>, cs: seq<Counter>)
    requires |t.counters| == Width && WellFormed(w)
    requires forall c: Counter :: t.counters[c] == Total(w, c)
    ensures SumOf(t, cs) == WindowSum(w, cs)
  {
    if cs != [] {
      SumOfTotals(t, w, cs[1..]);
    }
  }

  /** A per-game rate of an aggregated team is the team's per-game mean of
      the rate's counters over its games in the window: never NaN, because
      every aggregated team has played at least one game. */
  lemma PerGameRateIsWindowMean(rows: seq<Row>, numWeeks: int, k: nat, r: Rate)
    requires WellFormed(rows) && k < |AggWeek(rows, numWeeks)|
    requires Definition(r).denominator == GamesPlayed
    ensures var t := AggWeek(rows, numWeeks)[k];
      var games := WindowRows(rows, numWeeks, t.team);
      && |games| >= 1
      && WellFormed(games)
      && |t.counters| == Width
      && RateValue(t, r) == Some(WindowSum(games, Definition(r).numerator) as real / |games| as real)
  {
    AggWeekRows(rows, numWeeks);
    var t := AggWeek(rows, numWeeks)[k];
    WindowRowsShaped(rows, numWeeks, t.team);
    SumOfTotals(t, WindowRows(rows, numWeeks, t.team), Definition(r).numerator);
  }

  // ---------------------------------------------------------------------
  // Team lookup: get_values_list (app.py:36-38)

  /** A column of prior_weeks: a summed counter or a derived rate. */
  datatype Column = Raw(counter: Counter) | Derived(rate: Rate)

  function Cell(t: TeamTotal, col: Column): Option<real>
    requires |t.counters| == Width
  {
    match col
    case Raw(c) => Some(t.counters[c] as real)
    case Derived(r) => RateValue(t, r)
  }

  /** Index of the first row of prior whose team is `team`. */
  function FindTeam(prior: seq<TeamTotal>, team: string): (r: Option<nat>)
    ensures r.Some? ==> r.value < |prior| && prior[r.value].team == team &&
                        forall j :: 0 <= j < r.value ==> prior[j].team != team
    ensures r.None? ==> forall j :: 0 <= j < |prior| ==> prior[j].team != team
  {
    if prior == [] then None
    else if prior[0].team == team then Some(0)
    else match FindTeam(prior[1..], team)
      case None => None
      case Some(i) => Some(i + 1)
  }

  predicate Known(prior: seq<TeamTotal>, teams: seq<string>) {
    forall i :: 0 <= i < |teams| ==> FindTeam(prior, teams[i]).Some?
  }

  /** `.iloc[0]` on an empty selection raises IndexError. */
  datatype ScoreError = UnknownTeam(team: string)

  /** The row `.iloc[0]` picks for each requested team; a team without a
      row is an error. */
  function Resolve(prior: seq<TeamTotal>, teams: seq<string>): (r: Result<seq<TeamTotal>, ScoreError>)
    ensures r.Success? <==> Known(prior, teams)
    ensures r.Success? ==> |r.value| == |teams|
    ensures r.Success? ==>
      forall i :: 0 <= i < |teams| ==> r.value[i] == prior[FindTeam(prior, teams[i]).value]
    ensures r.Failure? ==> r.error.team in teams && FindTeam(prior, r.error.team).None?
  {
    if teams == [] then Success([])
    else match FindTeam(prior, teams[0])
      case None => Failure(UnknownTeam(teams[0]))
      case Some(k) =>
        var rest :- Resolve(prior, teams[1..]);
        Success([prior[k]] + rest)
  }

  lemma ResolvedShaped(prior: seq<TeamTotal>, teams: seq<string>)
    requires Shaped(prior) && Resolve(prior, teams).Success?
    ensures Shaped(Resolve(prior, teams).value)
  {
    var picked := Resolve(prior, teams).value;
    forall t | t in picked ensures |t.counters| == Width {
      var i :| 0 <= i < |picked| && picked[i] == t;
      assert prior[FindTeam(prior, teams[i]).value] in prior;
    }
  }

  /** One column of the picked rows. */
  function Values(picked: seq<TeamTotal>, column: Column): (r: seq<Option<real>>)
    requires Shaped(picked)
    ensures |r| == |picked|
  {
    seq(|picked|, i requires 0 <= i < |picked| => Cell(picked[i], column))
  }

  /** get_values_list: for each requested team, the column's value in the
      first row of that team. */
  function GetValuesList(prior: seq<TeamTotal>, teams: seq<string>, column: Column)
    : (r: Result<seq<Option<real>>, ScoreError>)
    requires Shaped(prior)
    ensures r.Success? <==> Known(prior, teams)
    ensures r.Success? ==> |r.value| == |teams|
    ensures r.Success? ==>
      forall i :: 0 <= i < |teams| ==> r.value[i] == Cell(prior[FindTeam(prior, teams[i]).value], column)
    ensures r.Failure? ==> r.error.team in teams && FindTeam(prior, r.error.team).None?
  {
    var picked :- Resolve(prior, teams);
    ResolvedShaped(prior, teams);
    Success(Values(picked, column))
  }

  // ---------------------------------------------------------------------
  // Matchup projections (app.py:275-381)

  /** One scheduled game of this_week: the (away) team, its opponent and the
      home flag. */
  datatype Matchup = Matchup(week: int, team: string, oppn: string, home: bool)

  function Teams(schedule: seq<Matchup>): (r: seq<string>)
    ensures |r| == |schedule| && forall i :: 0 <= i < |schedule| ==> r[i] == schedule[i].team
  {
    seq(|schedule|, i requires 0 <= i < |schedule| => schedule[i].team)
  }

  function Opponents(schedule: seq<Matchup>): (r: seq<string>)
    ensures |r| == |schedule| && forall i :: 0 <= i < |schedule| ==> r[i] == schedule[i].oppn
  {
    seq(|schedule|, i requires 0 <= i < |schedule| => schedule[i].oppn)
  }

  /** The projected columns of this_week. */
  datatype Stat =
    | PassTd | PassYrdPerPass | PassFirstDown | PassYrd
    | RushTd | RushYrdPerRush | RushFirstDown | RushYrd
    | RecTd | RecYrdPerTar | RecFirstDown | RecYrdPerGm | RecPerGm
    | DefStTd | DefSack | DefInt | DefFumble | KckPts
    | RzDiff | ToDiff | DefStTdAlw | DefStYrdAlw

  datatype Formula =
    /** team rate times opponent's allowed rate */
    | Product(own: Rate, allowed: Rate)
    /** (sum of three team rates) times (sum of three opponent rates) */
    | SumProduct(ownRates: (Rate, Rate, Rate), opponentRates: (Rate, Rate, Rate))
    /** con/att of the team minus (1 - con_alw/att_alw of the opponent) */
    | RedZoneDifferential
    /** (def_ints + fumble_rec) of the team minus (int_thrown + fumble_lost)
        of the opponent, on window sums */
    | TurnoverDifferential

  function FormulaOf(s: Stat): Formula {
    match s
    case PassTd => Product(PassTdPerGm, PassTdAlwPerGm)
    case PassYrdPerPass => Product(Rate.PassYrdPerPass, PassYrdAlwPerPassAlw)
    case PassFirstDown => Product(PassFirstDownPerGm, PassFirstDownAlwPerGm)
    case PassYrd => Product(PassYrdPerGm, PassYrdAlwPerGm)
    case RushTd => Product(RushTdPerGm, RushTdAlwPerGm)
    case RushYrdPerRush => Product(Rate.RushYrdPerRush, RushYrdAlwPerRushAlw)
    case RushFirstDown => Product(RushFirstDownPerGm, RushFirstDownAlwPerGm)
    case RushYrd => Product(RushYrdPerGm, RushYrdAlwPerGm)
    case RecTd => Product(PassTdPerGm, PassTdAlwPerGm)
    case RecYrdPerGm => Product(Rate.RecYrdPerGm, RecYrdAlwPerGm)
    case RecYrdPerTar => Product(Rate.RecYrdPerTar, RecYrdAlwPerTarAlw)
    case RecPerGm => Product(Rate.RecPerGm, RecAlwPerGm)
    case RecFirstDown => Product(PassFirstDownPerGm, PassFirstDownAlwPerGm)
    case DefStTd => Product(DefStTdPerGm, DefStTdAlwPerGm)
    case DefSack => Product(SacksPerGm, SacksTakenPerGm)
    case DefInt => Product(IntPerGm, IntAlwPerGm)
    case DefFumble => Product(FumblePerGm, FumbleLostPerGm)
    case DefStTdAlw =>
      SumProduct((PassTdAlwPerGm, RushTdAlwPerGm, DefStTdAlwPerGm), (PassTdPerGm, RushTdPerGm, DefStTdPerGm))
    case DefStYrdAlw =>
      SumProduct((PassYrdAlwPerGm, RushYrdAlwPerGm, ReturnYrdsAlwPerGm), (PassYrdPerGm, RushYrdPerGm, ReturnYrdsPerGm))
    case KckPts => Product(KckPtsPerGm, KckPtsAlwPerGm)
    case RzDiff => RedZoneDifferential
    case ToDiff => TurnoverDifferential
  }

  // NaN-propagating arithmetic on cells

  function Mul(a: Option<real>, b: Option<real>): Option<real> {
    if a.Some? && b.Some? then Some(a.value * b.value) else None
  }

  function Add(a: Option<real>, b: Option<real>): Option<real> {
    if a.Some? && b.Some? then Some(a.value + b.value) else None
  }

  function Sub(a: Option<real>, b: Option<real>): Option<real> {
    if a.Some? && b.Some? then Some(a.value - b.value) else None
  }

  function Div(a: Option<real>, b: Option<real>): Option<real> {
    if a.Some? && b.Some? then Divide(a.value, b.value) else None
  }

  /** Element-wise combination of two equally long columns. */
  function Zip(a: seq<Option<real>>, b: seq<Option<real>>, op: (Option<real>, Option<real>) -> Option<real>)
    : (r: seq<Option<real>>)
    requires |a| == |b|
    ensures |r| == |a|
  {
    seq(|a|, i requires 0 <= i < |a| => op(a[i], b[i]))
  }

  /** A formula on one game: the row picked for the team and the row picked
      for its opponent. The column arithmetic of pandas is element-wise, so a
      projected column is this value game by game. */
  function Evaluate(f: Formula, t: TeamTotal, o: TeamTotal): Option<real>
    requires |t.counters| == Width && |o.counters| == Width
  {
    match f
    case Product(ownRate, allowed) =>
      Mul(RateValue(t, ownRate), RateValue(o, allowed))
    case SumProduct(a, b) =>
      Mul(Add(Add(RateValue(t, a.0), RateValue(t, a.1)), RateValue(t, a.2)),
          Add(Add(RateValue(o, b.0), RateValue(o, b.1)), RateValue(o, b.2)))
    case RedZoneDifferential =>
      Sub(Div(Cell(t, Raw(RedzoneCon)), Cell(t, Raw(RedzoneAtt))),
          Sub(Some(1.0), Div(Cell(o, Raw(RedzoneConAlw)), Cell(o, Raw(RedzoneAttAlw)))))
    case TurnoverDifferential =>
      Sub(Add(Cell(t, Raw(DefInts)), Cell(t, Raw(FumbleRec))),
          Add(Cell(o, Raw(IntThrown)), Cell(o, Raw(FumbleLost))))
  }

  /** A formula evaluated on the rows picked for the teams and for their
      opponents. */
  function Combine(f: Formula, own: seq<TeamTotal>, opp: seq<TeamTotal>): (r: seq<Option<real>>)
    requires Shaped(own) && Shaped(opp) && |own| == |opp|
    ensures |r| == |own|
  {
    seq(|own|, i requires 0 <= i < |own| => Evaluate(f, own[i], opp[i]))
  }

  /** One projected column of this_week: every lookup of the team column
      precedes those of the opponent column, so an unknown team is reported
      before an unknown opponent. */
  function ProjectColumn(prior: seq<TeamTotal>, schedule: seq<Matchup>, s: Stat)
    : (r: Result<seq<Option<real>>, ScoreError>)
    requires Shaped(prior)
    ensures r.Success? <==> Known(prior, Teams(schedule)) && Known(prior, Opponents(schedule))
    ensures r.Success? ==> |r.value| == |schedule|
    ensures r.Failure? ==> FindTeam(prior, r.error.team).None? &&
                           (r.error.team in Teams(schedule) || r.error.team in Opponents(schedule))
    ensures r.Failure? && !Known(prior, Teams(schedule)) ==> r.error.team in Teams(schedule)
  {
    var own :- Resolve(prior, Teams(schedule));
    var opp :- Resolve(prior, Opponents(schedule));
    ResolvedShaped(prior, Teams(schedule));
    ResolvedShaped(prior, Opponents(schedule));
    Success(Combine(FormulaOf(s), own, opp))
  }

  /** Every projected column performs the same lookups, so all of them
      succeed or all fail with the same error. */
  lemma SameOutcome(prior: seq<TeamTotal>, schedule: seq<Matchup>, s: Stat, t: Stat)
    requires Shaped(prior)
    ensures ProjectColumn(prior, schedule, s).Success? == ProjectColumn(prior, schedule, t).Success?
    ensures ProjectColumn(prior, schedule, s).Failure? ==>
              ProjectColumn(prior, schedule, s).error == ProjectColumn(prior, schedule, t).error
  {
  }

  /** rec_td and rec_1st_down are computed from the passing rates. */
  lemma ReceivingMirrorsPassing(prior: seq<TeamTotal>, schedule: seq<Matchup>)
    requires Shaped(prior)
    ensures ProjectColumn(prior, schedule, RecTd) == ProjectColumn(prior, schedule, PassTd)
    ensures ProjectColumn(prior, schedule, RecFirstDown) == ProjectColumn(prior, schedule, PassFirstDown)
  {
  }

  /** Game i of a successful projection is the formula on the first row of
      the game's team and the first row of its opponent. */
  lemma {:induction false} ProjectedGame(prior: seq<TeamTotal>, schedule: seq<Matchup>, s: Stat, i: nat)
    requires Shaped(prior) && i < |schedule|
    requires ProjectColumn(prior, schedule, s).Success?
    ensures var t := prior[FindTeam(prior, schedule[i].team).value];
      var o := prior[FindTeam(prior, schedule[i].oppn).value];
      && |t.counters| == Width && |o.counters| == Width
      && ProjectColumn(prior, schedule, s).value[i] == Evaluate(FormulaOf(s), t, o)
  {
    var own := Resolve(prior, Teams(schedule)).value;
    var opp := Resolve(prior, Opponents(schedule)).value;
    ResolvedShaped(prior, Teams(schedule));
    ResolvedShaped(prior, Opponents(schedule));
    assert own[i] in own && opp[i] in opp;
  }

  /** A product projection is the element-wise product of the two
      get_values_list columns: each game's team rate times its opponent's
      allowed rate. */
  lemma ProductProjection(prior: seq<TeamTotal>, schedule: seq<Matchup>, s: Stat)
    requires Shaped(prior) && FormulaOf(s).Product?
    requires ProjectColumn(prior, schedule, s).Success?
    ensures var f := FormulaOf(s);
      ProjectColumn(prior, schedule, s).value ==
        Zip(GetValuesList(prior, Teams(schedule), Derived(f.own)).value,
            GetValuesList(prior, Opponents(schedule), Derived(f.allowed)).value, Mul)
    ensures var f := FormulaOf(s);
      forall i :: 0 <= i < |schedule| ==>
        ProjectColumn(prior, schedule, s).value[i] ==
          Mul(RateValue(prior[FindTeam(prior, schedule[i].team).value], f.own),
              RateValue(prior[FindTeam(prior, schedule[i].oppn).value], f.allowed))
  {
    var f := FormulaOf(s);
    var r := ProjectColumn(prior, schedule, s).value;
    var a := GetValuesList(prior, Teams(schedule), Derived(f.own)).value;
    var b := GetValuesList(prior, Opponents(schedule), Derived(f.allowed)).value;
    forall i | 0 <= i < |schedule|
      ensures r[i] == Mul(RateValue(prior[FindTeam(prior, schedule[i].team).value], f.own),
                          RateValue(prior[FindTeam(prior, schedule[i].oppn).value], f.allowed))
      ensures r[i] == Mul(a[i], b[i])
    {
      ProjectedGame(prior, schedule, s, i);
    }
  }

  /** The turnover differential of one game never is NaN: it is the team's
      takeaways minus the opponent's giveaways. */
  lemma TurnoverValue(t: TeamTotal, o: TeamTotal)
    requires |t.counters| == Width && |o.counters| == Width
    ensures var d := Evaluate(TurnoverDifferential, t, o);
      && d.Some?
      && d.value == (t.counters[DefInts] as real + t.counters[FumbleRec] as real) -
                    (o.counters[IntThrown] as real + o.counters[FumbleLost] as real)
  {
  }

  /** The red-zone differential of one game is defined exactly when both
      attempt counts are non-zero. */
  lemma RedZoneValue(t: TeamTotal, o: TeamTotal)
    requires |t.counters| == Width && |o.counters| == Width
    ensures var con, att := t.counters[RedzoneCon] as real, t.counters[RedzoneAtt] as real;
      var conAlw, attAlw := o.counters[RedzoneConAlw] as real, o.counters[RedzoneAttAlw] as real;
      var d := Evaluate(RedZoneDifferential, t, o);
      && (d.Some? <==> att != 0.0 && attAlw != 0.0)
      && (d.Some? ==> d.value == con / att - (1.0 - conAlw / attAlw))
  {
  }

  /** to_diff of game i: the team's interceptions plus fumble recoveries
      minus the opponent's interceptions thrown plus fumbles lost, on the
      summed counters of their rows; never NaN. */
  lemma TurnoverProjection(prior: seq<TeamTotal>, schedule: seq<Matchup>, s: Stat, i: nat)
    requires Shaped(prior) && i < |schedule|
    requires FormulaOf(s) == TurnoverDifferential && ProjectColumn(prior, schedule, s).Success?
    ensures var t := prior[FindTeam(prior, schedule[i].team).value];
      var o := prior[FindTeam(prior, schedule[i].oppn).value];
      && |t.counters| == Width && |o.counters| == Width
      && var d := ProjectColumn(prior, schedule, s).value[i];
         && d.Some?
         && d.value == (t.counters[DefInts] as real + t.counters[FumbleRec] as real) -
                       (o.counters[IntThrown] as real + o.counters[FumbleLost] as real)
  {
    ProjectedGame(prior, schedule, s, i);
    TurnoverValue(prior[FindTeam(prior, schedule[i].team).value], prior[FindTeam(prior, schedule[i].oppn).value]);
  }

  /** rz_diff of game i: the team's red-zone conversions over attempts minus
      one minus the opponent's allowed conversions over allowed attempts;
      NaN exactly when either attempt count is zero. */
  lemma RedZoneProjection(prior: seq<TeamTotal>, schedule: seq<Matchup>, s: Stat, i: nat)
    requires Shaped(prior) && i < |schedule|
    requires FormulaOf(s) == RedZoneDifferential && ProjectColumn(prior, schedule, s).Success?
    ensures var t := prior[FindTeam(prior, schedule[i].team).value];
      var o := prior[FindTeam(prior, schedule[i].oppn).value];
      && |t.counters| == Width && |o.counters| == Width
      && var con, att := t.counters[RedzoneCon] as real, t.counters[RedzoneAtt] as real;
         var conAlw, attAlw := o.counters[RedzoneConAlw] as real, o.counters[RedzoneAttAlw] as real;
         var d := ProjectColumn(prior, schedule, s).value[i];
         && (d.Some? <==> att != 0.0 && attAlw != 0.0)
         && (d.Some? ==> d.value == con / att - (1.0 - conAlw / attAlw))
  {
    ProjectedGame(prior, schedule, s, i);
    RedZoneValue(prior[FindTeam(prior, schedule[i].team).value], prior[FindTeam(prior, schedule[i].oppn).value]);
  }

  /** def_st_td_alw and def_st_yrd_alw of game i: the sum of the team's three
      allowed rates times the sum of the opponent's three rates. */
  lemma SumProductProjection(prior: seq<TeamTotal>, schedule: seq<Matchup>, s: Stat, i: nat)
    requires Shaped(prior) && i < |schedule| && FormulaOf(s).SumProduct?
    requires ProjectColumn(prior, schedule, s).Success?
    ensures var a, b := FormulaOf(s).ownRates, FormulaOf(s).opponentRates;
      var t := prior[FindTeam(prior, schedule[i].team).value];
      var o := prior[FindTeam(prior, schedule[i].oppn).value];
      && |t.counters| == Width && |o.counters| == Width
      && ProjectColumn(prior, schedule, s).value[i] ==
           Mul(Add(Add(RateValue(t, a.0), RateValue(t, a.1)), RateValue(t, a.2)),
               Add(Add(RateValue(o, b.0), RateValue(o, b.1)), RateValue(o, b.2)))
  {
    ProjectedGame(prior, schedule, s, i);
  }

  /** Both sum-product projections use only per-game rates. */
  lemma SumProductsArePerGame(s: Stat)
    requires FormulaOf(s).SumProduct?
    ensures var a, b := FormulaOf(s).ownRates, FormulaOf(s).opponentRates;
      && Definition(a.0).denominator == GamesPlayed && Definition(a.1).denominator == GamesPlayed
      && Definition(a.2).denominator == GamesPlayed && Definition(b.0).denominator == GamesPlayed
      && Definition(b.1).denominator == GamesPlayed && Definition(b.2).denominator == GamesPlayed
  {
  }

  /** The per-game rate read for a team that get_values_list finds in the
      aggregate is its mean per game over its games in the window. */
  lemma {:induction false} LookedUpRate(rows: seq<Row>, numWeeks: int, team: string, r: Rate)
    requires WellFormed(rows) && Definition(r).denominator == GamesPlayed
    requires FindTeam(AggWeek(rows, numWeeks), team).Some?
    ensures var games := WindowRows(rows, numWeeks, team);
      && |games| >= 1 && WellFormed(games)
      && RateValue(AggWeek(rows, numWeeks)[FindTeam(AggWeek(rows, numWeeks), team).value], r) ==
           Some(WindowSum(games, Definition(r).numerator) as real / |games| as real)
  {
    PerGameRateIsWindowMean(rows, numWeeks, FindTeam(AggWeek(rows, numWeeks), team).value, r);
  }

  /** End to end, for the projections whose two rates are both per game
      (pass_td, rush_yrd, def_sack, kck_pts, ...): a game's projection is the
      team's mean per game over its games in the window times the opponent's
      mean per game of the allowed counters over the opponent's games. */
  lemma PerGameProjection(rows: seq<Row>, numWeeks: int, schedule: seq<Matchup>, s: Stat, i: nat,
                          own: Rate, allowed: Rate)
    requires WellFormed(rows) && i < |schedule|
    requires FormulaOf(s) == Product(own, allowed)
    requires Definition(own).denominator == GamesPlayed && Definition(allowed).denominator == GamesPlayed
    requires ProjectColumn(AggWeek(rows, numWeeks), schedule, s).Success?
    ensures var teamGames := WindowRows(rows, numWeeks, schedule[i].team);
      var oppGames := WindowRows(rows, numWeeks, schedule[i].oppn);
      && |teamGames| >= 1 && |oppGames| >= 1
      && WellFormed(teamGames) && WellFormed(oppGames)
      && ProjectColumn(AggWeek(rows, numWeeks), schedule, s).value[i] ==
           Mul(Some(WindowSum(teamGames, Definition(own).numerator) as real / |teamGames| as real),
               Some(WindowSum(oppGames, Definition(allowed).numerator) as real / |oppGames| as real))
  {
    ProductProjection(AggWeek(rows, numWeeks), schedule, s);
    LookedUpRate(rows, numWeeks, schedule[i].team, own);
    LookedUpRate(rows, numWeeks, schedule[i].oppn, allowed);
  }

  /** The summed counters of a team that get_values_list finds in the
      aggregate are the sums over its games in the window. */
  lemma {:induction false} LookedUpTotals(rows: seq<Row>, numWeeks: int, team: string)
    requires WellFormed(rows)
    requires FindTeam(AggWeek(rows, numWeeks), team).Some?
    ensures var games := WindowRows(rows, numWeeks, team);
      var t := AggWeek(rows, numWeeks)[FindTeam(AggWeek(rows, numWeeks), team).value];
      && |games| >= 1 && WellFormed(games) && |t.counters| == Width
      && forall c: Counter :: t.counters[c] == Total(games, c)
  {
    AggWeekRows(rows, numWeeks);
    WindowRowsShaped(rows, numWeeks, team);
  }

  /** End to end, to_diff of a game is the team's interceptions plus fumble
      recoveries over its games in the window minus the opponent's
      interceptions thrown plus fumbles lost over the opponent's games. */
  lemma TurnoverDifferentialOfWindow(rows: seq<Row>, numWeeks: int, schedule: seq<Matchup>, s: Stat, i: nat)
    requires WellFormed(rows) && i < |schedule|
    requires FormulaOf(s) == TurnoverDifferential && ProjectColumn(AggWeek(rows, numWeeks), schedule, s).Success?
    ensures var teamGames := WindowRows(rows, numWeeks, schedule[i].team);
      var oppGames := WindowRows(rows, numWeeks, schedule[i].oppn);
      && WellFormed(teamGames) && WellFormed(oppGames)
      && var d := ProjectColumn(AggWeek(rows, numWeeks), schedule, s).value[i];
         && d.Some?
         && d.value == (Total(teamGames, DefInts) as real + Total(teamGames, FumbleRec) as real) -
                       (Total(oppGames, IntThrown) as real + Total(oppGames, FumbleLost) as real)
  {
    TurnoverProjection(AggWeek(rows, numWeeks), schedule, s, i);
    LookedUpTotals(rows, numWeeks, schedule[i].team);
    LookedUpTotals(rows, numWeeks, schedule[i].oppn);
  }

  /** End to end, rz_diff of a game is the team's red-zone conversions over
      attempts in the window minus one minus the opponent's allowed
      conversions over allowed attempts; NaN exactly when the team had no
      red-zone attempt or the opponent allowed none. */
  lemma RedZoneDifferentialOfWindow(rows: seq<Row>, numWeeks: int, schedule: seq<Matchup>, s: Stat, i: nat)
    requires WellFormed(rows) && i < |schedule|
    requires FormulaOf(s) == RedZoneDifferential && ProjectColumn(AggWeek(rows, numWeeks), schedule, s).Success?
    ensures var teamGames := WindowRows(rows, numWeeks, schedule[i].team);
      var oppGames := WindowRows(rows, numWeeks, schedule[i].oppn);
      && WellFormed(teamGames) && WellFormed(oppGames)
      && var con, att := Total(teamGames, RedzoneCon) as real, Total(teamGames, RedzoneAtt) as real;
         var conAlw, attAlw := Total(oppGames, RedzoneConAlw) as real, Total(oppGames, RedzoneAttAlw) as real;
         var d := ProjectColumn(AggWeek(rows, numWeeks), schedule, s).value[i];
         && (d.Some? <==> att != 0.0 && attAlw != 0.0)
         && (d.Some? ==> d.value == con / att - (1.0 - conAlw / attAlw))
  {
    RedZoneProjection(AggWeek(rows, numWeeks), schedule, s, i);
    LookedUpTotals(rows, numWeeks, schedule[i].team);
    LookedUpTotals(rows, numWeeks, schedule[i].oppn);
  }

  /** The mean per game of a sum of counters over a team's games. */
  function PerGameMean(games: seq<Row>, cs: seq<Counter>): real
    requires WellFormed(games) && |games| >= 1
  {
    WindowSum(games, cs) as real / |games| as real
  }

  /** The per-game window means of three rates' counters, added up. */
  function MeansOfThree(games: seq<Row>, rs: (Rate, Rate, Rate)): real
    requires WellFormed(games) && |games| >= 1
  {
    PerGameMean(games, Definition(rs.0).numerator) +
    PerGameMean(games, Definition(rs.1).numerator) +
    PerGameMean(games, Definition(rs.2).numerator)
  }

  /** The sum of three per-game rates of a team found in the aggregate is
      the sum of its three per-game window means. With SumProductProjection
      and SumProductsArePerGame this gives def_st_td_alw and def_st_yrd_alw in
      terms of the box scores of the window. */
  lemma {:induction false} ThreeRatesOfWindow(rows: seq<Row>, numWeeks: int, team: string, a: (Rate, Rate, Rate))
    requires WellFormed(rows) && FindTeam(AggWeek(rows, numWeeks), team).Some?
    requires Definition(a.0).denominator == GamesPlayed && Definition(a.1).denominator == GamesPlayed
    requires Definition(a.2).denominator == GamesPlayed
    ensures var games := WindowRows(rows, numWeeks, team);
      var t := AggWeek(rows, numWeeks)[FindTeam(AggWeek(rows, numWeeks), team).value];
      && |games| >= 1 && WellFormed(games) && |t.counters| == Width
      && var sum := Add(Add(RateValue(t, a.0), RateValue(t, a.1)), RateValue(t, a.2));
         && sum.Some?
         && sum.value == MeansOfThree(games, a)
  {
    LookedUpRate(rows, numWeeks, team, a.0);
    LookedUpRate(rows, numWeeks, team, a.1);
    LookedUpRate(rows, numWeeks, team, a.2);
    LookedUpTotals(rows, numWeeks, team);
  }

  /** A two-team example: AAA threw 5 touchdown passes in 2 games and BBB
      allowed 2 in 2 games, so AAA's projected pass_td against BBB is
      2.5 * 1.0. An opponent without a row fails the request. */
  lemma TwoTeamExample()
    ensures var aaa := TeamTotal("AAA", seq(Width, c => if c == PassTds then 5 else 0), 2);
      var bbb := TeamTotal("BBB", seq(Width, c => if c == PassTdsAlw then 2 else 0), 2);
      && ProjectColumn([aaa, bbb], [Matchup(1, "AAA", "BBB", false)], PassTd) == Success([Some(2.5)])
      && ProjectColumn([aaa], [Matchup(1, "AAA", "BBB", false)], PassTd) == Failure(UnknownTeam("BBB"))
  {
    var aaa := TeamTotal("AAA", seq(Width, c => if c == PassTds then 5 else 0), 2);
    var bbb := TeamTotal("BBB", seq(Width, c => if c == PassTdsAlw then 2 else 0), 2);
    var schedule := [Matchup(1, "AAA", "BBB", false)];
    assert FindTeam([aaa, bbb], "BBB") == Some(1);
    assert FindTeam([aaa], "BBB") == None;
    assert SumOf(aaa, [PassTds]) == 5 by {
      assert aaa.counters[PassTds] == 5;
    }
    assert SumOf(bbb, [PassTdsAlw]) == 2 by {
      assert bbb.counters[PassTdsAlw] == 2;
    }
    assert RateValue(aaa, PassTdPerGm) == Some(2.5);
    assert RateValue(bbb, PassTdAlwPerGm) == Some(1.0);
    ProductProjection([aaa, bbb], schedule, PassTd);
    assert ProjectColumn([aaa, bbb], schedule, PassTd).value[0] == Some(2.5);
    assert ProjectColumn([aaa, bbb], schedule, PassTd).value == [Some(2.5)];
    assert Resolve([aaa], Teams(schedule)).Success?;
    assert Resolve([aaa], Opponents(schedule)) == Failure(UnknownTeam("BBB"));
  }
}
