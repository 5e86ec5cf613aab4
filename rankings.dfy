/** The dashboard's two table callbacks (app.py:207-404) over the tables the
    app loads once at start-up (app.py:16-22): the roster table of one
    owner's week, and the matchup rankings whose projections, ranks, labels
    and group scores live in module-level data frames that every call
    updates in place. */
module Rankings {
  import opened Wrappers
  import opened Order
  import opened BoxScore
  import opened Aggregation
  import opened Projection
  import opened Ranking

  // ---------------------------------------------------------------------
  // Column lists (app.py:40-46) and group positions (app.py:396-400)

  /** ascending_false: ranked largest first. */
  const RankedDescending: seq<Stat> :=
    [PassTd, Stat.PassYrdPerPass, PassFirstDown, PassYrd, RushTd, Stat.RushYrdPerRush, RushFirstDown, RushYrd,
     RecTd, Stat.RecYrdPerTar, RecFirstDown, Stat.RecYrdPerGm, Stat.RecPerGm, DefStTd, DefSack, DefInt, DefFumble,
     KckPts, RzDiff, ToDiff]

  /** ascending_true: ranked smallest first. */
  const RankedAscending: seq<Stat> := [DefStTdAlw, DefStYrdAlw]

  /** The order in which update_table assigns the projected columns of
      this_week. */
  const AssignmentOrder: seq<Stat> :=
    [PassTd, Stat.PassYrdPerPass, PassFirstDown, PassYrd, RushTd, Stat.RushYrdPerRush, RushFirstDown, RushYrd,
     RecTd, Stat.RecYrdPerGm, Stat.RecYrdPerTar, Stat.RecPerGm, RecFirstDown, DefStTd, DefSack, DefInt, DefFumble,
     DefStTdAlw, DefStYrdAlw, KckPts, RzDiff, ToDiff]

  function DirectionOf(s: Stat): Direction {
    if s in RankedAscending then Ascending else Descending
  }

  /** Every stat is projected and ranked. */
  lemma ColumnListsCover()
    ensures forall s: Stat :: s in AssignmentOrder && s in RankedDescending + RankedAscending
  {
    forall s: Stat ensures s in AssignmentOrder {
      match s
      case PassTd => assert AssignmentOrder[0] == s;
      case PassYrdPerPass => assert AssignmentOrder[1] == s;
      case PassFirstDown => assert AssignmentOrder[2] == s;
      case PassYrd => assert AssignmentOrder[3] == s;
      case RushTd => assert AssignmentOrder[4] == s;
      case RushYrdPerRush => assert AssignmentOrder[5] == s;
      case RushFirstDown => assert AssignmentOrder[6] == s;
      case RushYrd => assert AssignmentOrder[7] == s;
      case RecTd => assert AssignmentOrder[8] == s;
      case RecYrdPerTar => assert AssignmentOrder[10] == s;
      case RecFirstDown => assert AssignmentOrder[12] == s;
      case RecYrdPerGm => assert AssignmentOrder[9] == s;
      case RecPerGm => assert AssignmentOrder[11] == s;
      case DefStTd => assert AssignmentOrder[13] == s;
      case DefSack => assert AssignmentOrder[14] == s;
      case DefInt => assert AssignmentOrder[15] == s;
      case DefFumble => assert AssignmentOrder[16] == s;
      case KckPts => assert AssignmentOrder[19] == s;
      case RzDiff => assert AssignmentOrder[20] == s;
      case ToDiff => assert AssignmentOrder[21] == s;
      case DefStTdAlw => assert AssignmentOrder[17] == s;
      case DefStYrdAlw => assert AssignmentOrder[18] == s;
    }
    forall s: Stat ensures s in RankedDescending || s in RankedAscending {
      match s
      case PassTd => assert RankedDescending[0] == s;
      case PassYrdPerPass => assert RankedDescending[1] == s;
      case PassFirstDown => assert RankedDescending[2] == s;
      case PassYrd => assert RankedDescending[3] == s;
      case RushTd => assert RankedDescending[4] == s;
      case RushYrdPerRush => assert RankedDescending[5] == s;
      case RushFirstDown => assert RankedDescending[6] == s;
      case RushYrd => assert RankedDescending[7] == s;
      case RecTd => assert RankedDescending[8] == s;
      case RecYrdPerTar => assert RankedDescending[9] == s;
      case RecFirstDown => assert RankedDescending[10] == s;
      case RecYrdPerGm => assert RankedDescending[11] == s;
      case RecPerGm => assert RankedDescending[12] == s;
      case DefStTd => assert RankedDescending[13] == s;
      case DefSack => assert RankedDescending[14] == s;
      case DefInt => assert RankedDescending[15] == s;
      case DefFumble => assert RankedDescending[16] == s;
      case KckPts => assert RankedDescending[17] == s;
      case RzDiff => assert RankedDescending[18] == s;
      case ToDiff => assert RankedDescending[19] == s;
      case DefStTdAlw => assert RankedAscending[0] == s;
      case DefStYrdAlw => assert RankedAscending[1] == s;
    }
  }

  lemma RankedDirectionsDisjoint()
    ensures forall i :: 0 <= i < |RankedDescending| ==> RankedDescending[i] !in RankedAscending
  {
  }

  /** this_week_rank holds week, team_abv, oppn and home before the ranked
      columns, which it gains in the order the two rank loops assign them. */
  const LeadingColumns: nat := 4

  function ColumnAt(p: nat): Stat
    requires LeadingColumns <= p < LeadingColumns + |RankedDescending + RankedAscending|
  {
    (RankedDescending + RankedAscending)[p - LeadingColumns]
  }

  datatype Position = QB | RB | WRTE | DEF | KICK

  const AllPositions: set<Position> := {QB, RB, WRTE, DEF, KICK}

  /** The `iloc` column positions averaged into each group score. */
  function Positions(p: Position): (r: seq<nat>)
    ensures forall j :: 0 <= j < |r| ==> LeadingColumns <= r[j] < LeadingColumns + |RankedDescending + RankedAscending|
  {
    match p
    case QB => [4, 5, 6, 7, 22, 23]
    case RB => [8, 9, 10, 11, 22, 23]
    case WRTE => [12, 13, 14, 15, 16, 22, 23]
    case DEF => [17, 18, 19, 20, 22, 23, 24, 25]
    case KICK => [21, 22, 23]
  }

  /** The ranked stats a group score averages. */
  function Members(p: Position): (r: seq<Stat>)
    ensures |r| == |Positions(p)|
  {
    var ps := Positions(p);
    seq(|ps|, j requires 0 <= j < |ps| => ColumnAt(ps[j]))
  }

  /** The positions pick the stats their group is named for; the red-zone
      and turnover differentials count toward every group. */
  lemma GroupMembers()
    ensures Members(QB) == [PassTd, Stat.PassYrdPerPass, PassFirstDown, PassYrd, RzDiff, ToDiff]
    ensures Members(RB) == [RushTd, Stat.RushYrdPerRush, RushFirstDown, RushYrd, RzDiff, ToDiff]
    ensures Members(WRTE) == [RecTd, Stat.RecYrdPerTar, RecFirstDown, Stat.RecYrdPerGm, Stat.RecPerGm, RzDiff, ToDiff]
    ensures Members(DEF) == [DefStTd, DefSack, DefInt, DefFumble, RzDiff, ToDiff, DefStTdAlw, DefStYrdAlw]
    ensures Members(KICK) == [KckPts, RzDiff, ToDiff]
  {
  }

  // ---------------------------------------------------------------------
  // The rankings table as functions of the inputs

  /** A column per stat, each as long as the schedule. */
  predicate Complete(cols: map<Stat, seq<Option<real>>>, n: nat) {
    forall s: Stat :: s in cols && |cols[s]| == n
  }

  /** All projected columns of this_week. */
  function ProjectAll(prior: seq<TeamTotal>, schedule: seq<Matchup>): (m: map<Stat, seq<Option<real>>>)
    requires Shaped(prior) && Known(prior, Teams(schedule)) && Known(prior, Opponents(schedule))
    ensures Complete(m, |schedule|)
  {
    ColumnListsCover();
    map s: Stat | s in AssignmentOrder :: ProjectColumn(prior, schedule, s).value
  }

  /** A map holding the projected column of every statistic is the whole
      projection. */
  lemma AssignedAll(prior: seq<TeamTotal>, schedule: seq<Matchup>, projected: map<Stat, seq<Option<real>>>)
    requires Shaped(prior) && Known(prior, Teams(schedule)) && Known(prior, Opponents(schedule))
    requires forall j :: 0 <= j < |AssignmentOrder| ==>
               AssignmentOrder[j] in projected &&
               projected[AssignmentOrder[j]] == ProjectColumn(prior, schedule, AssignmentOrder[j]).value
    ensures projected == ProjectAll(prior, schedule)
  {
    ColumnListsCover();
    forall s: Stat ensures s in projected && projected[s] == ProjectAll(prior, schedule)[s] {
      assert s in AssignmentOrder;
      var j :| 0 <= j < |AssignmentOrder| && AssignmentOrder[j] == s;
    }
  }

  /** The columns of this_week_rank. */
  function RankAll(projected: map<Stat, seq<Option<real>>>, n: nat): (m: map<Stat, seq<Option<real>>>)
    requires Complete(projected, n)
    ensures Complete(m, n)
  {
    ColumnListsCover();
    map s: Stat | s in RankedDescending + RankedAscending :: AverageRank(projected[s], DirectionOf(s))
  }

  /** A column list is a map whose keys are all the stats, so two of them
      agree when they agree on every stat. */
  lemma RankAllAt(projected: map<Stat, seq<Option<real>>>, n: nat, ranks: map<Stat, seq<Option<real>>>)
    requires Complete(projected, n)
    requires forall s: Stat :: s in ranks && ranks[s] == AverageRank(projected[s], DirectionOf(s))
    ensures ranks == RankAll(projected, n)
  {
    ColumnListsCover();
  }

  /** What the two rank loops leave: each stat ranked in its direction. */
  lemma RanksByDirection(projected: map<Stat, seq<Option<real>>>, ranks: map<Stat, seq<Option<real>>>)
    requires forall i :: 0 <= i < |RankedDescending| ==>
      RankedDescending[i] in ranks && RankedDescending[i] in projected &&
      ranks[RankedDescending[i]] == AverageRank(projected[RankedDescending[i]], Descending)
    requires forall i :: 0 <= i < |RankedAscending| ==>
      RankedAscending[i] in ranks && RankedAscending[i] in projected &&
      ranks[RankedAscending[i]] == AverageRank(projected[RankedAscending[i]], Ascending)
    ensures forall s: Stat :: s in ranks && s in projected && ranks[s] == AverageRank(projected[s], DirectionOf(s))
  {
    ColumnListsCover();
    RankedDirectionsDisjoint();
    forall s: Stat ensures s in ranks && s in projected && ranks[s] == AverageRank(projected[s], DirectionOf(s)) {
      assert s in RankedDescending + RankedAscending;
      if s in RankedAscending {
        var i :| 0 <= i < |RankedAscending| && RankedAscending[i] == s;
      } else {
        assert s in RankedDescending;
        var i :| 0 <= i < |RankedDescending| && RankedDescending[i] == s;
      }
    }
  }

  /** One group column of this_week_rank_avg: per game, the mean of the
      group's non-null ranks. */
  function GroupScore(ranks: map<Stat, seq<Option<real>>>, p: Position, n: nat): (r: seq<Option<real>>)
    requires Complete(ranks, n)
    ensures |r| == n
  {
    var ms := Members(p);
    seq(n, i requires 0 <= i < n => MeanPresent(seq(|ms|, j requires 0 <= j < |ms| => ranks[ms[j]][i])))
  }

  function GroupScores(ranks: map<Stat, seq<Option<real>>>, n: nat): (m: map<Position, seq<Option<real>>>)
    requires Complete(ranks, n)
    ensures forall p :: p in m <==> p in AllPositions
    ensures forall p :: p in m ==> |m[p]| == n
  {
    map p | p in AllPositions :: GroupScore(ranks, p, n)
  }

  /** A row of the rankings table the callback returns. */
  datatype ScoreRow = ScoreRow(week: int, team: string, oppn: string,
                               qb: Option<real>, rb: Option<real>, wrte: Option<real>,
                               def: Option<real>, kick: Option<real>)

  /** The displayed team_abv and oppn of a game, with its week. */
  datatype Label = Label(week: int, team: string, oppn: string)

  function RoundCell(c: Option<real>): Option<real> {
    if c.Some? then Some(Round1(c.value)) else None
  }

  /** The records the callback returns: the labels with the five group
      scores rounded to one decimal. */
  function Report(labels: seq<Label>, scores: map<Position, seq<Option<real>>>): (r: seq<ScoreRow>)
    requires forall p :: p in AllPositions ==> p in scores && |scores[p]| == |labels|
    ensures |r| == |labels|
  {
    seq(|labels|, i requires 0 <= i < |labels| =>
      ScoreRow(labels[i].week, labels[i].team, labels[i].oppn,
               RoundCell(scores[QB][i]), RoundCell(scores[RB][i]), RoundCell(scores[WRTE][i]),
               RoundCell(scores[DEF][i]), RoundCell(scores[KICK][i])))
  }

  /** Every group score that is not null lies between 1 and the number of
      games on the schedule, before and after rounding. */
  lemma GroupScoreBounds(projected: map<Stat, seq<Option<real>>>, n: nat, p: Position, i: nat)
    requires Complete(projected, n) && i < n
    requires GroupScore(RankAll(projected, n), p, n)[i].Some?
    ensures var x := GroupScore(RankAll(projected, n), p, n)[i].value;
      && 1.0 <= x <= n as real
      && 1.0 <= Round1(x) <= n as real
  {
    var ranks := RankAll(projected, n);
    var ms := Members(p);
    var cells: seq<Option<real>> := seq(|ms|, j requires 0 <= j < |ms| => ranks[ms[j]][i]);
    forall j: nat | j < |cells| && cells[j].Some?
      ensures 1.0 <= cells[j].value <= n as real
    {
      var s := ms[j];
      assert cells[j] == AverageRank(projected[s], DirectionOf(s))[i];
      RankBounds(projected[s], DirectionOf(s), i);
    }
    MeanBounds(cells, 1.0, n as real);
    Round1Bounds(MeanPresent(cells).value, 1, n);
  }

  predicate InRange(c: Option<real>, n: nat) {
    c.Some? ==> 1.0 <= c.value <= n as real
  }

  /** Every score the rankings table shows lies between 1 and the number of
      games on the schedule. */
  lemma ReportBounds(projected: map<Stat, seq<Option<real>>>, labels: seq<Label>, i: nat)
    requires Complete(projected, |labels|) && i < |labels|
    ensures var n := |labels|;
      var row := Report(labels, GroupScores(RankAll(projected, n), n))[i];
      && InRange(row.qb, n) && InRange(row.rb, n) && InRange(row.wrte, n)
      && InRange(row.def, n) && InRange(row.kick, n)
  {
    var n := |labels|;
    forall p | p in AllPositions && GroupScore(RankAll(projected, n), p, n)[i].Some?
      ensures InRange(RoundCell(GroupScore(RankAll(projected, n), p, n)[i]), n)
    {
      GroupScoreBounds(projected, n, p, i);
    }
  }

  // ---------------------------------------------------------------------
  // Home/away labels (app.py:391-393)

  function InitialLabels(schedule: seq<Matchup>): (r: seq<Label>)
    ensures |r| == |schedule|
  {
    seq(|schedule|, i requires 0 <= i < |schedule| => Label(schedule[i].week, schedule[i].team, schedule[i].oppn))
  }

  /** The two `.loc` assignments: an away row's current oppn and a home
      row's current team_abv gain a leading '@'. */
  function Relabel(labels: seq<Label>, schedule: seq<Matchup>): (r: seq<Label>)
    requires |labels| == |schedule|
    ensures |r| == |labels|
    ensures forall i :: 0 <= i < |r| ==> r[i].week == labels[i].week
    ensures forall i :: 0 <= i < |r| && !schedule[i].home ==>
              r[i].oppn == "@" + labels[i].oppn && r[i].team == labels[i].team
    ensures forall i :: 0 <= i < |r| && schedule[i].home ==>
              r[i].team == "@" + labels[i].team && r[i].oppn == labels[i].oppn
  {
    var away := seq(|labels|, i requires 0 <= i < |labels| =>
      if !schedule[i].home then labels[i].(oppn := "@" + labels[i].oppn) else labels[i]);
    seq(|away|, i requires 0 <= i < |away| =>
      if schedule[i].home then away[i].(team := "@" + away[i].team) else away[i])
  }

  /** As written, the prefix is added to whatever the shared frame already
      shows, so a second refresh displays "@@" before the home team. */
  lemma RelabelAccumulates(schedule: seq<Matchup>, i: nat)
    requires i < |schedule|
    ensures var once := Relabel(InitialLabels(schedule), schedule);
      var twice := Relabel(once, schedule);
      if schedule[i].home then twice[i].team == "@@" + schedule[i].team
      else twice[i].oppn == "@@" + schedule[i].oppn
  {
    var once := Relabel(InitialLabels(schedule), schedule);
    if schedule[i].home {
      assert "@" + ("@" + schedule[i].team) == "@@" + schedule[i].team;
    } else {
      assert "@" + ("@" + schedule[i].oppn) == "@@" + schedule[i].oppn;
    }
  }

  /** The labels the comment at app.py:391 intends: the home team of every
      game marked once, computed from the schedule alone. */
  function DisplayLabels(schedule: seq<Matchup>): (r: seq<Label>)
    ensures |r| == |schedule|
  {
    Relabel(InitialLabels(schedule), schedule)
  }

  /** Removing the one '@' from the home side gives the schedule back, and
      the away side carries none that the schedule does not. */
  lemma DisplayLabelsRoundTrip(schedule: seq<Matchup>, i: nat)
    requires i < |schedule|
    ensures var l := DisplayLabels(schedule)[i];
      && l.week == schedule[i].week
      && (schedule[i].home ==> l.team[..1] == "@" && l.team[1..] == schedule[i].team && l.oppn == schedule[i].oppn)
      && (!schedule[i].home ==> l.oppn[..1] == "@" && l.oppn[1..] == schedule[i].oppn && l.team == schedule[i].team)
  {
  }

  // ---------------------------------------------------------------------
  // The module-level frames and the two callbacks

  datatype RosterEntry = RosterEntry(week: int, ownerTeam: string, slotId: int, player: string)

  /** update_table(week, team) for the roster table: that owner's roster of
      that week, ordered by slot. */
  function RosterTable(rosters: seq<RosterEntry>, week: int, team: string): (r: seq<RosterEntry>)
    ensures SortedBy(r, (e: RosterEntry) => e.slotId)
    ensures forall e :: e in r ==> e.week == week && e.ownerTeam == team
    ensures forall e: RosterEntry :: e.week == week && e.ownerTeam == team ==> multiset(r)[e] == multiset(rosters)[e]
    ensures forall e: RosterEntry :: !(e.week == week && e.ownerTeam == team) ==> multiset(r)[e] == 0
  {
    var picked := OwnerWeek(rosters, week, team);
    SortBy(picked, (e: RosterEntry) => e.slotId)
  }

  function OwnerWeek(rosters: seq<RosterEntry>, week: int, team: string): (r: seq<RosterEntry>)
    ensures forall e: RosterEntry :: e.week == week && e.ownerTeam == team ==> multiset(r)[e] == multiset(rosters)[e]
    ensures forall e: RosterEntry :: !(e.week == week && e.ownerTeam == team) ==> multiset(r)[e] == 0
  {
    if rosters == [] then []
    else
      assert rosters == [rosters[0]] + rosters[1..];
      var rest := OwnerWeek(rosters[1..], week, team);
      if rosters[0].week == week && rosters[0].ownerTeam == team then [rosters[0]] + rest else rest
  }

  class Dashboard {
    /** tm_game_data.csv */
    const boxScores: seq<Row>
    /** rosters_df.csv */
    const rosters: seq<RosterEntry>
    /** this_week.csv: one row per game, the away team in team_abv */
    const schedule: seq<Matchup>
    /** The projected columns of this_week. */
    var projected: map<Stat, seq<Option<real>>>
    /** The ranked columns of this_week_rank. */
    var ranks: map<Stat, seq<Option<real>>>
    /** week, team_abv and oppn of this_week_rank_avg. */
    var labels: seq<Label>
    /** The group columns of this_week_rank_avg. */
    var scores: map<Position, seq<Option<real>>>

    ghost predicate Valid()
      reads this
    {
      WellFormed(boxScores) && |labels| == |schedule|
    }

    /** The frames as loaded: this_week_rank_avg shows the schedule as read. */
    constructor(boxScores: seq<Row>, rosters: seq<RosterEntry>, schedule: seq<Matchup>)
      requires WellFormed(boxScores)
      ensures Valid()
      ensures this.boxScores == boxScores && this.rosters == rosters && this.schedule == schedule
      ensures projected == map[] && ranks == map[] && scores == map[]
      ensures labels == InitialLabels(schedule)
    {
      this.boxScores := boxScores;
      this.rosters := rosters;
      this.schedule := schedule;
      projected := map[];
      ranks := map[];
      scores := map[];
      labels := InitialLabels(schedule);
    }

    method UpdateRoster(week: int, team: string) returns (records: seq<RosterEntry>)
      ensures records == RosterTable(rosters, week, team)
    {
      records := RosterTable(rosters, week, team);
    }

    /** The rankings callback. A team or opponent without a row in the
        window raises before any frame changes; otherwise every frame is
        replaced as the functions above describe. */
    method UpdateRankings(numWeeks: int) returns (out: Result<seq<ScoreRow>, ScoreError>)
      requires Valid()
      modifies this
      ensures Valid()
      ensures var prior := AggWeek(boxScores, numWeeks);
        out.Success? <==> Known(prior, Teams(schedule)) && Known(prior, Opponents(schedule))
      ensures out.Failure? ==>
        && FindTeam(AggWeek(boxScores, numWeeks), out.error.team).None?
        && projected == old(projected) && ranks == old(ranks)
        && labels == old(labels) && scores == old(scores)
      ensures out.Success? ==>
        var prior := AggWeek(boxScores, numWeeks);
        && Known(prior, Teams(schedule)) && Known(prior, Opponents(schedule))
        && projected == ProjectAll(prior, schedule)
        && ranks == RankAll(projected, |schedule|)
        && labels == DisplayLabels(schedule)
        && scores == GroupScores(ranks, |schedule|)
        && out.value == Report(labels, scores)
    {
      var prior := AggWeek(boxScores, numWeeks);
      var failure := AssignProjections(prior);
      if failure.Some? {
        return Failure(failure.value);
      }
      AssignRanks();
      MarkHomeTeams();
      AssignGroupScores();
      out := Success(Report(labels, scores));
    }

    /** The projected columns, assigned one after the other. Every column
        looks up the same teams, so a lookup can only fail on the first. */
    method AssignProjections(prior: seq<TeamTotal>) returns (failure: Option<ScoreError>)
      requires Shaped(prior)
      modifies this
      ensures ranks == old(ranks) && labels == old(labels) && scores == old(scores)
      ensures failure.None? <==> Known(prior, Teams(schedule)) && Known(prior, Opponents(schedule))
      ensures failure.Some? ==> projected == old(projected) && FindTeam(prior, failure.value.team).None?
      ensures failure.None? ==> projected == ProjectAll(prior, schedule)
    {
      var k := 0;
      while k < |AssignmentOrder|
        invariant 0 <= k <= |AssignmentOrder|
        invariant k == 0 ==> projected == old(projected)
        invariant k > 0 ==> Known(prior, Teams(schedule)) && Known(prior, Opponents(schedule))
        invariant forall j :: 0 <= j < k ==>
                    AssignmentOrder[j] in projected &&
                    projected[AssignmentOrder[j]] == ProjectColumn(prior, schedule, AssignmentOrder[j]).value
        invariant ranks == old(ranks) && labels == old(labels) && scores == old(scores)
      {
        var s := AssignmentOrder[k];
        var column := ProjectColumn(prior, schedule, s);
        if column.Failure? {
          return Some(column.error);
        }
        projected := projected[s := column.value];
        k := k + 1;
      }
      AssignedAll(prior, schedule, projected);
      failure := None;
    }

    /** The two rank loops over ascending_false and ascending_true. */
    method AssignRanks()
      requires Complete(projected, |schedule|)
      modifies this
      ensures projected == old(projected) && labels == old(labels) && scores == old(scores)
      ensures ranks == RankAll(projected, |schedule|)
    {
      for j := 0 to |RankedDescending|
        invariant projected == old(projected) && labels == old(labels) && scores == old(scores)
        invariant forall i :: 0 <= i < j ==>
                    RankedDescending[i] in ranks &&
                    ranks[RankedDescending[i]] == AverageRank(projected[RankedDescending[i]], Descending)
      {
        var s := RankedDescending[j];
        ranks := ranks[s := AverageRank(projected[s], Descending)];
      }
      RankedDirectionsDisjoint();
      for j := 0 to |RankedAscending|
        invariant projected == old(projected) && labels == old(labels) && scores == old(scores)
        invariant forall i :: 0 <= i < |RankedDescending| ==>
                    RankedDescending[i] in ranks &&
                    ranks[RankedDescending[i]] == AverageRank(projected[RankedDescending[i]], Descending)
        invariant forall i :: 0 <= i < j ==>
                    RankedAscending[i] in ranks &&
                    ranks[RankedAscending[i]] == AverageRank(projected[RankedAscending[i]], Ascending)
      {
        var s := RankedAscending[j];
        ranks := ranks[s := AverageRank(projected[s], Ascending)];
      }
      RanksByDirection(projected, ranks);
      RankAllAt(projected, |schedule|, ranks);
    }

    /** Mark the home team of every game with one '@'. The marks are put on
        the labels as the schedule reads, so a refresh does not add to the
        marks of the previous one (see RelabelAccumulates). */
    method MarkHomeTeams()
      modifies this
      ensures projected == old(projected) && ranks == old(ranks) && scores == old(scores)
      ensures labels == DisplayLabels(schedule)
    {
      var shown := InitialLabels(schedule);
      shown := seq(|shown|, i requires 0 <= i < |shown| =>
        if !schedule[i].home then shown[i].(oppn := "@" + shown[i].oppn) else shown[i]);
      shown := seq(|shown|, i requires 0 <= i < |shown| =>
        if schedule[i].home then shown[i].(team := "@" + shown[i].team) else shown[i]);
      labels := shown;
      assert labels == Relabel(InitialLabels(schedule), schedule);
    }

    /** The five group columns of this_week_rank_avg. */
    method AssignGroupScores()
      requires Complete(ranks, |schedule|)
      modifies this
      ensures projected == old(projected) && ranks == old(ranks) && labels == old(labels)
      ensures scores == GroupScores(ranks, |schedule|)
    {
      var n := |schedule|;
      scores := scores[QB := GroupScore(ranks, QB, n)];
      scores := scores[RB := GroupScore(ranks, RB, n)];
      scores := scores[WRTE := GroupScore(ranks, WRTE, n)];
      scores := scores[DEF := GroupScore(ranks, DEF, n)];
      scores := scores[KICK := GroupScore(ranks, KICK, n)];
      assert scores == GroupScores(ranks, n) by {
        forall p: Position ensures p in AllPositions && p in scores && scores[p] == GroupScores(ranks, n)[p] {
          match p
          case QB =>
          case RB =>
          case WRTE =>
          case DEF =>
          case KICK =>
        }
      }
    }
  }
}
