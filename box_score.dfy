/** The columns of the weekly team box-score table (tm_game_data) that the
    rankings read. A row holds the team, the week and one integer counter per
    column below; the position of a counter in `counters` is its index here. */
module BoxScore {

  /** Number of box-score counters the rankings read. */
  const Width: nat := 45

  type Counter = c: nat | c < Width

  const PassTds: Counter := 0  // pass_tds
  const PassTdsAlw: Counter := 1  // pass_tds_alw
  const TotYrdsPass: Counter := 2  // tot_yrds_pass
  const TotYrdsPassAlw: Counter := 3  // tot_yrds_pass_alw
  const PassAtt: Counter := 4  // pass_att
  const PassAttAlw: Counter := 5  // pass_att_alw
  const FirstDwnPass: Counter := 6  // 1st_dwn_pass
  const FirstDwnPassAlw: Counter := 7  // 1st_dwn_pass_alw
  const RushTds: Counter := 8  // rush_tds
  const RushTdsAlw: Counter := 9  // rush_tds_alw
  const TotRushYrds: Counter := 10  // tot_rush_yrds
  const TotRushYrdsAlw: Counter := 11  // tot_rush_yrds_alw
  const RushAtt: Counter := 12  // rush_att
  const RushAttAlw: Counter := 13  // rush_att_alw
  const FirstDwnRush: Counter := 14  // 1st_dwn_rush
  const FirstDwnRushAlw: Counter := 15  // 1st_dwn_rush_alw
  const TotRecYrds: Counter := 16  // tot_rec_yrds
  const TotRecYrdsAlw: Counter := 17  // tot_rec_yrds_alw
  const RecTargets: Counter := 18  // rec_targets
  const RecTargetsAlw: Counter := 19  // rec_targets_alw
  const TotRec: Counter := 20  // tot_rec
  const TotRecAlw: Counter := 21  // tot_rec_alw
  const DefTds: Counter := 22  // def_tds
  const KickRetTds: Counter := 23  // kick_ret_tds
  const PuntRetTds: Counter := 24  // punt_ret_tds
  const DefTdsAlw: Counter := 25  // def_tds_alw
  const KickRetTdsAlw: Counter := 26  // kick_ret_tds_alw
  const PuntRetTdsAlw: Counter := 27  // punt_ret_tds_alw
  const FumbleRec: Counter := 28  // fumble_rec
  const FumbleLost: Counter := 29  // fumble_lost
  const DefInts: Counter := 30  // def_ints
  const DefIntsAlw: Counter := 31  // def_ints_alw
  const TotSck: Counter := 32  // tot_sck
  const SacksTaken: Counter := 33  // sacks_taken
  const KickPts: Counter := 34  // kick_pts
  const KickPtsAlw: Counter := 35  // kick_pts_alw
  const KickRetYrds: Counter := 36  // kick_ret_yrds
  const PuntRetYrds: Counter := 37  // punt_ret_yrds
  const KickRetYrdsAlw: Counter := 38  // kick_ret_yrds_alw
  const PuntRetYrdsAlw: Counter := 39  // punt_ret_yrds_alw
  const RedzoneCon: Counter := 40  // redzone_con
  const RedzoneAtt: Counter := 41  // redzone_att
  const RedzoneConAlw: Counter := 42  // redzone_con_alw
  const RedzoneAttAlw: Counter := 43  // redzone_att_alw
  const IntThrown: Counter := 44  // int_thrown

  /** One row of the box-score table: a team's statistics in one week. */
  datatype Row = Row(team: string, week: int, counters: seq<int>)

  /** Every row carries every column (a table has no ragged rows). */
  predicate WellFormed(rows: seq<Row>) {
    forall x :: x in rows ==> |x.counters| == Width
  }
}
