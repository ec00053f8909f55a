/** Aggregation of per-game rows into player, clutch and team summaries (back-end statistics). */
module Statistics {
  import opened Wrappers
  import opened Numbers

  /** `r` is `x` rounded to `places` decimals: a multiple of 10^-places within half a unit of `x`. */
  predicate IsRounding(r: real, x: real, places: nat) {
    HasPlaces(r, places) && -1.0 / (2 * Pow10(places)) as real <= r - x <= 1.0 / (2 * Pow10(places)) as real
  }

  /** Python `sum(...)` over a column of integers. */
  function Sum(xs: seq<int>): int {
    if xs == [] then 0 else xs[0] + Sum(xs[1..])
  }

  /** A column bounded pointwise by another has the smaller sum. */
  lemma {:induction false} SumMonotone(xs: seq<int>, ys: seq<int>)
    requires |xs| == |ys|
    requires forall i :: 0 <= i < |xs| ==> xs[i] <= ys[i]
    ensures Sum(xs) <= Sum(ys)
  {
    if xs != [] {
      SumMonotone(xs[1..], ys[1..]);
    }
  }

  /** A column of values in [0, hi] sums to at least 0 and at most hi times its length. */
  lemma {:induction false} SumBounded(xs: seq<int>, hi: nat)
    requires forall i :: 0 <= i < |xs| ==> 0 <= xs[i] <= hi
    ensures 0 <= Sum(xs) <= hi * |xs|
  {
    if xs != [] {
      SumBounded(xs[1..], hi);
    }
  }

  /** `total / n` as Python's true division. */
  function Mean(total: int, n: nat): real
    requires n > 0
  {
    total as real / n as real
  }

  /** `made / attempted * 100` when `attempted` is truthy (non-zero), else 0. */
  function Percent(made: int, attempted: int): (r: real)
    ensures attempted == 0 ==> r == 0.0
    ensures 0 <= made <= attempted ==> 0.0 <= r <= 100.0
  {
    if attempted != 0 then RatioBounds(made, attempted); made as real / attempted as real * 100.0 else 0.0
  }

  lemma RatioBounds(made: int, attempted: int)
    requires attempted != 0
    ensures 0 <= made <= attempted ==> 0.0 <= made as real / attempted as real <= 1.0
  {
    if 0 <= made <= attempted {
      assert made as real / attempted as real * attempted as real == made as real;
    }
  }

  /** Consistent shooting totals give a rounded percentage within [0, 100]. */
  lemma PercentWithin(made: seq<int>, attempted: seq<int>, places: nat)
    requires |made| == |attempted|
    requires forall i :: 0 <= i < |made| ==> 0 <= made[i] <= attempted[i]
    ensures 0.0 <= Round(Percent(Sum(made), Sum(attempted)), places) <= 100.0
  {
    SumMonotone(seq(|made|, i => 0), made);
    SumBounded(seq(|made|, i => 0), 0);
    SumMonotone(made, attempted);
    RoundWithin(Percent(Sum(made), Sum(attempted)), 0, 100, places);
  }

  /** The dictionary keys of a game row that the three summaries read. */
  datatype Key =
    | Points | Assists | ReboundsTotal
    | FieldGoalsMade | FieldGoalsAttempted
    | ThreePointersMade | ThreePointersAttempted
    | FreeThrowsMade | FreeThrowsAttempted
    | Win | TeamScore | OpponentScore
    | Blocks | Steals | Turnovers | FoulsPersonal

  /** One game row, a dictionary from column name to value. */
  type Row = map<Key, int>

  /** Every row holds every key in `keys` (otherwise `row[key]` raises `KeyError`). */
  predicate HasKeys(rows: seq<Row>, keys: set<Key>) {
    forall i :: 0 <= i < |rows| ==> keys <= rows[i].Keys
  }

  /** `[row[k] for row in rows]`. */
  function Column(rows: seq<Row>, k: Key): seq<int>
    requires HasKeys(rows, {k})
  {
    seq(|rows|, i requires 0 <= i < |rows| => rows[i][k])
  }

  /** `[row.get(k, 0) for row in rows]`. */
  function ColumnOrZero(rows: seq<Row>, k: Key): seq<int>
  {
    seq(|rows|, i requires 0 <= i < |rows| => if k in rows[i] then rows[i][k] else 0)
  }

  function Total(rows: seq<Row>, k: Key): int
    requires HasKeys(rows, {k})
  {
    Sum(Column(rows, k))
  }

  /** In every row, 0 <= made <= attempted for the given pair of keys. */
  predicate MadeWithinAttempted(rows: seq<Row>, made: Key, attempted: Key)
    requires HasKeys(rows, {made, attempted})
  {
    forall i :: 0 <= i < |rows| ==> 0 <= rows[i][made] <= rows[i][attempted]
  }

  /** Consistent shooting rows give a rounded percentage within [0, 100]. */
  lemma ShootingWithin(rows: seq<Row>, made: Key, attempted: Key, places: nat)
    requires HasKeys(rows, {made, attempted})
    requires MadeWithinAttempted(rows, made, attempted)
    ensures 0.0 <= Round(Percent(Total(rows, made), Total(rows, attempted)), places) <= 100.0
  {
    PercentWithin(Column(rows, made), Column(rows, attempted), places);
  }

  // ----- calculate_player_summary -----

  const PlayerKeys: set<Key> := {Points, Assists, ReboundsTotal, FieldGoalsMade, FieldGoalsAttempted,
                                 ThreePointersMade, ThreePointersAttempted, FreeThrowsMade, FreeThrowsAttempted}

  /** The empty input's dictionary uses the short keys (`avg_points`, `fg_percent`, ...);
      the non-empty one uses the long keys (`average_points`, `field_goal_percentage`, ...). */
  datatype PlayerSummary =
    | NoGames(gamesPlayed: nat, avgPoints: real, avgAssists: real, avgRebounds: real,
              fgPercent: real, threepPercent: real, ftPercent: real)
    | Summary(gamesPlayed: nat, averagePoints: real, averageAssists: real, averageRebounds: real,
              fieldGoalPercentage: real, threePointPercentage: real, freeThrowPercentage: real)

  function CalculatePlayerSummary(rows: seq<Row>): (r: PlayerSummary)
    requires HasKeys(rows, PlayerKeys)
    ensures r.gamesPlayed == |rows|
    ensures r.NoGames? <==> rows == []
    ensures r.NoGames? ==> r == NoGames(0, 0.0, 0.0, 0.0, 0.0, 0.0, 0.0)
    ensures r.Summary? ==> IsRounding(r.averagePoints, Mean(Total(rows, Points), |rows|), 1)
    ensures r.Summary? ==> IsRounding(r.averageAssists, Mean(Total(rows, Assists), |rows|), 1)
    ensures r.Summary? ==> IsRounding(r.averageRebounds, Mean(Total(rows, ReboundsTotal), |rows|), 1)
  {
    if rows == [] then NoGames(0, 0.0, 0.0, 0.0, 0.0, 0.0, 0.0)
    else
      var n := |rows|;
      var fg := Percent(Total(rows, FieldGoalsMade), Total(rows, FieldGoalsAttempted));
      var tp := Percent(Total(rows, ThreePointersMade), Total(rows, ThreePointersAttempted));
      var ft := Percent(Total(rows, FreeThrowsMade), Total(rows, FreeThrowsAttempted));
      Summary(n,
              Round(Mean(Total(rows, Points), n), 1),
              Round(Mean(Total(rows, Assists), n), 1),
              Round(Mean(Total(rows, ReboundsTotal), n), 1),
              Round(fg, 1), Round(tp, 1), Round(ft, 1))
  }

  /** Each percentage is 0 when nothing of its kind was attempted, otherwise 100·made/attempted
      rounded to one place; consistent rows keep every percentage within [0, 100]. */
  lemma PlayerPercentages(rows: seq<Row>)
    requires rows != [] && HasKeys(rows, PlayerKeys)
    ensures var r := CalculatePlayerSummary(rows);
      && (Total(rows, FieldGoalsAttempted) == 0 ==> r.fieldGoalPercentage == 0.0)
      && (Total(rows, ThreePointersAttempted) == 0 ==> r.threePointPercentage == 0.0)
      && (Total(rows, FreeThrowsAttempted) == 0 ==> r.freeThrowPercentage == 0.0)
      && (Total(rows, FieldGoalsAttempted) != 0 ==>
            IsRounding(r.fieldGoalPercentage,
                       Total(rows, FieldGoalsMade) as real / Total(rows, FieldGoalsAttempted) as real * 100.0, 1))
      && (Total(rows, ThreePointersAttempted) != 0 ==>
            IsRounding(r.threePointPercentage,
                       Total(rows, ThreePointersMade) as real / Total(rows, ThreePointersAttempted) as real * 100.0, 1))
      && (Total(rows, FreeThrowsAttempted) != 0 ==>
            IsRounding(r.freeThrowPercentage,
                       Total(rows, FreeThrowsMade) as real / Total(rows, FreeThrowsAttempted) as real * 100.0, 1))
      && (MadeWithinAttempted(rows, FieldGoalsMade, FieldGoalsAttempted) ==> 0.0 <= r.fieldGoalPercentage <= 100.0)
      && (MadeWithinAttempted(rows, ThreePointersMade, ThreePointersAttempted) ==> 0.0 <= r.threePointPercentage <= 100.0)
      && (MadeWithinAttempted(rows, FreeThrowsMade, FreeThrowsAttempted) ==> 0.0 <= r.freeThrowPercentage <= 100.0)
  {
    RoundInteger(0, 1);
    if MadeWithinAttempted(rows, FieldGoalsMade, FieldGoalsAttempted) {
      ShootingWithin(rows, FieldGoalsMade, FieldGoalsAttempted, 1);
    }
    if MadeWithinAttempted(rows, ThreePointersMade, ThreePointersAttempted) {
      ShootingWithin(rows, ThreePointersMade, ThreePointersAttempted, 1);
    }
    if MadeWithinAttempted(rows, FreeThrowsMade, FreeThrowsAttempted) {
      ShootingWithin(rows, FreeThrowsMade, FreeThrowsAttempted, 1);
    }
  }

  // ----- calculate_clutch_summary -----

  const ClutchKeys: set<Key> := {FieldGoalsMade, FieldGoalsAttempted, Points, Win}

  datatype ClutchSummary = ClutchSummary(averagePoints: real, fieldGoalPercentage: real, winPercentage: real)

  /** The Python exception that ends the computation. */
  datatype PyError = ZeroDivisionError

  /** `round(100·made/attempted, 2) if attempted > 0 else 0` (clutch guards with `> 0`, not truthiness). */
  function ClutchFieldGoalPercentage(made: int, attempted: int): real {
    if attempted > 0 then Round(made as real / attempted as real * 100.0, 2) else 0.0
  }

  /** `round(100·wins/games, 2) if games > 0 else 0`. */
  function ClutchWinPercentage(wins: int, games: nat): real {
    if games > 0 then Round(wins as real / games as real * 100.0, 2) else 0.0
  }

  /** As written: `average_points` divides by the number of games without the guard the two other fields
      have, so an empty list raises `ZeroDivisionError`. Percentages are rounded to 2 places, then to 1. */
  function CalculateClutchSummary(rows: seq<Row>): (r: Result<ClutchSummary, PyError>)
    requires HasKeys(rows, ClutchKeys)
    ensures r.Err? <==> rows == []
    ensures r.Ok? ==> IsRounding(r.value.averagePoints, Mean(Total(rows, Points), |rows|), 1)
    ensures r.Ok? && Total(rows, FieldGoalsAttempted) <= 0 ==> r.value.fieldGoalPercentage == 0.0
    ensures r.Ok? && Total(rows, FieldGoalsAttempted) > 0 ==>
      IsRounding(r.value.fieldGoalPercentage,
                 Round(Total(rows, FieldGoalsMade) as real / Total(rows, FieldGoalsAttempted) as real * 100.0, 2), 1)
  {
    var fg := ClutchFieldGoalPercentage(Total(rows, FieldGoalsMade), Total(rows, FieldGoalsAttempted));
    var win := ClutchWinPercentage(Total(rows, Win), |rows|);
    RoundInteger(0, 1);
    if |rows| == 0 then Err(ZeroDivisionError)
    else Ok(ClutchSummary(Round(Mean(Total(rows, Points), |rows|), 1), Round(fg, 1), Round(win, 1)))
  }

  /** With every `win` 0 or 1 and consistent shooting, both clutch percentages lie in [0, 100],
      and the win percentage is 100·wins/games rounded twice. */
  lemma ClutchPercentages(rows: seq<Row>)
    requires rows != [] && HasKeys(rows, ClutchKeys)
    ensures var r := CalculateClutchSummary(rows);
      && r.Ok?
      && IsRounding(r.value.winPercentage, Round(Mean(Total(rows, Win), |rows|) * 100.0, 2), 1)
      && ((forall i :: 0 <= i < |rows| ==> 0 <= rows[i][Win] <= 1) ==> 0.0 <= r.value.winPercentage <= 100.0)
      && (MadeWithinAttempted(rows, FieldGoalsMade, FieldGoalsAttempted) ==>
            0.0 <= r.value.fieldGoalPercentage <= 100.0)
  {
    var n := |rows|;
    if forall i :: 0 <= i < n ==> 0 <= rows[i][Win] <= 1 {
      WinShareWithin(rows, 2);
      RoundWithin(ClutchWinPercentage(Total(rows, Win), n), 0, 100, 1);
    }
    if MadeWithinAttempted(rows, FieldGoalsMade, FieldGoalsAttempted) {
      ClutchShootingWithin(rows);
    }
  }

  /** Consistent clutch shooting rows keep the twice-rounded field-goal percentage in [0, 100]. */
  lemma ClutchShootingWithin(rows: seq<Row>)
    requires HasKeys(rows, {FieldGoalsMade, FieldGoalsAttempted})
    requires MadeWithinAttempted(rows, FieldGoalsMade, FieldGoalsAttempted)
    ensures 0.0 <= Round(ClutchFieldGoalPercentage(Total(rows, FieldGoalsMade), Total(rows, FieldGoalsAttempted)), 1) <= 100.0
  {
    var made, att := Total(rows, FieldGoalsMade), Total(rows, FieldGoalsAttempted);
    if att > 0 {
      ShootingWithin(rows, FieldGoalsMade, FieldGoalsAttempted, 2);
      assert ClutchFieldGoalPercentage(made, att) == Round(Percent(made, att), 2);
      RoundWithin(ClutchFieldGoalPercentage(made, att), 0, 100, 1);
    } else {
      RoundInteger(0, 1);
    }
  }

  /** With every `win` 0 or 1, the rounded share of games won lies in [0, 100]. */
  lemma WinShareWithin(rows: seq<Row>, places: nat)
    requires rows != [] && HasKeys(rows, {Win})
    requires forall i :: 0 <= i < |rows| ==> 0 <= rows[i][Win] <= 1
    ensures 0.0 <= Round(Total(rows, Win) as real / |rows| as real * 100.0, places) <= 100.0
  {
    var wins, n := Total(rows, Win), |rows|;
    SumBounded(Column(rows, Win), 1);
    RatioBounds(wins, n);
    assert 0.0 <= wins as real / n as real * 100.0 <= 100.0;
    RoundWithin(wins as real / n as real * 100.0, 0, 100, places);
  }

  /** The empty list is the only input that fails. */
  lemma ClutchEmptyFails()
    ensures CalculateClutchSummary([]) == Err(ZeroDivisionError)
  {
  }

  /** Corrected: `average_points` guarded like `ppg`, so an empty list gives zeros. */
  function ClutchSummaryGuarded(rows: seq<Row>): (r: ClutchSummary)
    requires HasKeys(rows, ClutchKeys)
    ensures rows == [] ==> r == ClutchSummary(0.0, 0.0, 0.0)
    ensures rows != [] ==> CalculateClutchSummary(rows) == Ok(r)
  {
    RoundInteger(0, 1);
    var fg := ClutchFieldGoalPercentage(Total(rows, FieldGoalsMade), Total(rows, FieldGoalsAttempted));
    var win := ClutchWinPercentage(Total(rows, Win), |rows|);
    var avg := if |rows| > 0 then Round(Mean(Total(rows, Points), |rows|), 1) else 0.0;
    ClutchSummary(avg, Round(fg, 1), Round(win, 1))
  }

  // ----- calculate_team_stats -----

  /** Keys read with `row[...]`; the others are read with `row.get(key, 0)`. */
  const TeamKeys: set<Key> := {FieldGoalsMade, FieldGoalsAttempted, ThreePointersMade, ThreePointersAttempted,
                               FreeThrowsMade, FreeThrowsAttempted, TeamScore, Win, OpponentScore}

  /** `NoStats` is the empty dictionary returned for no games. */
  datatype TeamStats =
    | NoStats
    | TeamStats(fieldGoalPercentage: real, threePointPercentage: real, freeThrowPercentage: real,
                pointsPerGame: real, opponentPointsPerGame: real, winPercentage: real,
                assistsPerGame: real, blocksPerGame: real, stealsPerGame: real,
                turnoversPerGame: real, reboundsPerGame: real, personalFoulsPerGame: real)

  /** `round(total / num_games, 1)` for a column read with `row.get(key, 0)`. */
  function PerGameOrZero(rows: seq<Row>, k: Key): real
    requires rows != []
  {
    Round(Mean(Sum(ColumnOrZero(rows, k)), |rows|), 1)
  }

  function CalculateTeamStats(rows: seq<Row>): (r: TeamStats)
    requires HasKeys(rows, TeamKeys)
    ensures r.NoStats? <==> rows == []
    ensures r.TeamStats? ==> IsRounding(r.pointsPerGame, Mean(Total(rows, TeamScore), |rows|), 1)
    ensures r.TeamStats? ==> IsRounding(r.opponentPointsPerGame, Mean(Total(rows, OpponentScore), |rows|), 1)
    ensures r.TeamStats? ==> IsRounding(r.winPercentage, Mean(Total(rows, Win), |rows|) * 100.0, 1)
    ensures r.TeamStats? ==>
      && r.assistsPerGame == PerGameOrZero(rows, Assists) && r.blocksPerGame == PerGameOrZero(rows, Blocks)
      && r.stealsPerGame == PerGameOrZero(rows, Steals) && r.turnoversPerGame == PerGameOrZero(rows, Turnovers)
      && r.reboundsPerGame == PerGameOrZero(rows, ReboundsTotal)
      && r.personalFoulsPerGame == PerGameOrZero(rows, FoulsPersonal)
  {
    var n := |rows|;
    if n == 0 then NoStats
    else
      TeamStats(
        Round(Percent(Total(rows, FieldGoalsMade), Total(rows, FieldGoalsAttempted)), 1),
        Round(Percent(Total(rows, ThreePointersMade), Total(rows, ThreePointersAttempted)), 1),
        Round(Percent(Total(rows, FreeThrowsMade), Total(rows, FreeThrowsAttempted)), 1),
        Round(Mean(Total(rows, TeamScore), n), 1),
        Round(Mean(Total(rows, OpponentScore), n), 1),
        Round(Total(rows, Win) as real / n as real * 100.0, 1),
        PerGameOrZero(rows, Assists), PerGameOrZero(rows, Blocks), PerGameOrZero(rows, Steals),
        PerGameOrZero(rows, Turnovers), PerGameOrZero(rows, ReboundsTotal), PerGameOrZero(rows, FoulsPersonal))
  }

  /** The optional columns: a row without the key counts as 0, so the per-game value is the rounded mean
      over all games of the present values, and 0 when no row has the key. */
  lemma AbsentKeysCountZero(rows: seq<Row>, k: Key)
    requires rows != []
    ensures IsRounding(PerGameOrZero(rows, k), Mean(Sum(PresentValues(rows, k)), |rows|), 1)
    ensures (forall i :: 0 <= i < |rows| ==> k !in rows[i]) ==> PerGameOrZero(rows, k) == 0.0
  {
    SumOfPresent(rows, k);
    if forall i :: 0 <= i < |rows| ==> k !in rows[i] {
      NonePresent(rows, k);
      assert Mean(0, |rows|) == 0.0;
      RoundInteger(0, 1);
    }
  }

  lemma {:induction false} NonePresent(rows: seq<Row>, k: Key)
    requires forall i :: 0 <= i < |rows| ==> k !in rows[i]
    ensures PresentValues(rows, k) == []
  {
    if rows != [] {
      NonePresent(rows[1..], k);
    }
  }

  /** The values of the rows that do hold key `k`, in order. */
  function PresentValues(rows: seq<Row>, k: Key): seq<int> {
    if rows == [] then []
    else (if k in rows[0] then [rows[0][k]] else []) + PresentValues(rows[1..], k)
  }

  lemma {:induction false} SumOfPresent(rows: seq<Row>, k: Key)
    ensures Sum(ColumnOrZero(rows, k)) == Sum(PresentValues(rows, k))
  {
    if rows != [] {
      SumOfPresent(rows[1..], k);
      assert ColumnOrZero(rows, k)[1..] == ColumnOrZero(rows[1..], k);
      var head := if k in rows[0] then [rows[0][k]] else [];
      SumAppend(head, PresentValues(rows[1..], k));
    }
  }

  lemma {:induction false} SumAppend(xs: seq<int>, ys: seq<int>)
    ensures Sum(xs + ys) == Sum(xs) + Sum(ys)
  {
    if xs == [] {
      assert xs + ys == ys;
    } else {
      SumAppend(xs[1..], ys);
      assert (xs + ys)[1..] == xs[1..] + ys;
    }
  }

  /** Each team shooting percentage is 0 when nothing of its kind was attempted, otherwise 100·made/attempted
      rounded to one place; consistent rows keep them in [0, 100], and 0/1 wins keep the win percentage there. */
  lemma TeamPercentages(rows: seq<Row>)
    requires rows != [] && HasKeys(rows, TeamKeys)
    ensures var r := CalculateTeamStats(rows);
      && (Total(rows, FieldGoalsAttempted) == 0 ==> r.fieldGoalPercentage == 0.0)
      && (Total(rows, ThreePointersAttempted) == 0 ==> r.threePointPercentage == 0.0)
      && (Total(rows, FreeThrowsAttempted) == 0 ==> r.freeThrowPercentage == 0.0)
      && (Total(rows, FieldGoalsAttempted) != 0 ==>
            IsRounding(r.fieldGoalPercentage,
                       Total(rows, FieldGoalsMade) as real / Total(rows, FieldGoalsAttempted) as real * 100.0, 1))
      && (Total(rows, ThreePointersAttempted) != 0 ==>
            IsRounding(r.threePointPercentage,
                       Total(rows, ThreePointersMade) as real / Total(rows, ThreePointersAttempted) as real * 100.0, 1))
      && (Total(rows, FreeThrowsAttempted) != 0 ==>
            IsRounding(r.freeThrowPercentage,
                       Total(rows, FreeThrowsMade) as real / Total(rows, FreeThrowsAttempted) as real * 100.0, 1))
      && (MadeWithinAttempted(rows, FieldGoalsMade, FieldGoalsAttempted) ==> 0.0 <= r.fieldGoalPercentage <= 100.0)
      && (MadeWithinAttempted(rows, ThreePointersMade, ThreePointersAttempted) ==> 0.0 <= r.threePointPercentage <= 100.0)
      && (MadeWithinAttempted(rows, FreeThrowsMade, FreeThrowsAttempted) ==> 0.0 <= r.freeThrowPercentage <= 100.0)
      && ((forall i :: 0 <= i < |rows| ==> 0 <= rows[i][Win] <= 1) ==> 0.0 <= r.winPercentage <= 100.0)
  {
    RoundInteger(0, 1);
    if MadeWithinAttempted(rows, FieldGoalsMade, FieldGoalsAttempted) {
      ShootingWithin(rows, FieldGoalsMade, FieldGoalsAttempted, 1);
    }
    if MadeWithinAttempted(rows, ThreePointersMade, ThreePointersAttempted) {
      ShootingWithin(rows, ThreePointersMade, ThreePointersAttempted, 1);
    }
    if MadeWithinAttempted(rows, FreeThrowsMade, FreeThrowsAttempted) {
      ShootingWithin(rows, FreeThrowsMade, FreeThrowsAttempted, 1);
    }
    if forall i :: 0 <= i < |rows| ==> 0 <= rows[i][Win] <= 1 {
      WinShareWithin(rows, 1);
    }
  }
}
