// What the sheet of a game shows of the rows its statistics consist of: for every team and level a time, a stay
// and a bonus, worked out from the rows alone.
module TableContents {
  import opened Common
  import opened Grouping
  import opened Results
  import opened TableCells
  import opened TableIntegrity

  // ----- Times -----

  // The team reached the level at that instant, and never earlier.
  ghost predicate ReachedAt(rows: seq<LevelTimeRow>, level: int, at: int) {
    && (exists row :: row in rows && row.levelNumber == level && row.startAt == at)
    && (forall row :: row in rows && row.levelNumber == level ==> at <= row.startAt)
  }

  predicate NeverReached(rows: seq<LevelTimeRow>, level: int) {
    forall row :: row in rows ==> row.levelNumber != level
  }

  // Instants the table can hold; the largest one is used for "no time".
  predicate Datable(rows: seq<LevelTimeRow>) {
    forall row :: row in rows ==> row.startAt < DATETIME_MAX
  }

  lemma {:induction false} PickedTimes(rows: seq<LevelTimeRow>, level: nat)
    ensures forall lt :: lt in Pick(TimeLevel, TimesOf(rows), level) <==>
              lt.level == level && exists row :: row in rows && row.levelNumber == level && row.startAt == lt.time
  {
    if rows != [] {
      var before, last := rows[..|rows| - 1], rows[|rows| - 1];
      PickedTimes(before, level);
      assert TimesOf(rows)[..|rows| - 1] == TimesOf(before);
      assert rows == before + [last];
      PickedOneMore(before, last, level);
    }
  }

  lemma PickedOneMore(before: seq<LevelTimeRow>, last: LevelTimeRow, level: nat)
    requires forall lt :: lt in Pick(TimeLevel, TimesOf(before), level) <==>
               lt.level == level && exists row :: row in before && row.levelNumber == level && row.startAt == lt.time
    ensures var rows := before + [last];
            forall lt :: lt in Pick(TimeLevel, TimesOf(rows), level) <==>
              lt.level == level && exists row :: row in rows && row.levelNumber == level && row.startAt == lt.time
  {
    var rows := before + [last];
    var picked, all := Pick(TimeLevel, TimesOf(before), level), Pick(TimeLevel, TimesOf(rows), level);
    assert TimesOf(rows)[..|before|] == TimesOf(before);
    assert all == picked + if last.levelNumber == level then [LevelTime(level, last.startAt)] else [];
    forall lt ensures lt in all <==>
      lt.level == level && exists row :: row in rows && row.levelNumber == level && row.startAt == lt.time
    {
      if lt in all && lt !in picked { assert last in rows && last.startAt == lt.time; }
      if row :| row in rows && row.levelNumber == level && row.startAt == lt.time && lt.level == level {
        assert row in before || row == last;
      }
    }
  }

  // The time of a level is the smallest start of the rows with its number; there is none only without such a row.
  lemma LevelTimeIs(team: TeamRows, bonuses: map<nat, seq<BonusEvent>>, level: nat)
    requires Datable(team.rows)
    ensures var time := TimeScore(LevelsOf(team, bonuses), level);
            && (time.None? <==> NeverReached(team.rows, level))
            && (time.Some? ==> ReachedAt(team.rows, level, time.value))
  {
    var times := Pick(TimeLevel, TimesOf(team.rows), level);
    RouteGets(TimeLevel, TimesOf(team.rows), level);
    PickedTimes(team.rows, level);
    EarliestMeans(times);
    if Earliest(times).Some? {
      var i :| IsEarliest(times, i) && Earliest(times) == Some(times[i]);
      assert times[i] in times;
      forall row | row in team.rows && row.levelNumber == level ensures times[i].time <= row.startAt {
        assert LevelTime(level, row.startAt) in times;
      }
    } else {
      forall row | row in team.rows ensures row.levelNumber != level {
        assert LevelTime(row.levelNumber, row.startAt).level == level ==> LevelTime(level, row.startAt) in times;
      }
    }
  }

  // ----- Stays -----

  // Over all rows of the level but the last row of all, how long until the next row.
  function Stay(rows: seq<LevelTimeRow>, level: int): int {
    if |rows| < 2 then 0
    else
      var n := |rows| - 1;
      Stay(rows[..n], level) + if rows[n - 1].levelNumber == level then rows[n].startAt - rows[n - 1].startAt else 0
  }

  // The team was on the level and left it.
  predicate Left(rows: seq<LevelTimeRow>, level: int) {
    exists k :: 0 <= k < |rows| - 1 && rows[k].levelNumber == level
  }

  lemma DurationsGrow(rows: seq<LevelTimeRow>)
    requires |rows| >= 2
    ensures var n, tds := |rows| - 1, Durations(TimesOf(rows));
            && |tds| == n && tds[..n - 1] == Durations(TimesOf(rows[..n]))
            && tds[n - 1] == LevelTimedelta(rows[n - 1].levelNumber, rows[n].startAt - rows[n - 1].startAt)
  {
  }

  // The durations picked for a level are its stays.
  ghost predicate StaysPicked(rows: seq<LevelTimeRow>, level: nat) {
    var picked := Pick(TimedeltaLevel, Durations(TimesOf(rows)), level);
    Sum(TimedeltaOf, picked) == Stay(rows, level) && (picked == [] <==> !Left(rows, level))
  }

  lemma OneMoreStay(rows: seq<LevelTimeRow>, level: nat)
    requires |rows| >= 2 && StaysPicked(rows[..|rows| - 1], level)
    ensures StaysPicked(rows, level)
  {
    DurationsGrow(rows);
    PickGrows(Durations(TimesOf(rows)), level);
    LeftGrows(rows, level);
  }

  lemma {:induction false} PickedStays(rows: seq<LevelTimeRow>, level: nat)
    ensures StaysPicked(rows, level)
  {
    if |rows| >= 2 {
      PickedStays(rows[..|rows| - 1], level);
      OneMoreStay(rows, level);
    }
  }

  lemma PickGrows(tds: seq<LevelTimedelta>, level: nat)
    requires tds != []
    ensures var n := |tds| - 1;
            var before, picked := Pick(TimedeltaLevel, tds[..n], level), Pick(TimedeltaLevel, tds, level);
            && picked == before + (if tds[n].level == level then [tds[n]] else [])
            && Sum(TimedeltaOf, picked) == Sum(TimedeltaOf, before) + if tds[n].level == level then tds[n].td else 0
  {
    var n := |tds| - 1;
    var before, picked := Pick(TimedeltaLevel, tds[..n], level), Pick(TimedeltaLevel, tds, level);
    if tds[n].level == level { assert picked[..|picked| - 1] == before; }
  }

  lemma LeftGrows(rows: seq<LevelTimeRow>, level: int)
    requires |rows| >= 2
    ensures Left(rows, level) <==> Left(rows[..|rows| - 1], level) || rows[|rows| - 2].levelNumber == level
  {
    var n := |rows| - 1;
    if k :| 0 <= k < n && rows[k].levelNumber == level {
      assert k < n - 1 ==> rows[..n][k].levelNumber == level;
    }
    if k :| 0 <= k < n - 1 && rows[..n][k].levelNumber == level { assert rows[k].levelNumber == level; }
  }

  // The time a team spent on a level is the sum of its stays there, each until the next row.
  lemma LevelTimedeltaIs(team: TeamRows, bonuses: map<nat, seq<BonusEvent>>, level: nat)
    ensures LevelsOf(team, bonuses).LevelTimedeltaOf(level) == LevelTimedelta(level, Stay(team.rows, level))
    ensures Duration(LevelsOf(team, bonuses), level)
         == if Left(team.rows, level) then Some(Stay(team.rows, level)) else None
  {
    RouteGets(TimedeltaLevel, Durations(TimesOf(team.rows)), level);
    PickedStays(team.rows, level);
  }

  // ----- The sheet -----

  // The results of these teams, in this order.
  ghost predicate ResultsOf(teams: seq<TeamLevels>, rows: seq<TeamRows>, bonuses: map<nat, seq<BonusEvent>>) {
    && |teams| == |rows|
    && forall i :: 0 <= i < |rows| ==> teams[i] == LevelsOf(rows[i], bonuses) && Datable(rows[i].rows)
  }

  // The cell shows the value, marked or not.
  predicate Shows(cell: Option<Cell>, value: Value) {
    cell == Some(Cell(value, Data)) || cell == Some(Cell(value, Best))
  }

  // The row of a team in each of the blocks.
  function TimesRow(i: nat): int { 4 + i }

  function DurationsRow(teams: nat, i: nat): int { teams + 7 + i }

  function BonusesRow(teams: nat, i: nat): int { 2 * teams + 11 + i }

  lemma InTimes(game: Game, teams: seq<TeamLevels>, stat: seq<TeamRows>, a: Address)
    requires InRows(a, 2, |teams| + 3)
    ensures SheetCell(game, teams, stat, a) == TimesCell(game, teams, 2, a, None)
  {
    ChronologyStage(game, teams, stat, a);
    BonusesStage(game, teams, a);
    DurationsStage(game, teams, a);
    TimesStage(game, teams, a);
  }

  lemma InDurations(game: Game, teams: seq<TeamLevels>, stat: seq<TeamRows>, a: Address)
    requires InRows(a, |teams| + 5, 2 * |teams| + 7)
    ensures SheetCell(game, teams, stat, a) == DurationsCell(game, teams, |teams| + 5, a, None)
  {
    ChronologyStage(game, teams, stat, a);
    BonusesStage(game, teams, a);
    DurationsStage(game, teams, a);
  }

  lemma InBonusRows(game: Game, teams: seq<TeamLevels>, stat: seq<TeamRows>, a: Address)
    requires InBonuses(teams, a)
    ensures SheetCell(game, teams, stat, a) == BonusesCell(game, teams, 2 * |teams| + 9, a, None)
  {
    ChronologyStage(game, teams, stat, a);
    BonusesStage(game, teams, a);
  }

  lemma InChronology(game: Game, teams: seq<TeamLevels>, stat: seq<TeamRows>, a: Address)
    requires InRows(a, ChronologyRow(teams), ChronologyRow(teams) + 2 * |stat|)
    ensures SheetCell(game, teams, stat, a) == ChronologyCell(stat, ChronologyRow(teams), a, None)
  {
    ChronologyStage(game, teams, stat, a);
  }

  // Each team has its name at the head of its row in every block of teams.
  lemma NamesAreShown(
    game: Game, teams: seq<TeamLevels>, stat: seq<TeamRows>, rows: seq<TeamRows>, bonuses: map<nat, seq<BonusEvent>>,
    i: nat)
    requires ResultsOf(teams, rows, bonuses) && i < |rows|
    ensures var name := Some(Cell(Text(rows[i].name), TeamName));
            && SheetCell(game, teams, stat, Address(TimesRow(i), 1)) == name
            && SheetCell(game, teams, stat, Address(DurationsRow(|teams|, i), 1)) == name
            && (HasBonuses(teams) ==> SheetCell(game, teams, stat, Address(BonusesRow(|teams|, i), 1)) == name)
  {
    assert teams[i] == LevelsOf(rows[i], bonuses);
    LabelsAreShown(game, teams, stat, i);
  }

  lemma LabelsAreShown(game: Game, teams: seq<TeamLevels>, stat: seq<TeamRows>, i: nat)
    requires i < |teams|
    ensures SheetCell(game, teams, stat, Address(TimesRow(i), 1)) == Some(TeamLabel(teams[i]))
    ensures SheetCell(game, teams, stat, Address(DurationsRow(|teams|, i), 1)) == Some(TeamLabel(teams[i]))
    ensures HasBonuses(teams) ==>
              SheetCell(game, teams, stat, Address(BonusesRow(|teams|, i), 1)) == Some(TeamLabel(teams[i]))
  {
    InTimes(game, teams, stat, Address(TimesRow(i), 1));
    InDurations(game, teams, stat, Address(DurationsRow(|teams|, i), 1));
    if HasBonuses(teams) { InBonusRows(game, teams, stat, Address(BonusesRow(|teams|, i), 1)); }
  }

  // In the times block the column of each level, and the column of the finish, shows when the team got there first ...
  lemma TimeIsShown(
    game: Game, teams: seq<TeamLevels>, stat: seq<TeamRows>, rows: seq<TeamRows>, bonuses: map<nat, seq<BonusEvent>>,
    i: nat, level: nat, at: int)
    requires ResultsOf(teams, rows, bonuses) && i < |rows| && ReachedAt(rows[i].rows, level, at)
    ensures Shows(SheetCell(game, teams, stat, Address(TimesRow(i), 2 + level)), Moment(at))
  {
    TimeIsScored(rows[i], bonuses, level, at);
    assert TimeScore(teams[i], level) == Some(at);
    InTimes(game, teams, stat, Address(TimesRow(i), 2 + level));
    TimeCellIs(game, teams, i, level);
  }

  lemma TimeIsScored(team: TeamRows, bonuses: map<nat, seq<BonusEvent>>, level: nat, at: int)
    requires Datable(team.rows) && ReachedAt(team.rows, level, at)
    ensures TimeScore(LevelsOf(team, bonuses), level) == Some(at)
  {
    LevelTimeIs(team, bonuses, level);
  }

  // ... and is empty for a team that never did.
  lemma NoTimeIsShown(
    game: Game, teams: seq<TeamLevels>, stat: seq<TeamRows>, rows: seq<TeamRows>, bonuses: map<nat, seq<BonusEvent>>,
    i: nat, level: nat)
    requires ResultsOf(teams, rows, bonuses) && i < |rows| && NeverReached(rows[i].rows, level)
    ensures SheetCell(game, teams, stat, Address(TimesRow(i), 2 + level))
         == if level <= |game.levels| then Some(Cell(Empty, Data)) else None
  {
    InTimes(game, teams, stat, Address(TimesRow(i), 2 + level));
    LevelTimeIs(rows[i], bonuses, level);
    TimeCellIs(game, teams, i, level);
  }

  lemma TimeCellIs(game: Game, teams: seq<TeamLevels>, i: nat, level: nat)
    requires i < |teams|
    ensures var cell, time := TimesCell(game, teams, 2, Address(TimesRow(i), 2 + level), None),
                              TimeScore(teams[i], level);
            && (time.Some? ==> Shows(cell, Moment(time.value)))
            && (time.None? ==> cell == if level <= |game.levels| then Some(Cell(Empty, Data)) else None)
  {
    BestOfMeans(TimeScore, teams, level);
    var best := BestOf(TimeScore, teams, level);
    if best.Some? { assert TimeScore(teams[best.value.1], level).Some?; }
  }

  // In the durations block the column of each level shows, without whole days, how long the team stayed there, and
  // is empty for a team that never left it.
  lemma StayIsShown(
    game: Game, teams: seq<TeamLevels>, stat: seq<TeamRows>, rows: seq<TeamRows>, bonuses: map<nat, seq<BonusEvent>>,
    i: nat, level: nat)
    requires ResultsOf(teams, rows, bonuses) && i < |rows|
    ensures var cell := SheetCell(game, teams, stat, Address(DurationsRow(|teams|, i), 3 + level));
            && (Left(rows[i].rows, level) ==> Shows(cell, Clock(Stay(rows[i].rows, level) % 86400000000)))
            && (!Left(rows[i].rows, level) ==> cell == if level < |game.levels| then Some(Cell(Empty, Data)) else None)
  {
    InDurations(game, teams, stat, Address(DurationsRow(|teams|, i), 3 + level));
    LevelTimedeltaIs(rows[i], bonuses, level);
    DurationCellIs(game, teams, i, level);
  }

  lemma DurationCellIs(game: Game, teams: seq<TeamLevels>, i: nat, level: nat)
    requires i < |teams|
    ensures var cell, td := DurationsCell(game, teams, |teams| + 5, Address(DurationsRow(|teams|, i), 3 + level), None),
                            Duration(teams[i], level);
            && (td.Some? ==> Shows(cell, Clock(td.value % 86400000000)))
            && (td.None? ==> cell == if level < |game.levels| then Some(Cell(Empty, Data)) else None)
  {
    BestOfMeans(DurationScore, teams, level);
    var best := BestOf(DurationScore, teams, level);
    if best.Some? { assert DurationScore(teams[best.value.1], level).Some?; }
  }

  // ----- Averages -----

  // The stays on a level of the teams that left it: how many, and all together.
  function TeamsLeft(rows: seq<TeamRows>, level: int): nat {
    if rows == [] then 0
    else TeamsLeft(rows[..|rows| - 1], level) + if Left(rows[|rows| - 1].rows, level) then 1 else 0
  }

  function AllStays(rows: seq<TeamRows>, level: int): int {
    if rows == [] then 0
    else
      var last := rows[|rows| - 1].rows;
      AllStays(rows[..|rows| - 1], level) + if Left(last, level) then Stay(last, level) else 0
  }

  lemma {:induction false} TdsAreStays(
    teams: seq<TeamLevels>, rows: seq<TeamRows>, bonuses: map<nat, seq<BonusEvent>>, level: nat)
    requires ResultsOf(teams, rows, bonuses)
    ensures |Tds(teams, level)| == TeamsLeft(rows, level) && Sum(Id, Tds(teams, level)) == AllStays(rows, level)
  {
    if teams != [] {
      var n := |teams| - 1;
      TdsAreStays(teams[..n], rows[..n], bonuses, level);
      LevelTimedeltaIs(rows[n], bonuses, level);
      assert Duration(teams[n], level) == if Left(rows[n].rows, level) then Some(Stay(rows[n].rows, level)) else None;
      TdsGrow(teams, level);
    }
  }

  lemma TdsGrow(teams: seq<TeamLevels>, level: nat)
    requires teams != []
    ensures var before, tds := Tds(teams[..|teams| - 1], level), Tds(teams, level);
            var td := Duration(teams[|teams| - 1], level);
            && |tds| == |before| + (if td.Some? then 1 else 0)
            && Sum(Id, tds) == Sum(Id, before) + if td.Some? then td.value else 0
  {
    var before, tds := Tds(teams[..|teams| - 1], level), Tds(teams, level);
    if Duration(teams[|teams| - 1], level).Some? {
      assert tds[..|tds| - 1] == before;
    } else {
      assert tds == before;
    }
  }

  // Under the durations stands the mean of the stays of the teams that left the level, to the nearest microsecond
  // and without whole days.
  lemma AverageIsShown(
    game: Game, teams: seq<TeamLevels>, stat: seq<TeamRows>, rows: seq<TeamRows>, bonuses: map<nat, seq<BonusEvent>>,
    level: nat)
    requires ResultsOf(teams, rows, bonuses)
    ensures var cell := SheetCell(game, teams, stat, Address(2 * |teams| + 7, 3 + level));
            if TeamsLeft(rows, level) == 0 then cell == None
            else exists mean :: cell == Some(Cell(Clock(mean % 86400000000), Accent))
                   && IsMean(mean, AllStays(rows, level), TeamsLeft(rows, level))
  {
    InDurations(game, teams, stat, Address(2 * |teams| + 7, 3 + level));
    TdsAreStays(teams, rows, bonuses, level);
    BestOfMeans(DurationScore, teams, level);
    if TeamsLeft(rows, level) > 0 {
      SomebodyLeft(teams, level);
      MeanIsNearest(AllStays(rows, level), TeamsLeft(rows, level));
    }
  }

  // The whole number nearest to the exact mean.
  predicate IsMean(mean: int, total: int, count: nat) {
    -(count as int) <= 2 * (mean * count - total) <= count
  }

  lemma {:induction false} SomebodyLeft(teams: seq<TeamLevels>, level: nat)
    requires Tds(teams, level) != []
    ensures AnyDuration(teams)
  {
    var n := |teams| - 1;
    if Duration(teams[n], level).Some? {
      assert teams[n].levelsTimedelta != [];
    } else {
      SomebodyLeft(teams[..n], level);
      var i :| 0 <= i < n && teams[..n][i].levelsTimedelta != [];
      assert teams[i].levelsTimedelta != [];
    }
  }

  // ----- Headers and the chronology -----

  // The name of the level and, below, its number counted from one.
  predicate HeaderIs(game: Game, teams: seq<TeamLevels>, stat: seq<TeamRows>, row: int, level: Level) {
    && SheetCell(game, teams, stat, Address(row, 3 + level.number)) == Some(Cell(Text(level.nameId), Header))
    && SheetCell(game, teams, stat, Address(row + 1, 3 + level.number)) == Some(Cell(Number(level.number + 1), Header))
  }

  // Over each block of teams each level has its header over its own column, but for one with the number of the
  // finish, over whose column stands the caption of the totals.
  lemma HeadersAreShown(game: Game, teams: seq<TeamLevels>, stat: seq<TeamRows>, k: nat)
    requires k < |game.levels|
    requires forall i, j :: 0 <= i < j < |game.levels| ==> game.levels[i].number != game.levels[j].number
    ensures HeaderIs(game, teams, stat, 2, game.levels[k])
    ensures HeaderIs(game, teams, stat, |teams| + 5, game.levels[k])
    ensures HasBonuses(teams) && game.levels[k].number != |game.levels| ==>
              HeaderIs(game, teams, stat, 2 * |teams| + 9, game.levels[k])
  {
    var column := 3 + game.levels[k].number;
    HeaderShowsLevel(game.levels, 2, LEVEL_TIMES_TITLE, k);
    HeaderShowsLevel(game.levels, |teams| + 5, LEVEL_DURATIONS_TITLE, k);
    HeaderStays(game, teams, stat, 2, column);
    HeaderStays(game, teams, stat, 3, column);
    DurationHeaderStays(game, teams, stat, |teams| + 5, column);
    DurationHeaderStays(game, teams, stat, |teams| + 6, column);
    if HasBonuses(teams) && game.levels[k].number != |game.levels| { BonusHeaderShown(game, teams, stat, k); }
  }

  lemma BonusHeaderShown(game: Game, teams: seq<TeamLevels>, stat: seq<TeamRows>, k: nat)
    requires k < |game.levels| && HasBonuses(teams) && game.levels[k].number != |game.levels|
    requires forall i, j :: 0 <= i < j < |game.levels| ==> game.levels[i].number != game.levels[j].number
    ensures HeaderIs(game, teams, stat, 2 * |teams| + 9, game.levels[k])
  {
    HeaderShowsLevel(game.levels, 2 * |teams| + 9, BONUSES_TITLE, k);
    InBonusRows(game, teams, stat, Address(2 * |teams| + 9, 3 + game.levels[k].number));
    InBonusRows(game, teams, stat, Address(2 * |teams| + 10, 3 + game.levels[k].number));
  }

  lemma HeaderStays(game: Game, teams: seq<TeamLevels>, stat: seq<TeamRows>, row: int, column: int)
    requires 2 <= row <= 3
    ensures SheetCell(game, teams, stat, Address(row, column))
         == HeaderCell(game.levels, 2, LEVEL_TIMES_TITLE, Address(row, column), None)
  {
    InTimes(game, teams, stat, Address(row, column));
    BestOfMeans(TimeScore, teams, column - 2);
  }

  lemma DurationHeaderStays(game: Game, teams: seq<TeamLevels>, stat: seq<TeamRows>, row: int, column: int)
    requires |teams| + 5 <= row <= |teams| + 6
    ensures SheetCell(game, teams, stat, Address(row, column))
         == HeaderCell(game.levels, |teams| + 5, LEVEL_DURATIONS_TITLE, Address(row, column), None)
  {
    InDurations(game, teams, stat, Address(row, column));
    BestOfMeans(DurationScore, teams, column - 3);
  }

  // The captions of the blocks and the name of the game stand in the first column.
  lemma CaptionsAreShown(game: Game, teams: seq<TeamLevels>, stat: seq<TeamRows>)
    ensures SheetCell(game, teams, stat, Address(1, 1)) == Some(Cell(Text(game.name), Title))
    ensures SheetCell(game, teams, stat, Address(2, 1)) == Some(Cell(Text(LEVEL_TIMES_TITLE), Section))
    ensures SheetCell(game, teams, stat, Address(|teams| + 5, 1)) == Some(Cell(Text(LEVEL_DURATIONS_TITLE), Section))
    ensures HasBonuses(teams) ==>
              && SheetCell(game, teams, stat, Address(2 * |teams| + 9, 1)) == Some(Cell(Text(BONUSES_TITLE), Section))
              && SheetCell(game, teams, stat, Address(2 * |teams| + 9, 3 + |game.levels|))
                 == Some(Cell(Text(TOTAL_TITLE), Header))
    ensures SheetCell(game, teams, stat, Address(ChronologyRow(teams), 1))
         == Some(Cell(Text(CHRONOLOGY_TITLE), Section))
  {
    HeaderStays(game, teams, stat, 2, 1);
    DurationHeaderStays(game, teams, stat, |teams| + 5, 1);
    BlockOwnsItsRows(game, teams, stat, Address(1, 1));
    InChronology(game, teams, stat, Address(ChronologyRow(teams), 1));
    if HasBonuses(teams) {
      InBonusRows(game, teams, stat, Address(2 * |teams| + 9, 1));
      InBonusRows(game, teams, stat, Address(2 * |teams| + 9, 3 + |game.levels|));
    }
  }

  // The k-th team of the chronology has two rows of the sheet: its name and its starts in order, and under each the
  // number of the level, counted from one.
  lemma ChronologyIsShown(game: Game, teams: seq<TeamLevels>, stat: seq<TeamRows>, k: nat, i: nat)
    requires k < |stat|
    ensures var first := (if HasBonuses(teams) then 3 * |teams| + 13 else 2 * |teams| + 10) + 2 * k;
            && SheetCell(game, teams, stat, Address(first, 1)) == Some(Cell(Text(stat[k].name), TeamName))
            && (i < |stat[k].rows| ==>
                  && SheetCell(game, teams, stat, Address(first, 2 + i))
                     == Some(Cell(Moment(stat[k].rows[i].startAt), Data))
                  && SheetCell(game, teams, stat, Address(first + 1, 2 + i))
                     == Some(Cell(Number(stat[k].rows[i].levelNumber + 1), Header)))
            && (i >= |stat[k].rows| ==> SheetCell(game, teams, stat, Address(first, 2 + i)) == None)
  {
    var first := ChronologyRow(teams) + 1 + 2 * k;
    ChronologyShowsTeam(stat, ChronologyRow(teams), k, i);
    InChronology(game, teams, stat, Address(first, 1));
    InChronology(game, teams, stat, Address(first, 2 + i));
    InChronology(game, teams, stat, Address(first + 1, 2 + i));
  }

  // ----- Bonuses -----

  // The bonuses of a team whose level is this one, all together: the level of the row a bonus names or else the
  // level the team was on.
  function BonusOn(rows: seq<LevelTimeRow>, given: seq<BonusEvent>, level: Option<nat>): int {
    if given == [] then 0
    else
      var last := given[|given| - 1];
      BonusOn(rows, given[..|given| - 1], level) + if ResolvedLevel(rows, last) == level then last.td else 0
  }

  lemma {:induction false} PickedBonuses(rows: seq<LevelTimeRow>, given: seq<BonusEvent>, level: Option<nat>)
    ensures Sum(BonusOf, Pick(BonusLevel, Resolved(rows, given), level)) == BonusOn(rows, given, level)
  {
    if given != [] {
      var n := |given| - 1;
      PickedBonuses(rows, given[..n], level);
      assert Resolved(rows, given)[..n] == Resolved(rows, given[..n]);
      var picked := Pick(BonusLevel, Resolved(rows, given), level);
      if ResolvedLevel(rows, given[n]) == level {
        assert picked[..|picked| - 1] == Pick(BonusLevel, Resolved(rows, given[..n]), level);
      }
    }
  }

  // In the bonuses block the column of each level shows the sum of the team's bonuses on it.
  lemma BonusIsShown(
    game: Game, teams: seq<TeamLevels>, stat: seq<TeamRows>, rows: TeamRows, bonuses: map<nat, seq<BonusEvent>>,
    i: nat, level: nat, bonus: BonusEvent)
    requires i < |teams| && teams[i] == LevelsOf(rows, bonuses) && level != |game.levels|
    requires rows.teamId in bonuses && bonus in bonuses[rows.teamId]
    requires ResolvedLevel(rows.rows, bonus) == Some(level)
    ensures SheetCell(game, teams, stat, Address(BonusesRow(|teams|, i), 3 + level))
         == Some(Cell(Minutes(BonusOn(rows.rows, bonuses[rows.teamId], Some(level))), Data))
  {
    LevelBonusIs(rows, bonuses, level, bonus);
    BonusShownIff(game, teams, stat, i, level);
  }

  lemma LevelBonusIs(rows: TeamRows, bonuses: map<nat, seq<BonusEvent>>, level: nat, bonus: BonusEvent)
    requires rows.teamId in bonuses && bonus in bonuses[rows.teamId]
    requires ResolvedLevel(rows.rows, bonus) == Some(level)
    ensures var team := LevelsOf(rows, bonuses);
            && Get(team.bonuses, Some(level)) != []
            && team.LevelBonus(level) == BonusOn(rows.rows, bonuses[rows.teamId], Some(level))
  {
    var given := bonuses[rows.teamId];
    var resolved := Resolved(rows.rows, given);
    RouteGets(BonusLevel, resolved, Some(level));
    PickedBonuses(rows.rows, given, Some(level));
    var k :| 0 <= k < |given| && given[k] == bonus;
    PickHas(resolved, k, Some(level));
  }

  // The column after the last level shows the sum of all of them, on a level or not.
  lemma TotalIsShown(
    game: Game, teams: seq<TeamLevels>, stat: seq<TeamRows>, rows: TeamRows, bonuses: map<nat, seq<BonusEvent>>, i: nat)
    requires i < |teams| && teams[i] == LevelsOf(rows, bonuses) && HasBonuses(teams)
    ensures var given := if rows.teamId in bonuses then bonuses[rows.teamId] else [];
            SheetCell(game, teams, stat, Address(BonusesRow(|teams|, i), 3 + |game.levels|))
            == Some(Cell(Minutes(Sum(BonusOf, given)), Accent))
  {
    var given := BonusesOf(bonuses, rows.teamId);
    var resolved := Resolved(rows.rows, given);
    FinishShowsTotal(game, teams, stat, i);
    RouteSums(BonusLevel, BonusOf, resolved);
    SameAmounts(given, resolved);
  }

  lemma {:induction false} PickHas(resolved: seq<BonusEvent>, k: nat, level: Option<nat>)
    requires k < |resolved| && resolved[k].levelNumber == level
    ensures Pick(BonusLevel, resolved, level) != []
  {
    if k < |resolved| - 1 { PickHas(resolved[..|resolved| - 1], k, level); }
  }
}
