// The whole sheet: where the blocks lie, that they keep out of each other's rows, and which cells are marked.
module TableIntegrity {
  import opened Common
  import opened Grouping
  import opened Results
  import opened TableCells
  import opened ResultsTable

  datatype TableBlock = TableBlock(caption: string, firstRow: int, lastRow: int)

  // The blocks of a sheet with so many teams in the table and in the chronology.
  function Blocks(teams: nat, bonuses: bool, chronology: nat): seq<TableBlock> {
    var times := TableBlock(LEVEL_TIMES_TITLE, 2, teams + 3);
    var durations := TableBlock(LEVEL_DURATIONS_TITLE, teams + 5, 2 * teams + 7);
    var afterDurations := 2 * teams + 9;
    if bonuses then
      [times, durations, TableBlock(BONUSES_TITLE, afterDurations, afterDurations + 1 + teams),
       TableBlock(CHRONOLOGY_TITLE, afterDurations + 3 + teams, afterDurations + 3 + teams + 2 * chronology)]
    else
      [times, durations, TableBlock(CHRONOLOGY_TITLE, afterDurations, afterDurations + 2 * chronology)]
  }

  function BlocksOf(teams: seq<TeamLevels>, stat: seq<TeamRows>): seq<TableBlock> {
    Blocks(|teams|, HasBonuses(teams), |stat|)
  }

  // What one block writes at an address that nobody has written.
  function BlockCell(
    game: Game, teams: seq<TeamLevels>, stat: seq<TeamRows>, block: TableBlock, a: Address): Option<Cell> {
    if block.caption == LEVEL_TIMES_TITLE then TimesCell(game, teams, block.firstRow, a, None)
    else if block.caption == LEVEL_DURATIONS_TITLE then DurationsCell(game, teams, block.firstRow, a, None)
    else if block.caption == BONUSES_TITLE then BonusesCell(game, teams, block.firstRow, a, None)
    else ChronologyCell(stat, block.firstRow, a, None)
  }

  function TitleCell(game: Game, a: Address): Option<Cell> {
    if a == GAME_NAME then Some(Cell(Text(game.name), Title)) else None
  }

  // The four writers one after the other.

  function AfterTimes(game: Game, teams: seq<TeamLevels>, a: Address): Option<Cell> {
    TimesCell(game, teams, 2, a, TitleCell(game, a))
  }

  function AfterDurations(game: Game, teams: seq<TeamLevels>, a: Address): Option<Cell> {
    DurationsCell(game, teams, |teams| + 5, a, AfterTimes(game, teams, a))
  }

  function AfterBonuses(game: Game, teams: seq<TeamLevels>, a: Address): Option<Cell> {
    BonusesCell(game, teams, 2 * |teams| + 9, a, AfterDurations(game, teams, a))
  }

  function ChronologyRow(teams: seq<TeamLevels>): int {
    if HasBonuses(teams) then 3 * |teams| + 12 else 2 * |teams| + 9
  }

  function SheetCell(game: Game, teams: seq<TeamLevels>, stat: seq<TeamRows>, a: Address): Option<Cell> {
    ChronologyCell(stat, ChronologyRow(teams), a, AfterBonuses(game, teams, a))
  }

  method ResultsToTable(game: Game, teams: seq<TeamLevels>, stat: seq<TeamRows>)
      returns (sheet: Sheet, blocks: seq<TableBlock>)
    requires forall i :: 0 <= i < |teams| ==> HasDicts(teams[i])
    ensures fresh(sheet) && blocks == BlocksOf(teams, stat)
    ensures forall a {:trigger At(sheet.fields, a)} :: At(sheet.fields, a) == SheetCell(game, teams, stat, a)
  {
    sheet := new Sheet(game.name);
    assert forall a {:trigger At(sheet.fields, a)} :: At(sheet.fields, a) == TitleCell(game, a);
    blocks := [];
    var firstRow := GAME_NAME.row + 1;
    var row := sheet.AddLevelTimesPart(game, teams, firstRow);
    blocks := blocks + [TableBlock(LEVEL_TIMES_TITLE, firstRow, row)];
    firstRow := row + BLOCK_GAP_ROWS;
    var averageRow := sheet.AddDurationsPart(game, teams, firstRow);
    blocks := blocks + [TableBlock(LEVEL_DURATIONS_TITLE, firstRow, averageRow)];
    firstRow := averageRow + BLOCK_GAP_ROWS;
    row := sheet.AddBonusesPart(game, teams, firstRow);
    if row >= firstRow {
      blocks := blocks + [TableBlock(BONUSES_TITLE, firstRow, row)];
    }
    firstRow := row + BLOCK_GAP_ROWS;
    row := sheet.AddChronologyPart(stat, firstRow);
    blocks := blocks + [TableBlock(CHRONOLOGY_TITLE, firstRow, row)];
  }

  // ------------------------------------------------------------------ the rows of the blocks

  // The blocks go down the sheet, with exactly one empty row between neighbours, below the name of the game.
  lemma BlocksDescend(teams: nat, bonuses: bool, chronology: nat)
    ensures var blocks := Blocks(teams, bonuses, chronology);
            && blocks[0].firstRow == GAME_NAME.row + 1
            && (forall i :: 0 <= i < |blocks| ==> blocks[i].firstRow <= blocks[i].lastRow)
            && (forall i, j :: 0 <= i < j < |blocks| ==>
                  blocks[i].lastRow < blocks[j].firstRow && blocks[i].caption != blocks[j].caption)
            && (forall i :: 0 < i < |blocks| ==> blocks[i].firstRow == blocks[i - 1].lastRow + BLOCK_GAP_ROWS)
            && ((exists i :: 0 <= i < |blocks| && blocks[i].caption == BONUSES_TITLE) <==> bonuses)
  {
    TitlesDiffer();
    if bonuses { assert Blocks(teams, bonuses, chronology)[2].caption == BONUSES_TITLE; }
  }

  lemma TitlesDiffer()
    ensures LEVEL_TIMES_TITLE != LEVEL_DURATIONS_TITLE && LEVEL_TIMES_TITLE != BONUSES_TITLE
        && LEVEL_TIMES_TITLE != CHRONOLOGY_TITLE
    ensures LEVEL_DURATIONS_TITLE != BONUSES_TITLE && LEVEL_DURATIONS_TITLE != CHRONOLOGY_TITLE
        && BONUSES_TITLE != CHRONOLOGY_TITLE
  {
    assert LEVEL_TIMES_TITLE[6] != LEVEL_DURATIONS_TITLE[6];
    assert BONUSES_TITLE[0] != LEVEL_TIMES_TITLE[0] && CHRONOLOGY_TITLE[0] != LEVEL_TIMES_TITLE[0];
    assert BONUSES_TITLE[0] != CHRONOLOGY_TITLE[0];
  }

  predicate InBlock(block: TableBlock, a: Address) {
    InRows(a, block.firstRow, block.lastRow)
  }

  predicate InRows(a: Address, firstRow: int, lastRow: int) {
    firstRow <= a.row <= lastRow
  }

  // A writer leaves everything outside the rows of its block as it was.

  lemma TimesKeepsOthers(game: Game, teams: seq<TeamLevels>, row: int, a: Address, before: Option<Cell>)
    requires !InRows(a, row, row + 1 + |teams|)
    ensures TimesCell(game, teams, row, a, before) == before
  {
    BestOfMeans(TimeScore, teams, a.column - START_COLUMN);
  }

  lemma DurationsKeepsOthers(game: Game, teams: seq<TeamLevels>, row: int, a: Address, before: Option<Cell>)
    requires !InRows(a, row, row + 2 + |teams|)
    ensures DurationsCell(game, teams, row, a, before) == before
  {
    BestOfMeans(DurationScore, teams, a.column - LevelColumn(0));
  }

  lemma BonusesKeepsOthers(game: Game, teams: seq<TeamLevels>, row: int, a: Address, before: Option<Cell>)
    requires !InRows(a, row, row + 1 + |teams|) || !HasBonuses(teams)
    ensures BonusesCell(game, teams, row, a, before) == before
  {
  }

  lemma ChronologyKeepsOthers(stat: seq<TeamRows>, row: int, a: Address, before: Option<Cell>)
    requires !InRows(a, row, row + 2 * |stat|)
    ensures ChronologyCell(stat, row, a, before) == before
  {
    ChronologyOutside(stat, row + 1, a, before);
  }

  lemma TimesStage(game: Game, teams: seq<TeamLevels>, a: Address)
    ensures AfterTimes(game, teams, a) ==
              if InRows(a, 2, |teams| + 3) then TimesCell(game, teams, 2, a, None) else TitleCell(game, a)
  {
    if !InRows(a, 2, |teams| + 3) { TimesKeepsOthers(game, teams, 2, a, TitleCell(game, a)); }
  }

  lemma DurationsStage(game: Game, teams: seq<TeamLevels>, a: Address)
    ensures AfterDurations(game, teams, a) ==
              if InRows(a, |teams| + 5, 2 * |teams| + 7) then DurationsCell(game, teams, |teams| + 5, a, None)
              else AfterTimes(game, teams, a)
  {
    if InRows(a, |teams| + 5, 2 * |teams| + 7) {
      TimesStage(game, teams, a);
    } else {
      DurationsKeepsOthers(game, teams, |teams| + 5, a, AfterTimes(game, teams, a));
    }
  }

  predicate InBonuses(teams: seq<TeamLevels>, a: Address) {
    HasBonuses(teams) && InRows(a, 2 * |teams| + 9, 3 * |teams| + 10)
  }

  lemma BonusesStage(game: Game, teams: seq<TeamLevels>, a: Address)
    ensures AfterBonuses(game, teams, a) ==
              if InBonuses(teams, a) then BonusesCell(game, teams, 2 * |teams| + 9, a, None)
              else AfterDurations(game, teams, a)
  {
    if InBonuses(teams, a) {
      TimesStage(game, teams, a);
      DurationsStage(game, teams, a);
    } else {
      BonusesKeepsOthers(game, teams, 2 * |teams| + 9, a, AfterDurations(game, teams, a));
    }
  }

  lemma ChronologyStage(game: Game, teams: seq<TeamLevels>, stat: seq<TeamRows>, a: Address)
    ensures SheetCell(game, teams, stat, a) ==
              if InRows(a, ChronologyRow(teams), ChronologyRow(teams) + 2 * |stat|)
              then ChronologyCell(stat, ChronologyRow(teams), a, None)
              else AfterBonuses(game, teams, a)
  {
    if InRows(a, ChronologyRow(teams), ChronologyRow(teams) + 2 * |stat|) {
      TimesStage(game, teams, a);
      DurationsStage(game, teams, a);
      BonusesStage(game, teams, a);
    } else {
      ChronologyKeepsOthers(stat, ChronologyRow(teams), a, AfterBonuses(game, teams, a));
    }
  }

  // Whatever the sheet holds in the rows of a block, that block alone has put there; outside the
  // blocks there is only the name of the game.
  lemma BlockOwnsItsRows(game: Game, teams: seq<TeamLevels>, stat: seq<TeamRows>, a: Address)
    ensures forall k :: 0 <= k < |BlocksOf(teams, stat)| && InBlock(BlocksOf(teams, stat)[k], a) ==>
              SheetCell(game, teams, stat, a) == BlockCell(game, teams, stat, BlocksOf(teams, stat)[k], a)
    ensures (forall k :: 0 <= k < |BlocksOf(teams, stat)| ==> !InBlock(BlocksOf(teams, stat)[k], a)) ==>
              SheetCell(game, teams, stat, a) == TitleCell(game, a)
  {
    TitlesDiffer();
    TimesStage(game, teams, a);
    DurationsStage(game, teams, a);
    BonusesStage(game, teams, a);
    ChronologyStage(game, teams, stat, a);
    var blocks := BlocksOf(teams, stat);
    assert InBlock(blocks[0], a) <==> InRows(a, 2, |teams| + 3);
    assert InBlock(blocks[1], a) <==> InRows(a, |teams| + 5, 2 * |teams| + 7);
    assert HasBonuses(teams) ==> (InBlock(blocks[2], a) <==> InBonuses(teams, a));
    assert InBlock(blocks[|blocks| - 1], a) <==> InRows(a, ChronologyRow(teams), ChronologyRow(teams) + 2 * |stat|);
  }

  // ------------------------------------------------------------------ the marked cells

  // A column with a score has one best team.
  lemma OneBest(score: Score, teams: seq<TeamLevels>, level: int)
    requires exists i :: 0 <= i < |teams| && score(teams[i], level).Some?
    ensures exists i :: IsBest(score, teams, level, i) && forall j :: IsBest(score, teams, level, j) ==> i == j
  {
    BestOfMeans(score, teams, level);
    var i := BestOf(score, teams, level).value.1;
    assert IsBest(score, teams, level, i);
  }

  lemma BestOfIff(score: Score, teams: seq<TeamLevels>, level: int, i: int)
    ensures IsBest(score, teams, level, i)
            <==> BestOf(score, teams, level).Some? && BestOf(score, teams, level).value.1 == i
  {
    BestOfMeans(score, teams, level);
  }

  predicate IsMarked(cell: Option<Cell>) {
    cell.Some? && cell.value.style == Best
  }

  lemma {:induction false} ChronologyUnmarked(stat: seq<TeamRows>, row: int, a: Address)
    ensures !IsMarked(ChronologyRowsCell(stat, row, a, None))
  {
    if stat != [] { ChronologyUnmarked(stat[..|stat| - 1], row, a); }
  }

  lemma TimesMarks(game: Game, teams: seq<TeamLevels>, row: int, a: Address)
    ensures IsMarked(TimesCell(game, teams, row, a, None)) <==>
              a.column >= START_COLUMN && IsBest(TimeScore, teams, a.column - START_COLUMN, a.row - row - 2)
    ensures IsMarked(TimesCell(game, teams, row, a, None)) ==>
              TimesCell(game, teams, row, a, None).value.value
              == Moment(TimeScore(teams[a.row - row - 2], a.column - START_COLUMN).value)
  {
    BestOfIff(TimeScore, teams, a.column - START_COLUMN, a.row - row - 2);
  }

  lemma DurationsMarks(game: Game, teams: seq<TeamLevels>, row: int, a: Address)
    ensures IsMarked(DurationsCell(game, teams, row, a, None)) <==>
              a.column >= LevelColumn(0) && IsBest(DurationScore, teams, a.column - LevelColumn(0), a.row - row - 2)
    ensures IsMarked(DurationsCell(game, teams, row, a, None)) ==>
              DurationsCell(game, teams, row, a, None).value.value
              == Clock(AsTime(DurationScore(teams[a.row - row - 2], a.column - LevelColumn(0)).value))
  {
    BestOfIff(DurationScore, teams, a.column - LevelColumn(0), a.row - row - 2);
  }

  // The team whose row of the times block (in the durations block) an address is in.
  function TimesTeam(a: Address): int {
    a.row - Blocks(0, false, 0)[0].firstRow - 2
  }

  function DurationsTeam(teams: seq<TeamLevels>, a: Address): int {
    a.row - (|teams| + 5) - 2
  }

  ghost predicate BestTime(teams: seq<TeamLevels>, a: Address) {
    a.column >= START_COLUMN && IsBest(TimeScore, teams, a.column - START_COLUMN, TimesTeam(a))
  }

  ghost predicate BestDuration(teams: seq<TeamLevels>, a: Address) {
    a.column >= LevelColumn(0) && IsBest(DurationScore, teams, a.column - LevelColumn(0), DurationsTeam(teams, a))
  }

  lemma LaterBlocksUnmarked(game: Game, teams: seq<TeamLevels>, stat: seq<TeamRows>, a: Address)
    ensures IsMarked(SheetCell(game, teams, stat, a)) <==> IsMarked(AfterDurations(game, teams, a))
  {
    var inChronology := InRows(a, ChronologyRow(teams), ChronologyRow(teams) + 2 * |stat|);
    ChronologyStage(game, teams, stat, a);
    BonusesStage(game, teams, a);
    ChronologyUnmarked(stat, ChronologyRow(teams) + 1, a);
    if inChronology || InBonuses(teams, a) {
      DurationsStage(game, teams, a);
      TimesStage(game, teams, a);
    }
  }

  lemma BestBlocksMarked(game: Game, teams: seq<TeamLevels>, a: Address)
    ensures IsMarked(AfterDurations(game, teams, a)) <==> BestTime(teams, a) || BestDuration(teams, a)
  {
    DurationsStage(game, teams, a);
    if InRows(a, |teams| + 5, 2 * |teams| + 7) {
      DurationsMarks(game, teams, |teams| + 5, a);
    } else {
      TimesStage(game, teams, a);
      TimesMarks(game, teams, 2, a);
    }
  }

  // Exactly the best cells of the two blocks are marked: in the times block the smallest time of the
  // column, in the durations block the smallest duration that is not zero, in the topmost row that has it.
  lemma MarkedIffBest(game: Game, teams: seq<TeamLevels>, stat: seq<TeamRows>, a: Address)
    ensures IsMarked(SheetCell(game, teams, stat, a)) <==> BestTime(teams, a) || BestDuration(teams, a)
  {
    LaterBlocksUnmarked(game, teams, stat, a);
    BestBlocksMarked(game, teams, a);
  }

  // A marked cell shows the smallest time, or the smallest duration without its whole days.
  lemma MarkedTimeIsSmallest(game: Game, teams: seq<TeamLevels>, stat: seq<TeamRows>, a: Address)
    requires BestTime(teams, a)
    ensures SheetCell(game, teams, stat, a)
         == Some(Cell(Moment(TimeScore(teams[TimesTeam(a)], a.column - START_COLUMN).value), Best))
  {
    ChronologyStage(game, teams, stat, a);
    BonusesStage(game, teams, a);
    DurationsStage(game, teams, a);
    TimesStage(game, teams, a);
    TimesMarks(game, teams, 2, a);
  }

  lemma MarkedDurationIsSmallest(game: Game, teams: seq<TeamLevels>, stat: seq<TeamRows>, a: Address)
    requires BestDuration(teams, a)
    ensures SheetCell(game, teams, stat, a)
         == Some(Cell(Clock(AsTime(DurationScore(teams[DurationsTeam(teams, a)], a.column - LevelColumn(0)).value)),
                      Best))
  {
    ChronologyStage(game, teams, stat, a);
    BonusesStage(game, teams, a);
    DurationsStage(game, teams, a);
    DurationsMarks(game, teams, |teams| + 5, a);
  }

  // A level somebody has a time for has one marked cell in the times block.
  lemma OneTimeMark(game: Game, teams: seq<TeamLevels>, stat: seq<TeamRows>, level: nat)
    requires exists i :: 0 <= i < |teams| && TimeScore(teams[i], level).Some?
    ensures exists i :: IsBest(TimeScore, teams, level, i)
                        && MarkedRows(game, teams, stat, START_COLUMN + level, 2, |teams| + 3) == {i + 4}
  {
    OneBest(TimeScore, teams, level);
    var i :| IsBest(TimeScore, teams, level, i);
    assert BestTime(teams, Address(i + 4, START_COLUMN + level));
    OnlyRow(game, teams, stat, START_COLUMN + level, 2, |teams| + 3, i + 4);
  }

  // A level somebody has a duration other than zero for has one marked cell in the durations block.
  lemma OneDurationMark(game: Game, teams: seq<TeamLevels>, stat: seq<TeamRows>, level: nat)
    requires exists i :: 0 <= i < |teams| && DurationScore(teams[i], level).Some?
    ensures exists i :: IsBest(DurationScore, teams, level, i)
                        && MarkedRows(game, teams, stat, LevelColumn(level), |teams| + 5, 2 * |teams| + 7)
                            == {i + |teams| + 7}
  {
    OneBest(DurationScore, teams, level);
    var i :| IsBest(DurationScore, teams, level, i);
    assert BestDuration(teams, Address(i + |teams| + 7, LevelColumn(level)));
    OnlyRow(game, teams, stat, LevelColumn(level), |teams| + 5, 2 * |teams| + 7, i + |teams| + 7);
  }

  function MarkedRows(
    game: Game, teams: seq<TeamLevels>, stat: seq<TeamRows>, column: int, firstRow: int, lastRow: int): set<int> {
    set row | firstRow <= row <= lastRow && IsMarked(SheetCell(game, teams, stat, Address(row, column)))
  }

  lemma MarkedRowIsBest(game: Game, teams: seq<TeamLevels>, stat: seq<TeamRows>, column: int, row: int, best: int)
    requires || (BestTime(teams, Address(best, column)) && InRows(Address(row, column), 2, |teams| + 3))
             || (BestDuration(teams, Address(best, column))
                 && InRows(Address(row, column), |teams| + 5, 2 * |teams| + 7))
    ensures IsMarked(SheetCell(game, teams, stat, Address(row, column))) <==> row == best
  {
    MarkedIffBest(game, teams, stat, Address(row, column));
  }

  lemma OnlyRow(
    game: Game, teams: seq<TeamLevels>, stat: seq<TeamRows>, column: int, firstRow: int, lastRow: int, best: int)
    requires || (BestTime(teams, Address(best, column)) && firstRow == 2 && lastRow == |teams| + 3)
             || (BestDuration(teams, Address(best, column)) && firstRow == |teams| + 5 && lastRow == 2 * |teams| + 7)
    ensures MarkedRows(game, teams, stat, column, firstRow, lastRow) == {best}
  {
    forall row | firstRow <= row <= lastRow
      ensures IsMarked(SheetCell(game, teams, stat, Address(row, column))) <==> row == best
    {
      MarkedRowIsBest(game, teams, stat, column, row, best);
    }
    assert firstRow <= best <= lastRow;
  }

  // In the bonuses block the column after the last level shows totals only: a bonus on a level with the
  // number of the finish has no cell of its own.
  lemma FinishShowsTotal(game: Game, teams: seq<TeamLevels>, stat: seq<TeamRows>, i: nat)
    requires HasBonuses(teams) && i < |teams|
    ensures SheetCell(game, teams, stat, Address(2 * |teams| + 11 + i, LevelColumn(|game.levels|)))
         == Some(Cell(Minutes(teams[i].TotalBonus()), Accent))
  {
    var a := Address(2 * |teams| + 11 + i, LevelColumn(|game.levels|));
    ChronologyStage(game, teams, stat, a);
    BonusesStage(game, teams, a);
  }

  // Every other level of a team's bonuses has its sum in a cell of its own.
  lemma BonusShownIff(game: Game, teams: seq<TeamLevels>, stat: seq<TeamRows>, i: nat, level: nat)
    requires i < |teams| && Get(teams[i].bonuses, Some(level)) != []
    ensures SheetCell(game, teams, stat, Address(2 * |teams| + 11 + i, LevelColumn(level)))
            == Some(Cell(Minutes(teams[i].LevelBonus(level)), Data))
            <==> level != |game.levels|
  {
    var a := Address(2 * |teams| + 11 + i, LevelColumn(level));
    assert HasBonuses(teams) by { assert teams[i].bonuses != []; }
    ChronologyStage(game, teams, stat, a);
    BonusesStage(game, teams, a);
  }

  // A level of the game has its name and its number, counted from one, over its column.
  lemma {:induction false} HeaderShowsLevel(levels: seq<Level>, row: int, caption: string, k: nat)
    requires k < |levels| && forall i, j :: 0 <= i < j < |levels| ==> levels[i].number != levels[j].number
    ensures HeaderCell(levels, row, caption, Address(row, LevelColumn(levels[k].number)), None)
         == Some(Cell(Text(levels[k].nameId), Header))
    ensures HeaderCell(levels, row, caption, Address(row + 1, LevelColumn(levels[k].number)), None)
         == Some(Cell(Number(levels[k].number + 1), Header))
  {
    var n := |levels| - 1;
    if k < n {
      HeaderShowsLevel(levels[..n], row, caption, k);
      assert levels[..n][k] == levels[k] && levels[n].number != levels[k].number;
    }
  }

  // The k-th team of the chronology has the rows 2k and 2k + 1 under the caption: its name, its start times
  // in order, and under each the number of the level, counted from one.
  lemma {:induction false} ChronologyShowsTeam(stat: seq<TeamRows>, row: int, k: nat, i: nat)
    requires k < |stat|
    ensures var first := row + 1 + 2 * k;
            && ChronologyCell(stat, row, Address(first, LABEL_COLUMN), None) == Some(Cell(Text(stat[k].name), TeamName))
            && (i < |stat[k].rows| ==>
                  && ChronologyCell(stat, row, Address(first, START_COLUMN + i), None)
                     == Some(Cell(Moment(stat[k].rows[i].startAt), Data))
                  && ChronologyCell(stat, row, Address(first + 1, START_COLUMN + i), None)
                     == Some(Cell(Number(stat[k].rows[i].levelNumber + 1), Header)))
            && (i >= |stat[k].rows| ==> ChronologyCell(stat, row, Address(first, START_COLUMN + i), None) == None)
  {
    if k < |stat| - 1 {
      ChronologyShowsTeam(stat[..|stat| - 1], row, k, i);
    }
  }

  // An average is the whole number nearest to the exact one, and of two the even one.
  lemma MeanIsNearest(total: int, count: nat)
    requires count > 0
    ensures -(count as int) <= 2 * (Mean(total, count) * count - total) <= count
    ensures 2 * (Mean(total, count) * count - total) == count || 2 * (total - Mean(total, count) * count) == count ==>
              Mean(total, count) % 2 == 0
  {
    var quotient, rest := total / count, total % count;
    assert total == quotient * count + rest;
    assert (quotient + 1) * count == quotient * count + count;
  }

  // The teams of computed results have proper dictionaries, so the sheet can be built from them.
  lemma ResultsHaveDicts(team: TeamRows, bonuses: map<nat, seq<BonusEvent>>)
    ensures HasDicts(LevelsOf(team, bonuses))
  {
    RouteKeys(TimeLevel, TimesOf(team.rows));
    RouteKeys(TimedeltaLevel, Durations(TimesOf(team.rows)));
    RouteKeys(BonusLevel, Resolved(team.rows, BonusesOf(bonuses, team.teamId)));
  }
}
