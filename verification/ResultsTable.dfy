// The results of a game as cells of one sheet: four blocks, one under the other.
// What every writer leaves at an address is a function of what was there before.
module TableCells {
  import opened Common
  import opened Grouping
  import opened Results

  const LABEL_COLUMN := 1
  const START_COLUMN := 2
  const BLOCK_GAP_ROWS := 2
  const DAY: int := 86400000000
  const BONUSES_TITLE := "Бонусы, мин"
  const TOTAL_TITLE := "Итого"
  const START_TITLE := 0
  const LEVEL_TIMES_TITLE := "Время взятия"
  const LEVEL_DURATIONS_TITLE := "Время на уровне"
  const CHRONOLOGY_TITLE := "Хронология"
  const AVERAGE_TITLE := "Среднее"

  datatype Address = Address(row: int, column: int)

  const GAME_NAME := Address(1, 1)

  datatype Style = Plain | Title | Section | Header | TeamName | Data | Accent | Best

  // A moment, a time of day, or minutes given as microseconds.
  datatype Value = Empty | Text(text: string) | Number(n: int) | Moment(at: int) | Clock(time: int) | Minutes(td: int)

  datatype Cell = Cell(value: Value, style: Style)

  type Fields = map<Address, Cell>

  datatype Level = Level(nameId: string, number: nat)

  datatype Game = Game(name: string, levels: seq<Level>)

  function At(fields: Fields, a: Address): Option<Cell> {
    if a in fields then Some(fields[a]) else None
  }

  function LevelColumn(number: int): int {
    START_COLUMN + number + 1
  }

  // The level with a number, the last of them.
  function Numbered(levels: seq<Level>, number: int): Option<Level> {
    if levels == [] then None
    else if levels[|levels| - 1].number == number then Some(levels[|levels| - 1])
    else Numbered(levels[..|levels| - 1], number)
  }

  function HeaderCell(levels: seq<Level>, row: int, caption: string, a: Address, before: Option<Cell>): Option<Cell> {
    if a.row != row && a.row != row + 1 then before
    else if a.column == LABEL_COLUMN then (if a.row == row then Some(Cell(Text(caption), Section)) else before)
    else if a.column == START_COLUMN then (if a.row == row then before else Some(Cell(Number(START_TITLE), Header)))
    else LevelHeaderCell(Numbered(levels, a.column - LevelColumn(0)), a.row == row, before)
  }

  function LevelHeaderCell(level: Option<Level>, top: bool, before: Option<Cell>): Option<Cell> {
    if level.None? then before
    else if top then Some(Cell(Text(level.value.nameId), Header))
    else Some(Cell(Number(level.value.number + 1), Header))
  }

  predicate Inside(a: Address, topLeft: Address, rows: int, columns: int) {
    topLeft.row <= a.row < topLeft.row + rows && topLeft.column <= a.column < topLeft.column + columns
  }

  function GridCell(topLeft: Address, rows: int, columns: int, a: Address, before: Option<Cell>): Option<Cell> {
    if Inside(a, topLeft, rows, columns) then Some(Cell(Empty, Data)) else before
  }

  // ------------------------------------------------------------------ the dictionaries of a team

  predicate IsDict<K(==), V>(groups: seq<Group<K, V>>) {
    DistinctKeys(groups) && NonEmptyGroups(groups)
  }

  predicate HasDicts(team: TeamLevels) {
    IsDict(team.levelsTimes) && IsDict(team.levelsTimedelta) && IsDict(team.bonuses)
  }

  lemma {:induction false} GetOfPrefix<K, V>(groups: seq<Group<K, V>>, k: nat, key: K)
    requires DistinctKeys(groups) && k < |groups|
    ensures Get(groups[..k + 1], key) == if groups[k].key == key then groups[k].items else Get(groups[..k], key)
    ensures groups[k].key == key ==> Get(groups[..k], key) == []
  {
    if k > 0 {
      GetOfPrefix(groups[1..], k - 1, key);
      assert groups[..k + 1][1..] == groups[1..][..k] && groups[..k][1..] == groups[1..][..k - 1];
      assert groups[0].key != groups[k].key;
    }
  }

  // What a team has in a column of the times block: its earliest time on the level.
  function TimeScore(team: TeamLevels, level: int): Option<int> {
    if level < 0 then None
    else
      var time := Earliest(Get(team.levelsTimes, level));
      if time.Some? then Some(time.value.time) else None
  }

  // How long a team was on a level, when it was on it and left it.
  function Duration(team: TeamLevels, level: int): Option<int> {
    if level < 0 || Get(team.levelsTimedelta, level) == [] then None else Some(team.LevelTimedeltaOf(level).td)
  }

  // A duration that counts for the best one: not zero.
  function DurationScore(team: TeamLevels, level: int): Option<int> {
    var td := Duration(team, level);
    if td == Some(0) then None else td
  }

  type Score = (TeamLevels, int) -> Option<int>

  // The smallest score and the first team that has it.
  function BestOf(score: Score, teams: seq<TeamLevels>, level: int): Option<(int, int)> {
    if teams == [] then None
    else Better(BestOf(score, teams[..|teams| - 1], level), score(teams[|teams| - 1], level), |teams| - 1)
  }

  function Better(best: Option<(int, int)>, score: Option<int>, index: int): Option<(int, int)> {
    if score.Some? && (best.None? || score.value < best.value.0) then Some((score.value, index)) else best
  }

  // Team `i` has the smallest score of the column, and no team above it has the same.
  ghost predicate IsBest(score: Score, teams: seq<TeamLevels>, level: int, i: int) {
    && 0 <= i < |teams| && score(teams[i], level).Some?
    && (forall j :: 0 <= j < |teams| && score(teams[j], level).Some? ==>
          score(teams[i], level).value <= score(teams[j], level).value)
    && (forall j :: 0 <= j < i && score(teams[j], level).Some? ==>
          score(teams[i], level).value < score(teams[j], level).value)
  }

  lemma {:induction false} BestOfMeans(score: Score, teams: seq<TeamLevels>, level: int)
    ensures BestOf(score, teams, level).None? <==> forall i :: 0 <= i < |teams| ==> score(teams[i], level).None?
    ensures BestOf(score, teams, level).Some? ==>
              var (value, i) := BestOf(score, teams, level).value;
              IsBest(score, teams, level, i) && score(teams[i], level) == Some(value)
  {
    if teams != [] {
      var n := |teams| - 1;
      var rest := teams[..n];
      BestOfMeans(score, rest, level);
      assert forall j :: 0 <= j < n ==> rest[j] == teams[j];
      if BestOf(score, rest, level).Some? {
        assert IsBest(score, rest, level, BestOf(score, rest, level).value.1);
      }
    }
  }

  // ------------------------------------------------------------------ the times block

  function TeamLabel(team: TeamLevels): Cell {
    Cell(Text(team.name), TeamName)
  }

  function TimesTeamCell(team: TeamLevels, column: int, before: Option<Cell>): Option<Cell> {
    if column == LABEL_COLUMN then Some(TeamLabel(team))
    else
      var time := TimeScore(team, column - START_COLUMN);
      if time.Some? then Some(Cell(Moment(time.value), Data)) else before
  }

  function TimesRowsCell(teams: seq<TeamLevels>, firstRow: int, a: Address, before: Option<Cell>): Option<Cell> {
    if firstRow <= a.row < firstRow + |teams| then TimesTeamCell(teams[a.row - firstRow], a.column, before) else before
  }

  function Marked(cell: Option<Cell>): Option<Cell> {
    if cell.Some? then Some(cell.value.(style := Best)) else None
  }

  // The best of a column is marked.
  function MarkedCell(score: Score, teams: seq<TeamLevels>, firstRow: int, firstColumn: int, a: Address,
      before: Option<Cell>): Option<Cell> {
    var best := BestOf(score, teams, a.column - firstColumn);
    if a.column >= firstColumn && best.Some? && a.row == firstRow + best.value.1 then Marked(before) else before
  }

  function TimesCell(game: Game, teams: seq<TeamLevels>, row: int, a: Address, before: Option<Cell>): Option<Cell> {
    var header := HeaderCell(game.levels, row, LEVEL_TIMES_TITLE, a, before);
    var grid := GridCell(Address(row + 2, START_COLUMN), |teams|, |game.levels| + 1, a, header);
    MarkedCell(TimeScore, teams, row + 2, START_COLUMN, a, TimesRowsCell(teams, row + 2, a, grid))
  }

  // ------------------------------------------------------------------ the durations block

  // Only the part of a duration below a day is shown.
  function AsTime(td: int): int {
    td % DAY
  }

  // The whole number nearest to total / count, ties to the even one.
  function Mean(total: int, count: nat): int
    requires count > 0
  {
    var quotient := total / count;
    var doubled := 2 * (total % count);
    if doubled > count || (doubled == count && quotient % 2 == 1) then quotient + 1 else quotient
  }

  function DurationsTeamCell(team: TeamLevels, column: int, before: Option<Cell>): Option<Cell> {
    if column == LABEL_COLUMN then Some(TeamLabel(team))
    else
      var td := Duration(team, column - LevelColumn(0));
      if td.Some? then Some(Cell(Clock(AsTime(td.value)), Data)) else before
  }

  function DurationsRowsCell(teams: seq<TeamLevels>, firstRow: int, a: Address, before: Option<Cell>): Option<Cell> {
    if firstRow <= a.row < firstRow + |teams| then DurationsTeamCell(teams[a.row - firstRow], a.column, before)
    else before
  }

  // The durations of a level, team by team.
  function Tds(teams: seq<TeamLevels>, level: int): seq<int> {
    if teams == [] then []
    else
      var td := Duration(teams[|teams| - 1], level);
      Tds(teams[..|teams| - 1], level) + if td.Some? then [td.value] else []
  }

  predicate AnyDuration(teams: seq<TeamLevels>) {
    exists i :: 0 <= i < |teams| && teams[i].levelsTimedelta != []
  }

  function Id(n: int): int { n }

  function AverageCell(teams: seq<TeamLevels>, row: int, a: Address, before: Option<Cell>): Option<Cell> {
    if a.row != row || !AnyDuration(teams) then before
    else if a.column == LABEL_COLUMN then Some(Cell(Text(AVERAGE_TITLE), Accent))
    else
      var tds := Tds(teams, a.column - LevelColumn(0));
      if tds == [] then before else Some(Cell(Clock(AsTime(Mean(Sum(Id, tds), |tds|))), Accent))
  }

  function MarkedDurationsCell(
    game: Game, teams: seq<TeamLevels>, row: int, a: Address, before: Option<Cell>): Option<Cell> {
    var header := HeaderCell(game.levels, row, LEVEL_DURATIONS_TITLE, a, before);
    var grid := GridCell(Address(row + 2, LevelColumn(0)), |teams|, |game.levels|, a, header);
    MarkedCell(DurationScore, teams, row + 2, LevelColumn(0), a, DurationsRowsCell(teams, row + 2, a, grid))
  }

  function DurationsCell(game: Game, teams: seq<TeamLevels>, row: int, a: Address, before: Option<Cell>): Option<Cell> {
    AverageCell(teams, row + 2 + |teams|, a, MarkedDurationsCell(game, teams, row, a, before))
  }

  // ------------------------------------------------------------------ the bonuses block

  predicate HasBonuses(teams: seq<TeamLevels>) {
    exists i :: 0 <= i < |teams| && teams[i].bonuses != []
  }

  function TotalHeaderCell(row: int, column: int, a: Address, before: Option<Cell>): Option<Cell> {
    if a == Address(row, column) then Some(Cell(Text(TOTAL_TITLE), Header))
    else if a == Address(row + 1, column) then Some(Cell(Empty, Header))
    else before
  }

  function BonusLevelCell(team: TeamLevels, column: int, before: Option<Cell>): Option<Cell> {
    if column == LABEL_COLUMN then Some(TeamLabel(team))
    else
      var level := column - LevelColumn(0);
      if level >= 0 && Get(team.bonuses, Some(level)) != [] then Some(Cell(Minutes(team.LevelBonus(level)), Data))
      else before
  }

  // The total is written last, over whatever a level with the number of the finish would have there.
  function BonusTeamCell(team: TeamLevels, totalColumn: int, column: int, before: Option<Cell>): Option<Cell> {
    if column == totalColumn then Some(Cell(Minutes(team.TotalBonus()), Accent))
    else BonusLevelCell(team, column, before)
  }

  function BonusRowsCell(
    teams: seq<TeamLevels>, totalColumn: int, firstRow: int, a: Address, before: Option<Cell>): Option<Cell> {
    if firstRow <= a.row < firstRow + |teams| then BonusTeamCell(teams[a.row - firstRow], totalColumn, a.column, before)
    else before
  }

  function BonusesCell(game: Game, teams: seq<TeamLevels>, row: int, a: Address, before: Option<Cell>): Option<Cell> {
    if !HasBonuses(teams) then before
    else
      var totalColumn := LevelColumn(|game.levels|);
      var header := HeaderCell(game.levels, row, BONUSES_TITLE, a, before);
      var total := TotalHeaderCell(row, totalColumn, a, header);
      var grid := GridCell(Address(row + 2, LevelColumn(0)), |teams|, |game.levels|, a, total);
      BonusRowsCell(teams, totalColumn, row + 2, a, grid)
  }

  // ------------------------------------------------------------------ the chronology block

  // Two rows for a team: when, and which level.
  function TeamChronologyCell(team: TeamRows, top: bool, column: int, before: Option<Cell>): Option<Cell> {
    var k := column - START_COLUMN;
    if column == LABEL_COLUMN then (if top then Some(Cell(Text(team.name), TeamName)) else before)
    else if !(0 <= k < |team.rows|) then before
    else if top then Some(Cell(Moment(team.rows[k].startAt), Data))
    else Some(Cell(Number(team.rows[k].levelNumber + 1), Header))
  }

  function ChronologyRowsCell(stat: seq<TeamRows>, row: int, a: Address, before: Option<Cell>): Option<Cell>
    decreases |stat|
  {
    if stat == [] then before
    else
      var n := |stat| - 1;
      if a.row == row + 2 * n || a.row == row + 2 * n + 1
      then TeamChronologyCell(stat[n], a.row == row + 2 * n, a.column, before)
      else ChronologyRowsCell(stat[..n], row, a, before)
  }

  function ChronologyCell(stat: seq<TeamRows>, row: int, a: Address, before: Option<Cell>): Option<Cell> {
    if a == Address(row, LABEL_COLUMN) then Some(Cell(Text(CHRONOLOGY_TITLE), Section))
    else ChronologyRowsCell(stat, row + 1, a, before)
  }
}

module ResultsTable {
  import opened Common
  import opened Grouping
  import opened Results
  import opened TableCells

  type BestCells = map<int, (int, int)>

  function KeepBest(best: BestCells, column: int, value: int, row: int): BestCells {
    if column !in best || value < best[column].0 then best[column := (value, row)] else best
  }

  function Looked(best: BestCells, column: int): Option<(int, int)> {
    if column in best then Some(best[column]) else None
  }

  function Placed(best: Option<(int, int)>, firstRow: int): Option<(int, int)> {
    if best.Some? then Some((best.value.0, firstRow + best.value.1)) else None
  }

  // The dictionary of best cells holds, column by column, the best of the teams so far.
  ghost predicate Keeps(best: BestCells, score: Score, teams: seq<TeamLevels>, firstRow: int, firstColumn: int) {
    && (forall column :: column in best ==> column >= firstColumn)
    && forall level: nat {:trigger BestOf(score, teams, level)} ::
         Looked(best, firstColumn + level) == Placed(BestOf(score, teams, level), firstRow)
  }

  class Sheet {
    var fields: Fields

    constructor (title: string)
      ensures fields == map[GAME_NAME := Cell(Text(title), Title)]
    {
      fields := map[GAME_NAME := Cell(Text(title), Title)];
    }

    method Put(address: Address, cell: Cell)
      modifies this
      ensures forall a {:trigger At(fields, a)} :: At(fields, a) == if a == address then Some(cell)
          else At(old(fields), a)
    {
      fields := fields[address := cell];
    }

    method AddLevelsHeader(game: Game, row: int, caption: string) returns (next: int)
      modifies this
      ensures next == row + 2
      ensures forall a {:trigger At(fields, a)} ::
          At(fields, a) == HeaderCell(game.levels, row, caption, a, At(old(fields), a))
    {
      Put(Address(row, LABEL_COLUMN), Cell(Text(caption), Section));
      Put(Address(row + 1, START_COLUMN), Cell(Number(START_TITLE), Header));
      for k := 0 to |game.levels|
        invariant forall a {:trigger At(fields, a)} ::
          At(fields, a) == HeaderCell(game.levels[..k], row, caption, a, At(old(fields), a))
      {
        var level := game.levels[k];
        var column := LevelColumn(level.number);
        assert game.levels[..k + 1][..k] == game.levels[..k];
        Put(Address(row, column), Cell(Text(level.nameId), Header));
        Put(Address(row + 1, column), Cell(Number(level.number + 1), Header));
      }
      assert game.levels[..|game.levels|] == game.levels;
      return row + 2;
    }

    method FillGrid(topLeft: Address, rows: nat, columns: nat)
      modifies this
      ensures forall a {:trigger At(fields, a)} ::
          At(fields, a) == GridCell(topLeft, rows, columns, a, At(old(fields), a))
    {
      for row := 0 to rows
        invariant forall a {:trigger At(fields, a)} ::
            At(fields, a) == GridCell(topLeft, row, columns, a, At(old(fields), a))
      {
        ghost var above := fields;
        for column := 0 to columns
          invariant forall a {:trigger At(fields, a)} ::
            At(fields, a) == GridCell(Address(topLeft.row + row, topLeft.column), 1, column, a, At(above, a))
        {
          Put(Address(topLeft.row + row, topLeft.column + column), Cell(Empty, Data));
        }
      }
    }

    // The row of one team in the times block.
    method AddTeamTimes(team: TeamLevels, row: int, best: BestCells, ghost above: seq<TeamLevels>)
        returns (kept: BestCells)
      requires HasDicts(team) && Keeps(best, TimeScore, above, row - |above|, START_COLUMN)
      modifies this
      ensures Keeps(kept, TimeScore, above + [team], row - |above|, START_COLUMN)
      ensures forall a {:trigger At(fields, a)} ::
                At(fields, a) ==
                if a.row == row then TimesTeamCell(team, a.column, At(old(fields), a))
                else At(old(fields), a)
    {
      kept := best;
      Put(Address(row, LABEL_COLUMN), TeamLabel(team));
      NothingKeeps(best, TimeScore, above, FirstTimes(team, 0), row - |above|, START_COLUMN);
      for k := 0 to |team.levelsTimes|
        invariant Keeps(kept, TimeScore, above + [FirstTimes(team, k)], row - |above|, START_COLUMN)
        invariant forall a {:trigger At(fields, a)} ::
          At(fields, a) ==
          if a.row == row then TimesTeamCell(FirstTimes(team, k), a.column, At(old(fields), a))
          else At(old(fields), a)
      {
        var level := team.levelsTimes[k].key;
        TimeKept(team, k, kept, above, row - |above|);
        TimeScoreOfPrefix(team, k);
        var levelTime := team.GetLevelTime(level);
        if levelTime.Some? {
          Put(Address(row, START_COLUMN + level), Cell(Moment(levelTime.value.time), Data));
          kept := KeepBest(kept, START_COLUMN + level, levelTime.value.time, row);
        }
      }
      assert team.levelsTimes[..|team.levelsTimes|] == team.levelsTimes;
      assert FirstTimes(team, |team.levelsTimes|) == team;
    }

    method MarkBest(
      best: BestCells, ghost score: Score, ghost teams: seq<TeamLevels>, ghost firstRow: int, ghost firstColumn: int)
      requires Keeps(best, score, teams, firstRow, firstColumn)
      requires forall column :: column in best ==> Address(best[column].1, column) in fields
      modifies this
      ensures forall a {:trigger At(fields, a)} ::
                At(fields, a) == MarkedCell(score, teams, firstRow, firstColumn, a, At(old(fields), a))
    {
      var columns := best.Keys;
      while columns != {}
        invariant columns <= best.Keys && forall column :: column in best ==> Address(best[column].1, column) in fields
        invariant forall a {:trigger At(fields, a)} :: At(fields, a) ==
                    if a.column in best && a.column !in columns && best[a.column].1 == a.row
                    then Marked(At(old(fields), a)) else At(old(fields), a)
        decreases |columns|
      {
        var column :| column in columns;
        var address := Address(best[column].1, column);
        ghost var was := fields;
        assert At(fields, address) == At(old(fields), address);
        Put(address, fields[address].(style := Best));
        assert forall a :: a in was ==> At(fields, a).Some?;
        columns := columns - {column};
      }
      forall a ensures At(fields, a) == MarkedCell(score, teams, firstRow, firstColumn, a, At(old(fields), a)) {
        MarkedWhereKept(best, score, teams, firstRow, firstColumn, a);
      }
    }

    // The rows of the teams in the times block, and the best cells of their columns.
    method AddTimesRows(teams: seq<TeamLevels>, firstRow: int) returns (best: BestCells)
      requires forall i :: 0 <= i < |teams| ==> HasDicts(teams[i])
      modifies this
      ensures Keeps(best, TimeScore, teams, firstRow, START_COLUMN)
      ensures forall a {:trigger At(fields, a)} ::
          At(fields, a) == TimesRowsCell(teams, firstRow, a, At(old(fields), a))
    {
      best := map[];
      for i := 0 to |teams|
        invariant Keeps(best, TimeScore, teams[..i], firstRow, START_COLUMN)
        invariant forall a {:trigger At(fields, a)} ::
            At(fields, a) == TimesRowsCell(teams[..i], firstRow, a, At(old(fields), a))
      {
        assert teams[..i + 1] == teams[..i] + [teams[i]];
        best := AddTeamTimes(teams[i], firstRow + i, best, teams[..i]);
      }
      assert teams[..|teams|] == teams;
    }

    method AddLevelTimesPart(game: Game, teams: seq<TeamLevels>, row: int) returns (last: int)
      requires forall i :: 0 <= i < |teams| ==> HasDicts(teams[i])
      modifies this
      ensures last == row + 1 + |teams|
      ensures forall a {:trigger At(fields, a)} :: At(fields, a) == TimesCell(game, teams, row, a, At(old(fields), a))
    {
      var firstRow := AddLevelsHeader(game, row, LEVEL_TIMES_TITLE);
      FillGrid(Address(firstRow, START_COLUMN), |teams|, |game.levels| + 1);
      var best := AddTimesRows(teams, firstRow);
      forall column | column in best ensures At(fields, Address(best[column].1, column)).Some? {
        BestIsScored(best, TimeScore, teams, firstRow, START_COLUMN, column);
      }
      MarkBest(best, TimeScore, teams, firstRow, START_COLUMN);
      return firstRow + |teams| - 1;
    }

    // The row of one team in the durations block.
    method AddTeamDurations(
      team: TeamLevels, row: int, best: BestCells, durations: seq<Group<nat, int>>, ghost above: seq<TeamLevels>)
      returns (kept: BestCells, listed: seq<Group<nat, int>>)
      requires HasDicts(team) && Keeps(best, DurationScore, above, row - |above|, LevelColumn(0))
          && Lists(durations, above)
      modifies this
      ensures Keeps(kept, DurationScore, above + [team], row - |above|, LevelColumn(0)) && Lists(listed, above + [team])
      ensures forall a {:trigger At(fields, a)} ::
                At(fields, a) ==
                if a.row == row then DurationsTeamCell(team, a.column, At(old(fields), a))
                else At(old(fields), a)
    {
      kept, listed := best, durations;
      Put(Address(row, LABEL_COLUMN), TeamLabel(team));
      NothingKeeps(best, DurationScore, above, LeftLevels(team, 0), row - |above|, LevelColumn(0));
      NothingListed(durations, above, LeftLevels(team, 0));
      for k := 0 to |team.levelsTimedelta|
        invariant Keeps(kept, DurationScore, above + [LeftLevels(team, k)], row - |above|, LevelColumn(0))
        invariant Lists(listed, above + [LeftLevels(team, k)])
        invariant forall a {:trigger At(fields, a)} ::
          At(fields, a) ==
          if a.row == row then DurationsTeamCell(LeftLevels(team, k), a.column, At(old(fields), a))
          else At(old(fields), a)
      {
        var level := team.levelsTimedelta[k].key;
        var ltd := team.LevelTimedeltaOf(level);
        DurationKept(team, k, kept, above, row - |above|);
        DurationListed(team, k, listed, above);
        DurationOfPrefix(team, k);
        listed := Add(listed, level, ltd.td);
        Put(Address(row, LevelColumn(level)), Cell(Clock(AsTime(ltd.td)), Data));
        if ltd.td != 0 {
          kept := KeepBest(kept, LevelColumn(level), ltd.td, row);
        }
      }
      assert team.levelsTimedelta[..|team.levelsTimedelta|] == team.levelsTimedelta;
      assert LeftLevels(team, |team.levelsTimedelta|) == team;
    }

    method AddAveragesRow(durations: seq<Group<nat, int>>, row: int, ghost teams: seq<TeamLevels>)
      requires Lists(durations, teams) && forall i :: 0 <= i < |teams| ==> HasDicts(teams[i])
      modifies this
      ensures forall a {:trigger At(fields, a)} :: At(fields, a) == AverageCell(teams, row, a, At(old(fields), a))
    {
      ListedIffAny(durations, teams);
      if durations == [] { return; }
      Put(Address(row, LABEL_COLUMN), Cell(Text(AVERAGE_TITLE), Accent));
      ghost var was := fields;
      for k := 0 to |durations|
        invariant forall a {:trigger At(fields, a)} :: At(fields, a) == ListedCell(durations[..k], row, a, At(was, a))
      {
        var tds := durations[k].items;
        ListedCellOfPrefix(durations, k, row);
        var average := Mean(Sum(Id, tds), |tds|);
        Put(Address(row, LevelColumn(durations[k].key)), Cell(Clock(AsTime(average)), Accent));
      }
      assert durations[..|durations|] == durations;
      forall level: int | level >= 0 ensures Get(durations, level) == Tds(teams, level) { }
      forall level: int | level < 0 ensures Tds(teams, level) == [] { NoTds(teams, level); }
    }

    // The rows of the teams in the durations block, the best cells of their columns and the durations by level.
    method AddDurationRows(teams: seq<TeamLevels>, firstRow: int)
        returns (best: BestCells, durations: seq<Group<nat, int>>)
      requires forall i :: 0 <= i < |teams| ==> HasDicts(teams[i])
      modifies this
      ensures Keeps(best, DurationScore, teams, firstRow, LevelColumn(0)) && Lists(durations, teams)
      ensures forall a {:trigger At(fields, a)} ::
          At(fields, a) == DurationsRowsCell(teams, firstRow, a, At(old(fields), a))
    {
      best, durations := map[], [];
      for i := 0 to |teams|
        invariant Keeps(best, DurationScore, teams[..i], firstRow, LevelColumn(0)) && Lists(durations, teams[..i])
        invariant forall a {:trigger At(fields, a)} ::
          At(fields, a) == DurationsRowsCell(teams[..i], firstRow, a, At(old(fields), a))
      {
        assert teams[..i + 1] == teams[..i] + [teams[i]];
        best, durations := AddTeamDurations(teams[i], firstRow + i, best, durations, teams[..i]);
      }
      assert teams[..|teams|] == teams;
    }

    // The durations block without its last row.
    method AddMarkedDurations(game: Game, teams: seq<TeamLevels>, row: int) returns (durations: seq<Group<nat, int>>)
      requires forall i :: 0 <= i < |teams| ==> HasDicts(teams[i])
      modifies this
      ensures Lists(durations, teams)
      ensures forall a {:trigger At(fields, a)} ::
          At(fields, a) == MarkedDurationsCell(game, teams, row, a, At(old(fields), a))
    {
      var firstRow := AddLevelsHeader(game, row, LEVEL_DURATIONS_TITLE);
      FillGrid(Address(firstRow, LevelColumn(0)), |teams|, |game.levels|);
      var best;
      best, durations := AddDurationRows(teams, firstRow);
      forall column | column in best ensures At(fields, Address(best[column].1, column)).Some? {
        BestIsScored(best, DurationScore, teams, firstRow, LevelColumn(0), column);
      }
      MarkBest(best, DurationScore, teams, firstRow, LevelColumn(0));
    }

    method AddDurationsPart(game: Game, teams: seq<TeamLevels>, row: int) returns (averageRow: int)
      requires forall i :: 0 <= i < |teams| ==> HasDicts(teams[i])
      modifies this
      ensures averageRow == row + 2 + |teams|
      ensures forall a {:trigger At(fields, a)} ::
          At(fields, a) == DurationsCell(game, teams, row, a, At(old(fields), a))
    {
      var durations := AddMarkedDurations(game, teams, row);
      var lastTeamRow := row + 2 + |teams| - 1;
      AddAveragesRow(durations, lastTeamRow + 1, teams);
      return lastTeamRow + 1;
    }

    // The row of one team in the bonuses block.
    method AddTeamBonuses(team: TeamLevels, row: int, totalColumn: int)
      requires HasDicts(team) && totalColumn > LABEL_COLUMN
      modifies this
      ensures forall a {:trigger At(fields, a)} :: At(fields, a) ==
                if a.row == row then BonusTeamCell(team, totalColumn, a.column, At(old(fields), a))
                else At(old(fields), a)
    {
      Put(Address(row, LABEL_COLUMN), TeamLabel(team));
      for k := 0 to |team.bonuses|
        invariant forall a {:trigger At(fields, a)} ::
          At(fields, a) ==
          if a.row == row then BonusLevelCell(FirstBonuses(team, k), a.column, At(old(fields), a))
          else At(old(fields), a)
      {
        var level := team.bonuses[k].key;
        BonusOfPrefix(team, k);
        if level.Some? {
          Put(Address(row, LevelColumn(level.value)), Cell(Minutes(Sum(BonusOf, team.bonuses[k].items)), Data));
        }
      }
      assert team.bonuses[..|team.bonuses|] == team.bonuses && FirstBonuses(team, |team.bonuses|) == team;
      Put(Address(row, totalColumn), Cell(Minutes(team.TotalBonus()), Accent));
    }

    method AddBonusesPart(game: Game, teams: seq<TeamLevels>, row: int) returns (last: int)
      requires forall i :: 0 <= i < |teams| ==> HasDicts(teams[i])
      modifies this
      ensures last == if HasBonuses(teams) then row + 1 + |teams| else row - BLOCK_GAP_ROWS
      ensures forall a {:trigger At(fields, a)} :: At(fields, a) == BonusesCell(game, teams, row, a, At(old(fields), a))
    {
      if !HasBonuses(teams) { return row - BLOCK_GAP_ROWS; }
      var totalColumn := LevelColumn(|game.levels|);
      var firstRow := AddLevelsHeader(game, row, BONUSES_TITLE);
      Put(Address(firstRow - 2, totalColumn), Cell(Text(TOTAL_TITLE), Header));
      Put(Address(firstRow - 1, totalColumn), Cell(Empty, Header));
      FillGrid(Address(firstRow, LevelColumn(0)), |teams|, |game.levels|);
      ghost var grid := fields;
      for i := 0 to |teams|
        invariant forall a {:trigger At(fields, a)} ::
            At(fields, a) == BonusRowsCell(teams[..i], totalColumn, firstRow, a, At(grid, a))
      {
        assert teams[..i + 1] == teams[..i] + [teams[i]];
        AddTeamBonuses(teams[i], firstRow + i, totalColumn);
      }
      assert teams[..|teams|] == teams;
      return firstRow + |teams| - 1;
    }

    method AddChronologyPart(stat: seq<TeamRows>, firstRow: int) returns (last: int)
      modifies this
      ensures last == firstRow + 2 * |stat|
      ensures forall a {:trigger At(fields, a)} ::
          At(fields, a) == ChronologyCell(stat, firstRow, a, At(old(fields), a))
    {
      Put(Address(firstRow, LABEL_COLUMN), Cell(Text(CHRONOLOGY_TITLE), Section));
      var row := firstRow + 1;
      ghost var was := fields;
      for k := 0 to |stat|
        invariant row == firstRow + 1 + 2 * k
        invariant forall a {:trigger At(fields, a)} ::
            At(fields, a) == ChronologyRowsCell(stat[..k], firstRow + 1, a, At(was, a))
      {
        assert stat[..k + 1][..k] == stat[..k];
        ghost var above := fields;
        Put(Address(row, LABEL_COLUMN), Cell(Text(stat[k].name), TeamName));
        for i := 0 to |stat[k].rows|
          invariant forall a {:trigger At(fields, a)} ::
            At(fields, a) ==
            if a.row != row && a.row != row + 1 then At(above, a)
            else TeamChronologyCell(stat[k].(rows := stat[k].rows[..i]), a.row == row, a.column,
                                                     At(above, a))
        {
          var lt := stat[k].rows[i];
          Put(Address(row, START_COLUMN + i), Cell(Moment(lt.startAt), Data));
          Put(Address(row + 1, START_COLUMN + i), Cell(Number(lt.levelNumber + 1), Header));
        }
        assert stat[k].rows[..|stat[k].rows|] == stat[k].rows && stat[k].(rows := stat[k].rows) == stat[k];
        forall a: Address | a.row >= row ensures At(above, a) == At(was, a) {
          ChronologyOutside(stat[..k], firstRow + 1, a, At(was, a));
        }
        row := row + 2;
      }
      assert stat[..|stat|] == stat;
      ChronologyOutside(stat, firstRow + 1, Address(firstRow, LABEL_COLUMN), At(was, Address(firstRow, LABEL_COLUMN)));
      return row - 1;
    }
  }

  // A cell of the average row, from the lists as they are kept.
  function ListedCell(durations: seq<Group<nat, int>>, row: int, a: Address, before: Option<Cell>): Option<Cell> {
    var level := a.column - LevelColumn(0);
    if a.row != row || level < 0 then before
    else
      var tds := Get(durations, level);
      if tds == [] then before else Some(Cell(Clock(AsTime(Mean(Sum(Id, tds), |tds|))), Accent))
  }

  lemma ListedCellOfPrefix(durations: seq<Group<nat, int>>, k: nat, row: int)
    requires IsDict(durations) && k < |durations|
    ensures forall a: Address, before: Option<Cell> {:trigger ListedCell(durations[..k + 1], row, a, before)} ::
              ListedCell(durations[..k + 1], row, a, before)
              == if a == Address(row, LevelColumn(durations[k].key))
                 then Some(Cell(Clock(AsTime(Mean(Sum(Id, durations[k].items), |durations[k].items|))), Accent))
                 else ListedCell(durations[..k], row, a, before)
  {
    forall a: Address, before: Option<Cell> {:trigger ListedCell(durations[..k + 1], row, a, before)}
      ensures ListedCell(durations[..k + 1], row, a, before)
              == if a == Address(row, LevelColumn(durations[k].key))
                 then Some(Cell(Clock(AsTime(Mean(Sum(Id, durations[k].items), |durations[k].items|))), Accent))
                 else ListedCell(durations[..k], row, a, before)
    {
      ListedOneMore(durations, k, row, a, before);
    }
  }

  lemma ListedOneMore(durations: seq<Group<nat, int>>, k: nat, row: int, a: Address, before: Option<Cell>)
    requires IsDict(durations) && k < |durations|
    ensures ListedCell(durations[..k + 1], row, a, before)
            == if a == Address(row, LevelColumn(durations[k].key))
               then Some(Cell(Clock(AsTime(Mean(Sum(Id, durations[k].items), |durations[k].items|))), Accent))
               else ListedCell(durations[..k], row, a, before)
  {
    if a.column >= LevelColumn(0) {
      var level: nat := a.column - LevelColumn(0);
      GetOfPrefix(durations, k, level);
      assert Get(durations[..k + 1], level)
          == if durations[k].key == level then durations[k].items else Get(durations[..k], level);
    }
  }

  // The dictionary of durations holds, level by level, the durations of the teams so far.
  ghost predicate Lists(durations: seq<Group<nat, int>>, teams: seq<TeamLevels>) {
    && IsDict(durations)
    && forall level: nat {:trigger Tds(teams, level)} :: Get(durations, level) == Tds(teams, level)
  }

  lemma NothingListed(durations: seq<Group<nat, int>>, above: seq<TeamLevels>, team: TeamLevels)
    requires Lists(durations, above) && team.levelsTimedelta == []
    ensures Lists(durations, above + [team])
  {
    assert (above + [team])[..|above|] == above;
  }

  lemma MoreListed(
    durations: seq<Group<nat, int>>, above: seq<TeamLevels>, part: TeamLevels, next: TeamLevels, level: nat)
    requires Lists(durations, above + [part])
    requires Duration(part, level).None? && Duration(next, level).Some?
    requires forall other: int {:trigger Duration(next, other)} ::
        other != level ==> Duration(next, other) == Duration(part, other)
    ensures Lists(Add(durations, level, Duration(next, level).value), above + [next])
  {
    var td := Duration(next, level).value;
    assert (above + [part])[..|above|] == above && (above + [next])[..|above|] == above;
    AddKeys(durations, level, td);
    forall other: nat ensures Get(Add(durations, level, td), other) == Tds(above + [next], other) {
      AddGets(durations, level, td, other);
      assert Get(durations, other) == Tds(above + [part], other);
      assert other != level ==> Duration(next, other) == Duration(part, other);
    }
  }

  lemma {:induction false} TdsIffDuration(teams: seq<TeamLevels>, level: int)
    ensures Tds(teams, level) != [] <==> exists i :: 0 <= i < |teams| && Duration(teams[i], level).Some?
  {
    if teams != [] {
      var n := |teams| - 1;
      TdsIffDuration(teams[..n], level);
      assert forall j :: 0 <= j < n ==> teams[..n][j] == teams[j];
    }
  }

  lemma {:induction false} NoTds(teams: seq<TeamLevels>, level: int)
    requires level < 0
    ensures Tds(teams, level) == []
  {
    if teams != [] { NoTds(teams[..|teams| - 1], level); }
  }

  // There are lists exactly when some team has left some level.
  lemma ListedIffAny(durations: seq<Group<nat, int>>, teams: seq<TeamLevels>)
    requires Lists(durations, teams) && forall i :: 0 <= i < |teams| ==> HasDicts(teams[i])
    ensures durations != [] <==> AnyDuration(teams)
  {
    if durations != [] {
      var level := durations[0].key;
      assert Get(durations, level) == Tds(teams, level) == durations[0].items;
      TdsIffDuration(teams, level);
      var i :| 0 <= i < |teams| && Duration(teams[i], level).Some?;
      assert teams[i].levelsTimedelta != [];
    }
    if AnyDuration(teams) {
      var i :| 0 <= i < |teams| && teams[i].levelsTimedelta != [];
      var level := teams[i].levelsTimedelta[0].key;
      assert Duration(teams[i], level).Some?;
      TdsIffDuration(teams, level);
      assert Get(durations, level) == Tds(teams, level);
    }
  }

  // A team with only the first levels of its durations.
  function LeftLevels(team: TeamLevels, k: nat): TeamLevels
    requires k <= |team.levelsTimedelta|
  {
    team.(levelsTimedelta := team.levelsTimedelta[..k])
  }

  lemma DurationOfPrefix(team: TeamLevels, k: nat)
    requires IsDict(team.levelsTimedelta) && k < |team.levelsTimedelta|
    ensures forall level: int {:trigger Duration(LeftLevels(team, k + 1), level)} ::
              Duration(LeftLevels(team, k + 1), level)
              == if level == team.levelsTimedelta[k].key then Duration(team, level)
                  else Duration(LeftLevels(team, k), level)
    ensures Duration(LeftLevels(team, k), team.levelsTimedelta[k].key) == None
    ensures Duration(team, team.levelsTimedelta[k].key).Some?
  {
    var groups := team.levelsTimedelta;
    GroupIsGot(groups, k);
    forall level: nat ensures Get(groups[..k + 1], level) ==
        (if groups[k].key == level then groups[k].items else Get(groups[..k], level)) {
      GetOfPrefix(groups, k, level);
    }
    GetOfPrefix(groups, k, groups[k].key);
  }

  lemma DurationKept(team: TeamLevels, k: nat, kept: BestCells, above: seq<TeamLevels>, firstRow: int)
    requires IsDict(team.levelsTimedelta) && k < |team.levelsTimedelta|
    requires Keeps(kept, DurationScore, above + [LeftLevels(team, k)], firstRow, LevelColumn(0))
    ensures var level := team.levelsTimedelta[k].key;
            var td := team.LevelTimedeltaOf(level).td;
            Keeps(if td != 0 then KeepBest(kept, LevelColumn(level), td, firstRow + |above|) else kept,
                  DurationScore, above + [LeftLevels(team, k + 1)], firstRow, LevelColumn(0))
  {
    var level := team.levelsTimedelta[k].key;
    var part, next := LeftLevels(team, k), LeftLevels(team, k + 1);
    DurationOfPrefix(team, k);
    forall other: nat
      ensures DurationScore(next, other) == DurationScore(if other == level then team else part, other) {
      assert Duration(next, other) == if other == level then Duration(team, other) else Duration(part, other);
    }
    if team.LevelTimedeltaOf(level).td != 0 {
      BetterKept(kept, DurationScore, above, part, next, level, firstRow, LevelColumn(0));
    } else {
      SameKept(kept, DurationScore, above, part, next, firstRow, LevelColumn(0));
    }
  }

  lemma DurationListed(team: TeamLevels, k: nat, listed: seq<Group<nat, int>>, above: seq<TeamLevels>)
    requires IsDict(team.levelsTimedelta) && k < |team.levelsTimedelta|
    requires Lists(listed, above + [LeftLevels(team, k)])
    ensures var level := team.levelsTimedelta[k].key;
            Lists(Add(listed, level, team.LevelTimedeltaOf(level).td), above + [LeftLevels(team, k + 1)])
  {
    DurationOfPrefix(team, k);
    assert Duration(LeftLevels(team, k + 1), team.levelsTimedelta[k].key).Some?;
    MoreListed(listed, above, LeftLevels(team, k), LeftLevels(team, k + 1), team.levelsTimedelta[k].key);
  }

  // A team with only the first groups of its bonuses.
  function FirstBonuses(team: TeamLevels, k: nat): TeamLevels
    requires k <= |team.bonuses|
  {
    team.(bonuses := team.bonuses[..k])
  }

  lemma BonusOfPrefix(team: TeamLevels, k: nat)
    requires IsDict(team.bonuses) && k < |team.bonuses|
    ensures forall column: int, before: Option<Cell>
              {:trigger BonusLevelCell(FirstBonuses(team, k + 1), column, before)} ::
              BonusLevelCell(FirstBonuses(team, k + 1), column, before)
              == if team.bonuses[k].key.Some? && column == LevelColumn(team.bonuses[k].key.value)
                 then Some(Cell(Minutes(Sum(BonusOf, team.bonuses[k].items)), Data))
                 else BonusLevelCell(FirstBonuses(team, k), column, before)
  {
    forall column: int, before: Option<Cell> {:trigger BonusLevelCell(FirstBonuses(team, k + 1), column, before)}
      ensures BonusLevelCell(FirstBonuses(team, k + 1), column, before)
              == if team.bonuses[k].key.Some? && column == LevelColumn(team.bonuses[k].key.value)
                 then Some(Cell(Minutes(Sum(BonusOf, team.bonuses[k].items)), Data))
                 else BonusLevelCell(FirstBonuses(team, k), column, before)
    {
      BonusCellOfPrefix(team, k, column, before);
    }
  }

  lemma BonusCellOfPrefix(team: TeamLevels, k: nat, column: int, before: Option<Cell>)
    requires IsDict(team.bonuses) && k < |team.bonuses|
    ensures BonusLevelCell(FirstBonuses(team, k + 1), column, before)
            == if team.bonuses[k].key.Some? && column == LevelColumn(team.bonuses[k].key.value)
               then Some(Cell(Minutes(Sum(BonusOf, team.bonuses[k].items)), Data))
               else BonusLevelCell(FirstBonuses(team, k), column, before)
  {
    if column >= LevelColumn(0) {
      var level: nat := column - LevelColumn(0);
      GetOfPrefix(team.bonuses, k, Some(level));
      assert Get(FirstBonuses(team, k + 1).bonuses, Some(level))
          == if team.bonuses[k].key == Some(level) then team.bonuses[k].items
              else Get(FirstBonuses(team, k).bonuses, Some(level));
    }
  }

  lemma {:induction false} ChronologyOutside(stat: seq<TeamRows>, row: int, a: Address, before: Option<Cell>)
    requires a.row < row || a.row >= row + 2 * |stat|
    ensures ChronologyRowsCell(stat, row, a, before) == before
  {
    if stat != [] { ChronologyOutside(stat[..|stat| - 1], row, a, before); }
  }

  lemma BestIsScored(
    best: BestCells, score: Score, teams: seq<TeamLevels>, firstRow: int, firstColumn: int, column: int)
    requires Keeps(best, score, teams, firstRow, firstColumn) && column in best
    ensures column >= firstColumn
    ensures var i := best[column].1 - firstRow;
            0 <= i < |teams| && score(teams[i], column - firstColumn) == Some(best[column].0)
  {
    var level := column - firstColumn;
    BestOfMeans(score, teams, level);
    assert Looked(best, firstColumn + level) == Placed(BestOf(score, teams, level), firstRow);
  }

  lemma MarkedWhereKept(
    best: BestCells, score: Score, teams: seq<TeamLevels>, firstRow: int, firstColumn: int, a: Address)
    requires Keeps(best, score, teams, firstRow, firstColumn)
    ensures a.column in best && best[a.column].1 == a.row <==>
              && a.column >= firstColumn && BestOf(score, teams, a.column - firstColumn).Some?
              && a.row == firstRow + BestOf(score, teams, a.column - firstColumn).value.1
  {
    if a.column >= firstColumn {
      var level := a.column - firstColumn;
      assert Looked(best, firstColumn + level) == Placed(BestOf(score, teams, level), firstRow);
    }
  }

  // A team with only the first levels of its times.
  function FirstTimes(team: TeamLevels, k: nat): TeamLevels
    requires k <= |team.levelsTimes|
  {
    team.(levelsTimes := team.levelsTimes[..k])
  }

  lemma TimeScoreOfPrefix(team: TeamLevels, k: nat)
    requires IsDict(team.levelsTimes) && k < |team.levelsTimes|
    ensures forall level: int {:trigger TimeScore(FirstTimes(team, k + 1), level)} ::
              TimeScore(FirstTimes(team, k + 1), level)
              == if level == team.levelsTimes[k].key then TimeScore(team, level)
                  else TimeScore(FirstTimes(team, k), level)
    ensures TimeScore(FirstTimes(team, k), team.levelsTimes[k].key) == None
  {
    var groups := team.levelsTimes;
    GroupIsGot(groups, k);
    forall level: nat ensures Get(groups[..k + 1], level) ==
        (if groups[k].key == level then groups[k].items else Get(groups[..k], level)) {
      GetOfPrefix(groups, k, level);
    }
    GetOfPrefix(groups, k, groups[k].key);
  }

  lemma TimeKept(team: TeamLevels, k: nat, kept: BestCells, above: seq<TeamLevels>, firstRow: int)
    requires IsDict(team.levelsTimes) && k < |team.levelsTimes|
    requires Keeps(kept, TimeScore, above + [FirstTimes(team, k)], firstRow, START_COLUMN)
    ensures var level := team.levelsTimes[k].key;
            var time := TimeScore(team, level);
            Keeps(if time.Some? then KeepBest(kept, START_COLUMN + level, time.value, firstRow + |above|) else kept,
                  TimeScore, above + [FirstTimes(team, k + 1)], firstRow, START_COLUMN)
  {
    var level := team.levelsTimes[k].key;
    var part, next := FirstTimes(team, k), FirstTimes(team, k + 1);
    TimeScoreOfPrefix(team, k);
    if TimeScore(team, level).Some? {
      BetterKept(kept, TimeScore, above, part, next, level, firstRow, START_COLUMN);
    } else {
      SameKept(kept, TimeScore, above, part, next, firstRow, START_COLUMN);
    }
  }

  // A team without scores changes no best cell.
  lemma NothingKeeps(
    best: BestCells, score: Score, above: seq<TeamLevels>, team: TeamLevels, firstRow: int, firstColumn: int)
    requires Keeps(best, score, above, firstRow, firstColumn) && forall level: nat :: score(team, level).None?
    ensures Keeps(best, score, above + [team], firstRow, firstColumn)
  {
    assert (above + [team])[..|above|] == above;
  }

  lemma SameKept(best: BestCells, score: Score, above: seq<TeamLevels>, part: TeamLevels, next: TeamLevels,
      firstRow: int, firstColumn: int)
    requires Keeps(best, score, above + [part], firstRow, firstColumn)
    requires forall level: nat {:trigger score(next, level)} :: score(next, level) == score(part, level)
    ensures Keeps(best, score, above + [next], firstRow, firstColumn)
  {
    assert (above + [part])[..|above|] == above && (above + [next])[..|above|] == above;
    forall level: nat ensures BestOf(score, above + [next], level) == BestOf(score, above + [part], level) {
      assert score(next, level) == score(part, level);
    }
  }

  // One more score of the team changes at most the best cell of its column.
  lemma BetterKept(best: BestCells, score: Score, above: seq<TeamLevels>, part: TeamLevels, next: TeamLevels,
      level: nat, firstRow: int, firstColumn: int)
    requires Keeps(best, score, above + [part], firstRow, firstColumn)
    requires score(part, level).None? && score(next, level).Some?
    requires forall other: nat {:trigger score(next, other)} ::
        other != level ==> score(next, other) == score(part, other)
    ensures Keeps(KeepBest(best, firstColumn + level, score(next, level).value, firstRow + |above|), score,
                  above + [next], firstRow, firstColumn)
  {
    var kept := KeepBest(best, firstColumn + level, score(next, level).value, firstRow + |above|);
    assert (above + [part])[..|above|] == above && (above + [next])[..|above|] == above;
    forall other: nat
      ensures Looked(kept, firstColumn + other) == Placed(BestOf(score, above + [next], other), firstRow) {
      assert Looked(best, firstColumn + other) == Placed(BestOf(score, above + [part], other), firstRow);
      assert other != level ==> score(next, other) == score(part, other);
    }
  }
}
