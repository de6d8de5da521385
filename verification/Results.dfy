// Dictionaries of lists filled with `setdefault(key, []).append(item)`, in the order their keys came.
module Grouping {

  datatype Group<K, V> = Group(key: K, items: seq<V>)

  // The list under a key, or the empty list.
  function Get<K(==), V>(groups: seq<Group<K, V>>, key: K): seq<V> {
    if groups == [] then []
    else if groups[0].key == key then groups[0].items
    else Get(groups[1..], key)
  }

  function Add<K(==), V>(groups: seq<Group<K, V>>, key: K, item: V): (r: seq<Group<K, V>>)
    ensures r != []
  {
    if groups == [] then [Group(key, [item])]
    else if groups[0].key == key then [Group(key, groups[0].items + [item])] + groups[1..]
    else [groups[0]] + Add(groups[1..], key, item)
  }

  // The items, each appended to the list of its key.
  function Route<K(==), V>(keyOf: V -> K, items: seq<V>): seq<Group<K, V>> {
    if items == [] then []
    else var last := items[|items| - 1]; Add(Route(keyOf, items[..|items| - 1]), keyOf(last), last)
  }

  // The items with a key, in order.
  function Pick<K(==), V>(keyOf: V -> K, items: seq<V>, key: K): seq<V> {
    if items == [] then []
    else
      var last := items[|items| - 1];
      var rest := Pick(keyOf, items[..|items| - 1], key);
      if keyOf(last) == key then rest + [last] else rest
  }

  function Flatten<K, V>(groups: seq<Group<K, V>>): seq<V> {
    if groups == [] then [] else groups[0].items + Flatten(groups[1..])
  }

  predicate DistinctKeys<K(==), V>(groups: seq<Group<K, V>>) {
    forall i, j :: 0 <= i < j < |groups| ==> groups[i].key != groups[j].key
  }

  predicate NonEmptyGroups<K, V>(groups: seq<Group<K, V>>) {
    forall i :: 0 <= i < |groups| ==> groups[i].items != []
  }

  function Sum<V>(amount: V -> int, items: seq<V>): int {
    if items == [] then 0 else Sum(amount, items[..|items| - 1]) + amount(items[|items| - 1])
  }

  // The amounts of the items under the given keys.
  function SumOver<K(==), V>(keyOf: V -> K, amount: V -> int, items: seq<V>, keys: seq<K>): int {
    if keys == [] then 0
    else Sum(amount, Pick(keyOf, items, keys[0])) + SumOver(keyOf, amount, items, keys[1..])
  }

  predicate Distinct<K(==)>(keys: seq<K>) {
    forall i, j :: 0 <= i < j < |keys| ==> keys[i] != keys[j]
  }

  // ------------------------------------------------------------------ adding one item

  lemma {:induction false} AddGets<K, V>(groups: seq<Group<K, V>>, key: K, item: V, other: K)
    ensures Get(Add(groups, key, item), other) == if other == key then Get(groups, key) + [item] else Get(groups, other)
  {
    if groups != [] && groups[0].key != key {
      AddGets(groups[1..], key, item, other);
    }
  }

  lemma {:induction false} AddKeys<K, V>(groups: seq<Group<K, V>>, key: K, item: V)
    requires DistinctKeys(groups) && NonEmptyGroups(groups)
    ensures DistinctKeys(Add(groups, key, item)) && NonEmptyGroups(Add(groups, key, item))
    ensures forall g :: g in Add(groups, key, item) ==> g.key == key || exists h :: h in groups && h.key == g.key
  {
    if groups != [] && groups[0].key != key {
      AddKeys(groups[1..], key, item);
      var rest := Add(groups[1..], key, item);
      forall j | 0 <= j < |rest| ensures rest[j].key != groups[0].key {
        assert rest[j] in rest;
        if rest[j].key != key {
          var h :| h in groups[1..] && h.key == rest[j].key;
        }
      }
    }
  }

  lemma {:induction false} AddFlattens<K, V>(groups: seq<Group<K, V>>, key: K, item: V)
    ensures multiset(Flatten(Add(groups, key, item))) == multiset(Flatten(groups)) + multiset{item}
  {
    if groups != [] && groups[0].key != key {
      AddFlattens(groups[1..], key, item);
    }
  }

  // ------------------------------------------------------------------ routing

  // Every key has its own items in their order, no key stands twice and no list is empty.
  lemma {:induction false} RouteGets<K, V>(keyOf: V -> K, items: seq<V>, key: K)
    ensures Get(Route(keyOf, items), key) == Pick(keyOf, items, key)
  {
    if items != [] {
      var last := items[|items| - 1];
      var rest := items[..|items| - 1];
      RouteGets(keyOf, rest, key);
      AddGets(Route(keyOf, rest), keyOf(last), last, key);
    }
  }

  lemma {:induction false} RouteKeys<K, V>(keyOf: V -> K, items: seq<V>)
    ensures DistinctKeys(Route(keyOf, items)) && NonEmptyGroups(Route(keyOf, items))
  {
    if items != [] {
      var last := items[|items| - 1];
      RouteKeys(keyOf, items[..|items| - 1]);
      AddKeys(Route(keyOf, items[..|items| - 1]), keyOf(last), last);
    }
  }

  // Routing loses nothing and repeats nothing.
  lemma {:induction false} RouteKeepsAll<K, V>(keyOf: V -> K, items: seq<V>)
    ensures multiset(Flatten(Route(keyOf, items))) == multiset(items)
  {
    if items != [] {
      var last := items[|items| - 1];
      var rest := items[..|items| - 1];
      RouteKeepsAll(keyOf, rest);
      AddFlattens(Route(keyOf, rest), keyOf(last), last);
      InitAndLast(items);
    }
  }

  lemma InitAndLast<V>(items: seq<V>)
    requires items != []
    ensures multiset(items) == multiset(items[..|items| - 1]) + multiset{items[|items| - 1]}
  {
    assert items == items[..|items| - 1] + [items[|items| - 1]];
  }

  lemma {:induction false} GroupIsGot<K, V>(groups: seq<Group<K, V>>, i: nat)
    requires DistinctKeys(groups) && i < |groups|
    ensures Get(groups, groups[i].key) == groups[i].items
  {
    if i > 0 {
      GroupIsGot(groups[1..], i - 1);
    }
  }

  // ------------------------------------------------------------------ sums

  lemma {:induction false} SumConcat<V>(amount: V -> int, a: seq<V>, b: seq<V>)
    ensures Sum(amount, a + b) == Sum(amount, a) + Sum(amount, b)
  {
    if b == [] {
      assert a + b == a;
    } else {
      assert (a + b)[..|a + b| - 1] == a + b[..|b| - 1];
      SumConcat(amount, a, b[..|b| - 1]);
    }
  }

  lemma {:induction false} AddSums<K, V>(amount: V -> int, groups: seq<Group<K, V>>, key: K, item: V)
    ensures Sum(amount, Flatten(Add(groups, key, item))) == Sum(amount, Flatten(groups)) + amount(item)
  {
    if groups == [] {
      assert Flatten(Add(groups, key, item)) == [item];
      assert [item][..0] == [];
    } else if groups[0].key == key {
      SumConcat(amount, groups[0].items, Flatten(groups[1..]));
      SumConcat(amount, groups[0].items + [item], Flatten(groups[1..]));
      assert (groups[0].items + [item])[..|groups[0].items|] == groups[0].items;
      assert Add(groups, key, item)[1..] == groups[1..];
    } else {
      AddSums(amount, groups[1..], key, item);
      SumConcat(amount, groups[0].items, Flatten(groups[1..]));
      SumConcat(amount, groups[0].items, Flatten(Add(groups[1..], key, item)));
    }
  }

  // The sum over all lists is the sum over all items.
  lemma {:induction false} RouteSums<K, V>(keyOf: V -> K, amount: V -> int, items: seq<V>)
    ensures Sum(amount, Flatten(Route(keyOf, items))) == Sum(amount, items)
  {
    if items != [] {
      var last := items[|items| - 1];
      var rest := items[..|items| - 1];
      RouteSums(keyOf, amount, rest);
      AddSums(amount, Route(keyOf, rest), keyOf(last), last);
    }
  }

  lemma {:induction false} SumOverGrows<K, V>(keyOf: V -> K, amount: V -> int, items: seq<V>, last: V, keys: seq<K>)
    requires Distinct(keys)
    ensures SumOver(keyOf, amount, items + [last], keys)
         == SumOver(keyOf, amount, items, keys) + if keyOf(last) in keys then amount(last) else 0
  {
    assert (items + [last])[..|items|] == items;
    if keys != [] {
      SumOverGrows(keyOf, amount, items, last, keys[1..]);
      assert keys == [keys[0]] + keys[1..];
      var picked := Pick(keyOf, items, keys[0]);
      assert (picked + [last])[..|picked|] == picked;
      assert keyOf(last) == keys[0] ==> keyOf(last) !in keys[1..];
    }
  }

  lemma {:induction false} SumOverNothing<K, V>(keyOf: V -> K, amount: V -> int, keys: seq<K>)
    ensures SumOver(keyOf, amount, [], keys) == 0
  {
    if keys != [] {
      SumOverNothing(keyOf, amount, keys[1..]);
    }
  }

  // Over a list of keys that has every key once, the sums per key add up to the whole.
  lemma {:induction false} SumsPerKey<K, V>(keyOf: V -> K, amount: V -> int, items: seq<V>, keys: seq<K>)
    requires Distinct(keys) && forall item :: item in items ==> keyOf(item) in keys
    ensures SumOver(keyOf, amount, items, keys) == Sum(amount, items)
  {
    if items == [] {
      SumOverNothing(keyOf, amount, keys);
    } else {
      var last := items[|items| - 1];
      var rest := items[..|items| - 1];
      assert items == rest + [last];
      SumsPerKey(keyOf, amount, rest, keys);
      SumOverGrows(keyOf, amount, rest, last, keys);
    }
  }
}

// From the level times of a finished game and its bonuses to what each team did on each level.
// Instants and durations are whole numbers of microseconds.
module Results {
  import opened Common
  import opened Sorting
  import opened Grouping

  const DATETIME_MAX: int := 315537897599999999

  // A row of the game statistics: a team reached a level at an instant.
  datatype LevelTimeRow = LevelTimeRow(id: nat, levelNumber: nat, startAt: int)

  datatype LevelTime = LevelTime(level: nat, time: int)

  datatype LevelTimedelta = LevelTimedelta(level: nat, td: int)

  datatype BonusEvent = BonusEvent(at: int, td: int, levelTimeId: Option<nat>, levelNumber: Option<nat>)

  function TimeLevel(lt: LevelTime): nat { lt.level }

  function TimedeltaLevel(ltd: LevelTimedelta): nat { ltd.level }

  function TimedeltaOf(ltd: LevelTimedelta): int { ltd.td }

  function BonusLevel(bonus: BonusEvent): Option<nat> { bonus.levelNumber }

  function BonusOf(bonus: BonusEvent): int { bonus.td }

  // The earliest time below a bound, the first of equals.
  function Earliest(times: seq<LevelTime>): Option<LevelTime> {
    if times == [] then None
    else
      var last := times[|times| - 1];
      var best := Earliest(times[..|times| - 1]);
      if last.time < (if best.Some? then best.value.time else DATETIME_MAX) then Some(last) else best
  }

  datatype TeamLevels = TeamLevels(
    teamId: nat, name: string,
    levelsTimes: seq<Group<nat, LevelTime>>,
    levelsTimedelta: seq<Group<nat, LevelTimedelta>>,
    bonuses: seq<Group<Option<nat>, BonusEvent>>)
  {
    function LevelBonus(level: nat): int {
      Sum(BonusOf, Get(bonuses, Some(level)))
    }

    function TotalBonus(): int {
      Sum(BonusOf, Flatten(bonuses))
    }

    function LevelTimedeltaOf(level: nat): LevelTimedelta {
      LevelTimedelta(level, Sum(TimedeltaOf, Get(levelsTimedelta, level)))
    }

    method GetLevelTime(level: nat) returns (result: Option<LevelTime>)
      ensures result == Earliest(Get(levelsTimes, level))
    {
      var minTime := DATETIME_MAX;
      var requested := Get(levelsTimes, level);
      result := None;
      for i := 0 to |requested|
        invariant result == Earliest(requested[..i])
        invariant minTime == if result.Some? then result.value.time else DATETIME_MAX
      {
        assert requested[..i + 1][..i] == requested[..i];
        if requested[i].time < minTime {
          minTime := requested[i].time;
          result := Some(requested[i]);
        }
      }
      assert requested[..|requested|] == requested;
    }
  }

  ghost predicate IsEarliest(times: seq<LevelTime>, i: int) {
    && 0 <= i < |times| && times[i].time < DATETIME_MAX
    && (forall j :: 0 <= j < |times| ==> times[i].time <= times[j].time)
    && (forall j :: 0 <= j < i ==> times[i].time < times[j].time)
  }

  // The result is the smallest time and the first row that has it; there is none only without a usable time.
  lemma {:induction false} EarliestMeans(times: seq<LevelTime>)
    ensures Earliest(times).None? <==> forall lt :: lt in times ==> lt.time >= DATETIME_MAX
    ensures Earliest(times).Some? ==> exists i :: IsEarliest(times, i) && Earliest(times) == Some(times[i])
  {
    if times != [] {
      var n := |times| - 1;
      var rest := times[..n];
      EarliestMeans(rest);
      assert times == rest + [times[n]];
      assert forall lt :: lt in times <==> lt in rest || lt == times[n];
      if Earliest(times) == Some(times[n]) && Earliest(rest) != Earliest(times) {
        assert IsEarliest(times, n) by { RestIsLater(rest, times[n]); }
      } else if Earliest(rest).Some? {
        var i :| IsEarliest(rest, i) && Earliest(rest) == Some(rest[i]);
        assert IsEarliest(times, i);
      }
    }
  }

  lemma RestIsLater(rest: seq<LevelTime>, last: LevelTime)
    requires Earliest(rest).None? <==> forall lt :: lt in rest ==> lt.time >= DATETIME_MAX
    requires Earliest(rest).Some? ==> exists i :: IsEarliest(rest, i) && Earliest(rest) == Some(rest[i])
    requires last.time < (if Earliest(rest).Some? then Earliest(rest).value.time else DATETIME_MAX)
    ensures last.time < DATETIME_MAX && forall j :: 0 <= j < |rest| ==> last.time < rest[j].time
  {
    forall j | 0 <= j < |rest| ensures last.time < rest[j].time {
      assert rest[j] in rest;
    }
  }

  // ------------------------------------------------------------------ the level of a bonus

  predicate StartsFirst(a: LevelTimeRow, b: LevelTimeRow) {
    a.startAt <= b.startAt
  }

  // What a lookup in {row.id: row.levelNumber} finds: the last row with the id.
  function LevelById(rows: seq<LevelTimeRow>, id: nat): Option<nat> {
    if rows == [] then None
    else if rows[|rows| - 1].id == id then Some(rows[|rows| - 1].levelNumber)
    else LevelById(rows[..|rows| - 1], id)
  }

  // The latest start not after the instant; of equal starts, the row that comes last.
  ghost predicate IsLatest(rows: seq<LevelTimeRow>, at: int, i: int) {
    && 0 <= i < |rows| && rows[i].startAt <= at
    && (forall j :: 0 <= j < |rows| && rows[j].startAt <= at ==> rows[j].startAt <= rows[i].startAt)
    && (forall j :: i < j < |rows| ==> rows[j].startAt != rows[i].startAt)
  }

  function Latest(rows: seq<LevelTimeRow>, at: int): Option<LevelTimeRow> {
    if rows == [] then None
    else
      var later := Latest(rows[1..], at);
      if rows[0].startAt <= at && (later.None? || later.value.startAt < rows[0].startAt) then Some(rows[0]) else later
  }

  lemma LatestOfTail(rows: seq<LevelTimeRow>, at: int, k: int)
    requires rows != [] && IsLatest(rows[1..], at, k)
    requires rows[0].startAt <= at ==> rows[0].startAt <= rows[k + 1].startAt
    ensures IsLatest(rows, at, k + 1)
  {
    var rest := rows[1..];
    forall j | 0 <= j < |rows| && rows[j].startAt <= at ensures rows[j].startAt <= rows[k + 1].startAt {
      if j > 0 { assert rest[j - 1] == rows[j]; }
    }
    forall j | k + 1 < j < |rows| ensures rows[j].startAt != rows[k + 1].startAt {
      assert rest[j - 1] == rows[j];
    }
  }

  lemma HeadIsLatest(rows: seq<LevelTimeRow>, at: int)
    requires rows != [] && rows[0].startAt <= at
    requires forall row :: row in rows[1..] ==> row.startAt > at || row.startAt < rows[0].startAt
    ensures IsLatest(rows, at, 0)
  {
    forall j | 1 <= j < |rows| ensures rows[j].startAt > at || rows[j].startAt < rows[0].startAt {
      assert rows[j] in rows[1..];
    }
  }

  lemma {:induction false} LatestIsARow(rows: seq<LevelTimeRow>, at: int)
    ensures Latest(rows, at).None? <==> forall row :: row in rows ==> row.startAt > at
    ensures Latest(rows, at).Some? ==> exists i :: IsLatest(rows, at, i) && Latest(rows, at) == Some(rows[i])
  {
    if rows != [] {
      var rest := rows[1..];
      LatestIsARow(rest, at);
      assert rows[0] in rows && forall row :: row in rest ==> row in rows;
      if Latest(rest, at).Some? {
        var k :| IsLatest(rest, at, k) && Latest(rest, at) == Some(rest[k]);
        assert rest[k] == rows[k + 1] && rows[k + 1] in rows;
        if rows[0].startAt <= at && rest[k].startAt < rows[0].startAt {
          HeadIsLatest(rows, at);
        } else {
          LatestOfTail(rows, at, k);
        }
      } else if rows[0].startAt <= at {
        HeadIsLatest(rows, at);
      }
    }
  }

  lemma LatestMeans(rows: seq<LevelTimeRow>, at: int)
    ensures Latest(rows, at).None? <==> forall row :: row in rows ==> row.startAt > at
    ensures forall i :: IsLatest(rows, at, i) ==> Latest(rows, at) == Some(rows[i])
    ensures Latest(rows, at).Some? ==> exists i :: IsLatest(rows, at, i)
  {
    LatestIsARow(rows, at);
    forall i | IsLatest(rows, at, i) ensures Latest(rows, at) == Some(rows[i]) {
      assert rows[i] in rows;
      var k :| IsLatest(rows, at, k) && Latest(rows, at) == Some(rows[k]);
      assert k == i;
    }
  }

  // The last row of a sorted list that has started.
  function LastStarted(ordered: seq<LevelTimeRow>, at: int): Option<LevelTimeRow> {
    if ordered == [] || ordered[0].startAt > at then None
    else
      var later := LastStarted(ordered[1..], at);
      if later.Some? then later else Some(ordered[0])
  }

  lemma {:induction false} LastStartedAfterHead(ordered: seq<LevelTimeRow>, at: int)
    requires Sorted(StartsFirst, ordered) && ordered != [] && LastStarted(ordered, at).Some?
    ensures ordered[0].startAt <= LastStarted(ordered, at).value.startAt <= at
  {
    if LastStarted(ordered[1..], at).Some? {
      LastStartedAfterHead(ordered[1..], at);
      assert StartsFirst(ordered[0], ordered[1]);
    }
  }

  lemma {:induction false} InsertLastStarted(row: LevelTimeRow, ordered: seq<LevelTimeRow>, at: int)
    requires Sorted(StartsFirst, ordered)
    ensures LastStarted(Insert(StartsFirst, row, ordered), at) ==
              var later := LastStarted(ordered, at);
              if row.startAt <= at && (later.None? || later.value.startAt < row.startAt) then Some(row) else later
  {
    var inserted := Insert(StartsFirst, row, ordered);
    if ordered != [] && !StartsFirst(row, ordered[0]) {
      InsertLastStarted(row, ordered[1..], at);
      assert inserted[1..] == Insert(StartsFirst, row, ordered[1..]);
    } else {
      assert inserted[1..] == ordered;
      if LastStarted(ordered, at).Some? {
        LastStartedAfterHead(ordered, at);
      }
    }
  }

  lemma {:induction false} SortedFindsLatest(rows: seq<LevelTimeRow>, at: int)
    ensures LastStarted(Sort(StartsFirst, rows), at) == Latest(rows, at)
  {
    if rows != [] {
      SortedFindsLatest(rows[1..], at);
      SortSorts(StartsFirst, rows[1..]);
      InsertLastStarted(rows[0], Sort(StartsFirst, rows[1..]), at);
    }
  }

  lemma {:induction false} LastStartedStops(ordered: seq<LevelTimeRow>, at: int, n: nat)
    requires n <= |ordered| && (n < |ordered| ==> ordered[n].startAt > at)
    requires forall j :: 0 <= j < n ==> ordered[j].startAt <= at
    ensures LastStarted(ordered, at) == if n == 0 then None else Some(ordered[n - 1])
  {
    if n > 0 {
      LastStartedStops(ordered[1..], at, n - 1);
    }
  }

  // Goes through the rows in order of their start and stops at the first one in the future.
  method ResolveLevelByTime(rows: seq<LevelTimeRow>, at: int) returns (level: Option<nat>)
    ensures level == LevelAt(rows, at)
    ensures level.None? <==> forall row :: row in rows ==> row.startAt > at
    ensures forall i :: IsLatest(rows, at, i) ==> level == Some(rows[i].levelNumber)
  {
    LatestMeans(rows, at);
    var ordered := Sort(StartsFirst, rows);
    level := None;
    var i := 0;
    while i < |ordered|
      invariant i <= |ordered| && forall j :: 0 <= j < i ==> ordered[j].startAt <= at
      invariant level == if i == 0 then None else Some(ordered[i - 1].levelNumber)
    {
      if ordered[i].startAt > at { break; }
      level := Some(ordered[i].levelNumber);
      i := i + 1;
    }
    LastStartedStops(ordered, at, i);
    SortedFindsLatest(rows, at);
  }

  function LevelAt(rows: seq<LevelTimeRow>, at: int): Option<nat> {
    var row := Latest(rows, at);
    if row.Some? then Some(row.value.levelNumber) else None
  }

  // The level of the row the bonus names, else the level the team was on at the time.
  function ResolvedLevel(rows: seq<LevelTimeRow>, bonus: BonusEvent): Option<nat> {
    var byId := if bonus.levelTimeId.Some? then LevelById(rows, bonus.levelTimeId.value) else None;
    if byId.Some? then byId else LevelAt(rows, bonus.at)
  }

  function Resolved(rows: seq<LevelTimeRow>, bonuses: seq<BonusEvent>): (r: seq<BonusEvent>)
    ensures |r| == |bonuses|
  {
    seq(|bonuses|, i requires 0 <= i < |bonuses| => bonuses[i].(levelNumber := ResolvedLevel(rows, bonuses[i])))
  }

  function LevelsByTimeId(rows: seq<LevelTimeRow>): (levels: map<nat, nat>)
    ensures forall id :: LevelById(rows, id) == if id in levels then Some(levels[id]) else None
  {
    if rows == [] then map[]
    else LevelsByTimeId(rows[..|rows| - 1])[rows[|rows| - 1].id := rows[|rows| - 1].levelNumber]
  }

  method ResolveBonusLevels(rows: seq<LevelTimeRow>, bonuses: seq<BonusEvent>) returns (result: seq<BonusEvent>)
    ensures result == Resolved(rows, bonuses)
  {
    var levelsByTimeId := LevelsByTimeId(rows);
    result := [];
    for i := 0 to |bonuses|
      invariant result == Resolved(rows, bonuses)[..i]
    {
      var bonus := bonuses[i];
      var level: Option<nat> := None;
      if bonus.levelTimeId.Some? && bonus.levelTimeId.value in levelsByTimeId {
        level := Some(levelsByTimeId[bonus.levelTimeId.value]);
      }
      if level.None? {
        level := ResolveLevelByTime(rows, bonus.at);
      }
      result := result + [bonus.(levelNumber := level)];
    }
  }

  method RouteBonuses(rows: seq<LevelTimeRow>, bonuses: seq<BonusEvent>)
    returns (routed: seq<Group<Option<nat>, BonusEvent>>)
    ensures routed == Route(BonusLevel, Resolved(rows, bonuses))
  {
    var resolved := ResolveBonusLevels(rows, bonuses);
    routed := [];
    for i := 0 to |resolved|
      invariant routed == Route(BonusLevel, resolved[..i])
    {
      assert resolved[..i + 1][..i] == resolved[..i];
      routed := Add(routed, resolved[i].levelNumber, resolved[i]);
    }
    assert resolved[..|resolved|] == resolved;
  }

  // ------------------------------------------------------------------ the results of every team

  datatype TeamRows = TeamRows(teamId: nat, name: string, rows: seq<LevelTimeRow>)

  function TimesOf(rows: seq<LevelTimeRow>): (times: seq<LevelTime>)
    ensures |times| == |rows|
  {
    seq(|rows|, i requires 0 <= i < |rows| => LevelTime(rows[i].levelNumber, rows[i].startAt))
  }

  // How long the team stayed before each next row, on the level it was leaving.
  function Durations(times: seq<LevelTime>): (tds: seq<LevelTimedelta>)
    ensures |tds| == if times == [] then 0 else |times| - 1
  {
    seq(if times == [] then 0 else |times| - 1, i requires 0 <= i < |times| - 1 =>
        LevelTimedelta(times[i].level, times[i + 1].time - times[i].time))
  }

  function BonusesOf(bonuses: map<nat, seq<BonusEvent>>, teamId: nat): seq<BonusEvent> {
    if teamId in bonuses then bonuses[teamId] else []
  }

  function LevelsOf(team: TeamRows, bonuses: map<nat, seq<BonusEvent>>): TeamLevels {
    TeamLevels(team.teamId, team.name,
               Route(TimeLevel, TimesOf(team.rows)),
               Route(TimedeltaLevel, Durations(TimesOf(team.rows))),
               Route(BonusLevel, Resolved(team.rows, BonusesOf(bonuses, team.teamId))))
  }

  method ToResults(stat: seq<TeamRows>, bonuses: map<nat, seq<BonusEvent>>) returns (result: seq<TeamLevels>)
    ensures |result| == |stat| && forall i :: 0 <= i < |stat| ==> result[i] == LevelsOf(stat[i], bonuses)
  {
    result := [];
    for i := 0 to |stat|
      invariant |result| == i && forall j :: 0 <= j < i ==> result[j] == LevelsOf(stat[j], bonuses)
    {
      var times := TimesOf(stat[i].rows);
      var routedTimes: seq<Group<nat, LevelTime>> := [];
      for k := 0 to |times|
        invariant routedTimes == Route(TimeLevel, times[..k])
      {
        assert times[..k + 1][..k] == times[..k];
        routedTimes := Add(routedTimes, times[k].level, times[k]);
      }
      assert times[..|times|] == times;
      var routedTds := RoutePairwise(times);
      var routedBonuses := RouteBonuses(stat[i].rows, BonusesOf(bonuses, stat[i].teamId));
      result := result + [TeamLevels(stat[i].teamId, stat[i].name, routedTimes, routedTds, routedBonuses)];
    }
  }

  // The loop over neighbouring level times.
  method RoutePairwise(times: seq<LevelTime>) returns (routed: seq<Group<nat, LevelTimedelta>>)
    ensures routed == Route(TimedeltaLevel, Durations(times))
  {
    routed := [];
    ghost var tds := Durations(times);
    for k := 0 to |Durations(times)|
      invariant routed == Route(TimedeltaLevel, tds[..k])
    {
      var previous, current := times[k], times[k + 1];
      assert tds[..k + 1][..k] == tds[..k];
      routed := Add(routed, previous.level, LevelTimedelta(previous.level, current.time - previous.time));
    }
    assert tds[..|tds|] == tds;
  }

  // ------------------------------------------------------------------ conservation

  lemma {:induction false} DurationsTelescope(times: seq<LevelTime>)
    requires times != []
    ensures Sum(TimedeltaOf, Durations(times)) == times[|times| - 1].time - times[0].time
  {
    if |times| > 1 {
      var rest := times[..|times| - 1];
      DurationsTelescope(rest);
      assert Durations(times)[..|times| - 2] == Durations(rest);
    }
  }

  // The level durations of a team, however often it came back to a level, add up to the time from
  // its first row to its last.
  lemma LevelTimedeltasAddUp(team: TeamRows, bonuses: map<nat, seq<BonusEvent>>, levels: seq<nat>)
    requires Distinct(levels) && forall row :: row in team.rows ==> row.levelNumber in levels
    ensures SumLevelTimedeltas(LevelsOf(team, bonuses), levels)
         == if team.rows == [] then 0 else team.rows[|team.rows| - 1].startAt - team.rows[0].startAt
  {
    var times := TimesOf(team.rows);
    var tds := Durations(times);
    forall ltd | ltd in tds ensures TimedeltaLevel(ltd) in levels {
      var i :| 0 <= i < |tds| && tds[i] == ltd;
      assert team.rows[i] in team.rows;
    }
    LevelSumsAreSums(LevelsOf(team, bonuses), tds, levels);
    SumsPerKey(TimedeltaLevel, TimedeltaOf, tds, levels);
    if times != [] {
      DurationsTelescope(times);
    }
  }

  function SumLevelTimedeltas(results: TeamLevels, levels: seq<nat>): int {
    if levels == [] then 0 else results.LevelTimedeltaOf(levels[0]).td + SumLevelTimedeltas(results, levels[1..])
  }

  lemma {:induction false} LevelSumsAreSums(results: TeamLevels, tds: seq<LevelTimedelta>, levels: seq<nat>)
    requires results.levelsTimedelta == Route(TimedeltaLevel, tds)
    ensures SumLevelTimedeltas(results, levels) == SumOver(TimedeltaLevel, TimedeltaOf, tds, levels)
  {
    if levels != [] {
      RouteGets(TimedeltaLevel, tds, levels[0]);
      LevelSumsAreSums(results, tds, levels[1..]);
    }
  }

  // Every bonus is routed once, and only its level is filled in.
  lemma BonusesAreKept(team: TeamRows, bonuses: map<nat, seq<BonusEvent>>)
    ensures var given := BonusesOf(bonuses, team.teamId);
            var resolved := Resolved(team.rows, given);
            && multiset(Flatten(LevelsOf(team, bonuses).bonuses)) == multiset(resolved)
            && (forall i :: 0 <= i < |given| ==>
                  && resolved[i].at == given[i].at && resolved[i].td == given[i].td
                  && resolved[i].levelTimeId == given[i].levelTimeId)
            && (forall level :: Get(LevelsOf(team, bonuses).bonuses, level) == Pick(BonusLevel, resolved, level))
            && DistinctKeys(LevelsOf(team, bonuses).bonuses)
  {
    var resolved := Resolved(team.rows, BonusesOf(bonuses, team.teamId));
    RouteKeepsAll(BonusLevel, resolved);
    RouteKeys(BonusLevel, resolved);
    forall level ensures Get(Route(BonusLevel, resolved), level) == Pick(BonusLevel, resolved, level) {
      RouteGets(BonusLevel, resolved, level);
    }
  }

  function SumLevelBonuses(results: TeamLevels, levels: seq<nat>): int {
    if levels == [] then 0 else results.LevelBonus(levels[0]) + SumLevelBonuses(results, levels[1..])
  }

  function Unresolved(results: TeamLevels): int {
    Sum(BonusOf, Get(results.bonuses, None))
  }

  // Every bonus with a level has the level of one of the team's rows.
  lemma {:induction false} ByIdIsOfARow(rows: seq<LevelTimeRow>, id: nat)
    ensures LevelById(rows, id).Some? ==>
              exists row :: row in rows && row.id == id && LevelById(rows, id) == Some(row.levelNumber)
    ensures LevelById(rows, id).None? <==> forall row :: row in rows ==> row.id != id
  {
    if rows != [] {
      var rest := rows[..|rows| - 1];
      ByIdIsOfARow(rest, id);
      assert rows == rest + [rows[|rows| - 1]];
      assert forall row :: row in rows <==> row in rest || row == rows[|rows| - 1];
    }
  }

  lemma ResolvedLevelIsOfARow(rows: seq<LevelTimeRow>, bonus: BonusEvent)
    ensures ResolvedLevel(rows, bonus).Some? ==>
              exists row :: row in rows && ResolvedLevel(rows, bonus) == Some(row.levelNumber)
  {
    if bonus.levelTimeId.Some? { ByIdIsOfARow(rows, bonus.levelTimeId.value); }
    LatestMeans(rows, bonus.at);
    if Latest(rows, bonus.at).Some? {
      var i :| IsLatest(rows, bonus.at, i);
      assert rows[i] in rows;
    }
  }

  ghost predicate Names(rows: seq<LevelTimeRow>, bonus: BonusEvent, i: int) {
    0 <= i < |rows| && bonus.levelTimeId == Some(rows[i].id)
  }

  // The row a bonus names decides; without one, the latest row not after it; without that, nothing.
  lemma ResolvedLevelMeans(rows: seq<LevelTimeRow>, bonus: BonusEvent)
    requires forall i, j :: 0 <= i < j < |rows| ==> rows[i].id != rows[j].id
    ensures forall i :: Names(rows, bonus, i) ==> ResolvedLevel(rows, bonus) == Some(rows[i].levelNumber)
    ensures (forall i :: !Names(rows, bonus, i)) ==>
              && (forall i :: IsLatest(rows, bonus.at, i) ==> ResolvedLevel(rows, bonus) == Some(rows[i].levelNumber))
              && (ResolvedLevel(rows, bonus).None? <==> forall row :: row in rows ==> row.startAt > bonus.at)
  {
    LatestMeans(rows, bonus.at);
    if bonus.levelTimeId.Some? {
      var id := bonus.levelTimeId.value;
      ByIdIsOfARow(rows, id);
      forall i | Names(rows, bonus, i) ensures ResolvedLevel(rows, bonus) == Some(rows[i].levelNumber) {
        assert rows[i] in rows;
        var row :| row in rows && row.id == id && LevelById(rows, id) == Some(row.levelNumber);
        var j :| 0 <= j < |rows| && rows[j] == row;
        assert i == j;
      }
      if LevelById(rows, id).Some? {
        var row :| row in rows && row.id == id;
        var j :| 0 <= j < |rows| && rows[j] == row;
        assert Names(rows, bonus, j);
      }
    }
  }

  // The total bonus is the bonuses of the levels the team was on plus those whose level is unknown,
  // and all of it is the bonuses that came in.
  lemma TotalIsSumOfParts(team: TeamRows, bonuses: map<nat, seq<BonusEvent>>, levels: seq<nat>)
    requires Distinct(levels) && forall row :: row in team.rows ==> row.levelNumber in levels
    ensures var r := LevelsOf(team, bonuses);
            && r.TotalBonus() == SumLevelBonuses(r, levels) + Unresolved(r)
            && r.TotalBonus() == Sum(BonusOf, BonusesOf(bonuses, team.teamId))
  {
    var given := BonusesOf(bonuses, team.teamId);
    var resolved := Resolved(team.rows, given);
    var keys := [None] + Known(levels);
    forall bonus | bonus in resolved ensures BonusLevel(bonus) in keys {
      var i :| 0 <= i < |resolved| && resolved[i] == bonus;
      ResolvedLevelIsOfARow(team.rows, given[i]);
      if bonus.levelNumber.Some? {
        var k :| 0 <= k < |levels| && levels[k] == bonus.levelNumber.value;
        assert keys[k + 1] == bonus.levelNumber;
      }
    }
    RouteSums(BonusLevel, BonusOf, resolved);
    SumsPerKey(BonusLevel, BonusOf, resolved, keys);
    assert keys[1..] == Known(levels);
    RouteGets(BonusLevel, resolved, None);
    LevelBonusesAreSums(LevelsOf(team, bonuses), resolved, levels);
    SameAmounts(given, resolved);
  }

  function Known(levels: seq<nat>): (keys: seq<Option<nat>>)
    ensures |keys| == |levels|
  {
    seq(|levels|, i requires 0 <= i < |levels| => Some(levels[i]))
  }

  lemma {:induction false} LevelBonusesAreSums(results: TeamLevels, resolved: seq<BonusEvent>, levels: seq<nat>)
    requires results.bonuses == Route(BonusLevel, resolved)
    ensures SumLevelBonuses(results, levels) == SumOver(BonusLevel, BonusOf, resolved, Known(levels))
  {
    if levels != [] {
      RouteGets(BonusLevel, resolved, Some(levels[0]));
      LevelBonusesAreSums(results, resolved, levels[1..]);
      assert Known(levels)[1..] == Known(levels[1..]);
    }
  }

  lemma {:induction false} SameAmounts(a: seq<BonusEvent>, b: seq<BonusEvent>)
    requires |a| == |b| && forall i :: 0 <= i < |a| ==> a[i].td == b[i].td
    ensures Sum(BonusOf, a) == Sum(BonusOf, b)
  {
    if a != [] {
      SameAmounts(a[..|a| - 1], b[..|b| - 1]);
    }
  }
}
