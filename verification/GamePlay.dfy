// The running game as a protocol: teams, level times, pending scheduler jobs, shown hints. One call of an
// interactor is one atomic step. Instants are integers (seconds); hint and timer offsets are in minutes.
module GamePlay {
  import opened Common

  const MINUTE: int := 60
  const START_SNAP: int := 2

  // A timer condition of a level: its effects are applied once, `actionTime` minutes after the start.
  datatype Timer = Timer(effectsId: nat, actionTime: nat, levelUp: bool, nextLevel: Option<string>)

  datatype Level = Level(hints: seq<nat>, timers: seq<Timer>)

  // `byName` resolves a level name to the number that level has in its game. The lookup is by the author
  // of the game, so nothing in it says that the level is one of this game.
  datatype Config = Config(levels: seq<Level>, byName: map<string, nat>, teams: seq<nat>)

  datatype LevelTime = LevelTime(team: nat, level: nat, startAt: int)

  datatype HintJob = HintJob(team: nat, level: nat, hint: nat, ltId: nat, runAt: int)

  datatype EventJob = EventJob(team: nat, ltId: nat, runAt: int)

  datatype Shown = Shown(ltId: nat, hint: nat)

  datatype Applied = Applied(ltId: nat, effectsId: nat)

  // The level times: the rows by id, and the rows of each team in the order they were written.
  datatype Table = Table(lts: map<nat, LevelTime>, path: map<nat, seq<nat>>, nextId: nat)

  // The pending hint jobs, and everything that was shown so far.
  datatype Hints = Hints(jobs: multiset<HintJob>, shown: seq<Shown>)

  // `finished` is how often the end of the game was logged.
  datatype State = State(
    table: Table, hints: Hints, eventJobs: multiset<EventJob>, events: seq<Applied>, finished: nat, clock: int)

  predicate DistinctEffects(timers: seq<Timer>) {
    forall i, j :: 0 <= i < j < |timers| ==> timers[i].effectsId != timers[j].effectsId
  }

  predicate OneLevelUp(timers: seq<Timer>) {
    forall i, j :: 0 <= i < j < |timers| ==> !(timers[i].levelUp && timers[j].levelUp)
  }

  // What a level is checked for when it is saved.
  predicate ValidLevel(level: Level) {
    |level.hints| > 0 && DistinctEffects(level.timers) && OneLevelUp(level.timers)
  }

  predicate ValidConfig(cfg: Config) {
    && |cfg.levels| > 0 && |cfg.teams| > 0
    && (forall i {:trigger ValidLevel(cfg.levels[i])} :: 0 <= i < |cfg.levels| ==> ValidLevel(cfg.levels[i]))
    && (forall i, j :: 0 <= i < j < |cfg.teams| ==> cfg.teams[i] != cfg.teams[j])
  }

  // Every name leads to a number this game has, be it the number of the finish.
  ghost predicate NamesInRange(cfg: Config) {
    forall name :: name in cfg.byName ==> cfg.byName[name] <= |cfg.levels|
  }

  // ----- Pure parts -----

  predicate IsLastHint(level: Level, hint: nat) { |level.hints| == hint + 1 }

  function HintTime(startAt: int, level: Level, hint: nat): int
    requires hint < |level.hints|
  {
    startAt + MINUTE * level.hints[hint]
  }

  function Abs(x: int): int { if x < 0 then -x else x }

  function SnapToPlannedStart(planned: Option<int>, now: int): int {
    if planned.Some? && Abs(now - planned.value) <= START_SNAP then planned.value else now
  }

  predicate NeedStartNow(planned: Option<int>, now: int) {
    && planned.Some?
    && if planned.value < now then now - planned.value < 30 * MINUTE else planned.value - now < MINUTE
  }

  // A start is back-dated by at most two seconds, and lies ahead of the clock only when the scheduler
  // woke up early by no more than that.
  lemma SnapAheadIff(planned: Option<int>, now: int)
    ensures SnapToPlannedStart(planned, now) > now <==> planned.Some? && now < planned.value <= now + START_SNAP
    ensures Abs(SnapToPlannedStart(planned, now) - now) <= START_SNAP
  {
  }

  function NextLevel(cfg: Config, number: nat, name: Option<string>): Option<nat> {
    if name.None? then Some(number + 1)
    else if name.value in cfg.byName then Some(cfg.byName[name.value])
    else None
  }

  function TimerLevelUpTime(actionTime: nat, startedAt: int, now: int): int {
    if startedAt + MINUTE * actionTime <= now then startedAt + MINUTE * actionTime else now
  }

  // The current level time: the one that started last. Of rows that started at the same instant the newer
  // one is taken; the engine's query leaves that open.
  function CurrentOf(lts: map<nat, LevelTime>, path: seq<nat>): (id: nat)
    requires path != [] && forall i :: 0 <= i < |path| ==> path[i] in lts
    ensures id in path
  {
    if |path| == 1 then path[0]
    else
      var before := CurrentOf(lts, path[..|path| - 1]);
      var last := path[|path| - 1];
      if lts[last].startAt >= lts[before].startAt then last else before
  }

  // Foreign keys: every row of a path exists.
  predicate Rows(table: Table) {
    && (forall t :: t in table.path ==> table.path[t] != [])
    && (forall t, i :: t in table.path && 0 <= i < |table.path[t]| ==> table.path[t][i] in table.lts)
  }

  function Current(table: Table, team: nat): (id: nat)
    requires Rows(table) && team in table.path
    ensures id in table.lts
  {
    CurrentOf(table.lts, table.path[team])
  }

  predicate HasFinished(cfg: Config, lt: LevelTime) { lt.level >= |cfg.levels| }

  predicate TeamFinished(cfg: Config, table: Table, team: nat)
    requires Rows(table) && team in table.path
  {
    HasFinished(cfg, table.lts[Current(table, team)])
  }

  predicate Started(cfg: Config, table: Table) {
    forall t :: t in cfg.teams ==> t in table.path
  }

  predicate AllFinished(cfg: Config, table: Table)
    requires Rows(table) && Started(cfg, table)
  {
    forall t :: t in cfg.teams ==> TeamFinished(cfg, table, t)
  }

  // ----- The steps -----

  function SetToLevel(table: Table, team: nat, level: nat, at: int): Table {
    var row := table.nextId;
    Table(table.lts[row := LevelTime(team, level, at)],
          table.path[team := (if team in table.path then table.path[team] else []) + [row]],
          table.nextId + 1)
  }

  lemma SetToLevelKeepsRows(cfg: Config, table: Table, team: nat, level: nat, at: int)
    requires Rows(table)
    ensures Rows(SetToLevel(table, team, level, at))
    ensures Started(cfg, table) ==> Started(cfg, SetToLevel(table, team, level, at))
  {
  }

  function TimerJobs(team: nat, ltId: nat, startAt: int, timers: seq<Timer>): multiset<EventJob> {
    if timers == [] then multiset{}
    else
      TimerJobs(team, ltId, startAt, timers[..|timers| - 1])
      + multiset{EventJob(team, ltId, startAt + MINUTE * timers[|timers| - 1].actionTime)}
  }

  function FirstHintJob(level: Level, lt: LevelTime, id: nat): multiset<HintJob>
    requires |level.hints| > 0
  {
    if IsLastHint(level, 0) then multiset{}
    else multiset{HintJob(lt.team, lt.level, 1, id, HintTime(lt.startAt, level, 1))}
  }

  // The puzzle is shown and the first hint is scheduled ...
  function PuzzleShown(level: Level, hints: Hints, id: nat, lt: LevelTime): Hints
    requires |level.hints| > 0
  {
    Hints(hints.jobs + FirstHintJob(level, lt, id), hints.shown + [Shown(id, 0)])
  }

  // ... and so are the timers of the level.
  function Entered(cfg: Config, st: State, id: nat): State
    requires id in st.table.lts && !HasFinished(cfg, st.table.lts[id]) && ValidConfig(cfg)
  {
    var lt := st.table.lts[id];
    var level := cfg.levels[lt.level];
    assert ValidLevel(level);
    st.(hints := PuzzleShown(level, st.hints, id, lt),
        eventJobs := st.eventJobs + TimerJobs(lt.team, id, lt.startAt, level.timers))
  }

  function StartTeam(cfg: Config, st: State, team: nat, at: int): State
    requires ValidConfig(cfg)
  {
    Entered(cfg, st.(table := SetToLevel(st.table, team, 0, at)), st.table.nextId)
  }

  function StartTeams(cfg: Config, st: State, teams: seq<nat>, at: int): State
    requires ValidConfig(cfg)
  {
    if teams == [] then st
    else StartTeam(cfg, StartTeams(cfg, st, teams[..|teams| - 1], at), teams[|teams| - 1], at)
  }

  function BeforeStart(clock: int): State {
    State(Table(map[], map[], 0), Hints(multiset{}, []), multiset{}, [], 0, clock)
  }

  // The game as its first step leaves it. The start it records may lie ahead of the clock.
  function StartedGame(cfg: Config, planned: Option<int>, now: int): State
    requires ValidConfig(cfg)
  {
    StartTeams(cfg, BeforeStart(now), cfg.teams, SnapToPlannedStart(planned, now))
  }

  predicate Playable(cfg: Config, table: Table) {
    ValidConfig(cfg) && Rows(table) && Started(cfg, table)
  }

  // A team was moved: it is either shown its new puzzle, or it is done, and perhaps so is everyone.
  function ProcessLevelUp(cfg: Config, st: State, team: nat): State
    requires Playable(cfg, st.table) && team in st.table.path
  {
    if TeamFinished(cfg, st.table, team) then
      if AllFinished(cfg, st.table) then st.(finished := st.finished + 1) else st
    else Entered(cfg, st, Current(st.table, team))
  }

  function LeveledUp(cfg: Config, st: State, team: nat, level: nat, at: int): State
    requires Playable(cfg, st.table)
  {
    SetToLevelKeepsRows(cfg, st.table, team, level, at);
    ProcessLevelUp(cfg, st.(table := SetToLevel(st.table, team, level, at)), team)
  }

  // A key: the scenario decides whether it moves the team on, and where to. A finished team is on no
  // level, and an unknown level name is an error: neither changes anything.
  function AfterKey(cfg: Config, st: State, team: nat, levelUp: bool, nextLevel: Option<string>, now: int): State
    requires Playable(cfg, st.table)
  {
    if team !in cfg.teams || !levelUp || TeamFinished(cfg, st.table, team) then st
    else
      var next := NextLevel(cfg, st.table.lts[Current(st.table, team)].level, nextLevel);
      if next.None? then st else LeveledUp(cfg, st, team, next.value, now)
  }

  // The timers of the level whose time has come and which were not applied yet.
  function DueTimers(timers: seq<Timer>, ltId: nat, elapsed: int, events: seq<Applied>): seq<Timer> {
    if timers == [] then []
    else
      var before := DueTimers(timers[..|timers| - 1], ltId, elapsed, events);
      var last := timers[|timers| - 1];
      if MINUTE * last.actionTime <= elapsed && Applied(ltId, last.effectsId) !in events then before + [last]
      else before
  }

  function AppliedOf(ltId: nat, due: seq<Timer>): seq<Applied> {
    seq(|due|, i requires 0 <= i < |due| => Applied(ltId, due[i].effectsId))
  }

  function LevelUpTimer(due: seq<Timer>): Option<Timer> {
    if due == [] then None
    else if due[0].levelUp then Some(due[0])
    else LevelUpTimer(due[1..])
  }

  // The effects of due timers: they are noted, and one of them may move the team on. A timer that leads
  // to an unknown level is an error that leaves nothing behind.
  function TimersApplied(cfg: Config, st: State, team: nat, id: nat, due: seq<Timer>, now: int): State
    requires Playable(cfg, st.table) && id in st.table.lts
  {
    var lt := st.table.lts[id];
    var told := st.(events := st.events + AppliedOf(id, due));
    var timer := LevelUpTimer(due);
    if timer.None? then told
    else
      var next := NextLevel(cfg, lt.level, timer.value.nextLevel);
      if next.None? then st
      else LeveledUp(cfg, told, team, next.value, TimerLevelUpTime(timer.value.actionTime, lt.startAt, now))
  }

  // The state without a job that has fired.
  function Fired(st: State, job: EventJob): State {
    st.(eventJobs := st.eventJobs - multiset{job})
  }

  // The timers of a level time that are due now.
  function DueNow(cfg: Config, st: State, id: nat, now: int): seq<Timer>
    requires id in st.table.lts && st.table.lts[id].level < |cfg.levels|
  {
    var lt := st.table.lts[id];
    DueTimers(cfg.levels[lt.level].timers, id, now - lt.startAt, st.events)
  }

  // A timer job fires. It concerns only the level time it was scheduled for.
  function AfterTimer(cfg: Config, st: State, job: EventJob, now: int): State
    requires Playable(cfg, st.table) && job.team in cfg.teams
  {
    var id := Current(st.table, job.team);
    if HasFinished(cfg, st.table.lts[id]) || id != job.ltId then Fired(st, job)
    else TimersApplied(cfg, Fired(st, job), job.team, id, DueNow(cfg, st, id, now), now)
  }

  // A hint is shown; the next one, if there is one, is scheduled from the start of the level.
  function HintSent(level: Level, hints: Hints, job: HintJob, startAt: int): Hints
    requires job.hint < |level.hints|
  {
    Hints(if IsLastHint(level, job.hint) then hints.jobs
          else hints.jobs + multiset{
            HintJob(job.team, job.level, job.hint + 1, job.ltId, HintTime(startAt, level, job.hint + 1))},
          hints.shown + [Shown(job.ltId, job.hint)])
  }

  // A hint job fires: it does nothing if the team has left the level.
  function AfterHint(cfg: Config, st: State, job: HintJob): State
    requires Rows(st.table) && job.team in st.table.path && job.level < |cfg.levels|
    requires job.hint < |cfg.levels[job.level].hints|
  {
    var fired := st.hints.(jobs := st.hints.jobs - multiset{job});
    var id := Current(st.table, job.team);
    if id != job.ltId then st.(hints := fired)
    else st.(hints := HintSent(cfg.levels[job.level], fired, job, st.table.lts[id].startAt))
  }
}
