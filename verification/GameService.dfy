// The interactors of the running game, changing level times, jobs and shown tasks step by step. Every call
// is proved to be the step of the protocol it stands for.
module GameService {
  import opened Common
  import opened GamePlay
  import opened GameRuns
  import GameChain
  import GameLaws

  function PlacedAll(table: Table, teams: seq<nat>, at: int): Table {
    if teams == [] then table else SetToLevel(PlacedAll(table, teams[..|teams| - 1], at), teams[|teams| - 1], 0, at)
  }

  // Starting the teams one by one places them as placing them all first would.
  lemma {:induction false} StartPlaces(cfg: Config, st: State, teams: seq<nat>, at: int)
    requires ValidConfig(cfg)
    ensures StartTeams(cfg, st, teams, at).table == PlacedAll(st.table, teams, at)
    ensures StartTeams(cfg, st, teams, at).table.nextId == st.table.nextId + |teams|
    ensures StartTeams(cfg, st, teams, at).(table := st.table, hints := st.hints, eventJobs := st.eventJobs) == st
  {
    if teams != [] { StartPlaces(cfg, st, teams[..|teams| - 1], at); }
  }

  lemma StartTeamShows(cfg: Config, st: State, team: nat, at: int)
    requires ValidConfig(cfg)
    ensures var after, id, lt := StartTeam(cfg, st, team, at), st.table.nextId, LevelTime(team, 0, at);
            && |cfg.levels[0].hints| > 0
            && after.hints == PuzzleShown(cfg.levels[0], st.hints, id, lt)
            && after.eventJobs == st.eventJobs + TimerJobs(team, id, at, cfg.levels[0].timers)
  {
    assert ValidLevel(cfg.levels[0]);
  }

  lemma StartStep(cfg: Config, st: State, teams: seq<nat>, i: nat, at: int)
    requires ValidConfig(cfg) && i < |teams| && st.table.nextId == 0
    ensures var before, after := StartTeams(cfg, st, teams[..i], at), StartTeams(cfg, st, teams[..i + 1], at);
            var lt := LevelTime(teams[i], 0, at);
            && |cfg.levels[0].hints| > 0
            && after.hints == PuzzleShown(cfg.levels[0], before.hints, i, lt)
            && after.eventJobs == before.eventJobs + TimerJobs(teams[i], i, at, cfg.levels[0].timers)
  {
    assert teams[..i + 1][..i] == teams[..i];
    StartPlaces(cfg, st, teams[..i], at);
    StartTeamShows(cfg, StartTeams(cfg, st, teams[..i], at), teams[i], at);
  }

  lemma StartAssembled(cfg: Config, st: State, teams: seq<nat>, at: int, done: State)
    requires ValidConfig(cfg)
    requires done.table == PlacedAll(st.table, teams, at)
    requires done.hints == StartTeams(cfg, st, teams, at).hints
        && done.eventJobs == StartTeams(cfg, st, teams, at).eventJobs
    requires done == st.(table := done.table, hints := done.hints, eventJobs := done.eventJobs)
    ensures done == StartTeams(cfg, st, teams, at)
  {
    StartPlaces(cfg, st, teams, at);
  }

  lemma AfterStaleHint(cfg: Config, st: State, job: HintJob, now: int, done: State)
    requires CanStep(cfg, st, HintFires(now, job)) && Current(st.table, job.team) != job.ltId
    requires done == st.(clock := now, hints := st.hints.(jobs := st.hints.jobs - multiset{job}))
    ensures done == Step(cfg, st, HintFires(now, job))
  {
  }

  lemma AfterCurrentHint(cfg: Config, st: State, job: HintJob, now: int, done: State)
    requires CanStep(cfg, st, HintFires(now, job)) && Current(st.table, job.team) == job.ltId
    requires done == st.(clock := now,
                         hints := HintSent(cfg.levels[job.level], st.hints.(jobs := st.hints.jobs - multiset{job}),
                                                        job, st.table.lts[job.ltId].startAt))
    ensures done == Step(cfg, st, HintFires(now, job))
  {
  }

  lemma AfterStaleTimer(cfg: Config, st: State, job: EventJob, now: int)
    requires Playable(cfg, st.table) && job.team in cfg.teams
    requires TeamFinished(cfg, st.table, job.team) || Current(st.table, job.team) != job.ltId
    ensures AfterTimer(cfg, st, job, now) == Fired(st, job)
  {
  }

  // The team is on the first level since that instant, with the puzzle shown and its first jobs pending.
  ghost predicate TeamStarted(cfg: Config, st: State, i: nat, at: int)
    requires ValidConfig(cfg) && i < |cfg.teams|
  {
    var lt := LevelTime(cfg.teams[i], 0, at);
    && i in st.table.lts && st.table.lts[i] == lt
    && cfg.teams[i] in st.table.path && st.table.path[cfg.teams[i]] == [i]
    && GameChain.HintsShown(st.hints.shown, i) == [0]
    && GameLaws.FirstHintPends(cfg.levels[0], st.hints, i, lt)
    && GameLaws.TimersPend(cfg.levels[0], st.eventJobs, i, lt)
  }

  ghost predicate TeamsStarted(cfg: Config, st: State, at: int)
    requires ValidConfig(cfg)
  {
    forall i: nat {:trigger TeamStarted(cfg, st, i, at)} :: i < |cfg.teams| ==> TeamStarted(cfg, st, i, at)
  }

  lemma TeamsAreStarted(cfg: Config, planned: Option<int>, now: int)
    requires ValidConfig(cfg)
    ensures TeamsStarted(cfg, StartedGame(cfg, planned, now), GameLaws.RecordedStart(planned, now))
  {
    forall i: nat | i < |cfg.teams|
      ensures TeamStarted(cfg, StartedGame(cfg, planned, now), i, GameLaws.RecordedStart(planned, now))
    {
      GameLaws.StartLaw(cfg, planned, now, i);
    }
  }

  class GameDao {
    var lts: map<nat, LevelTime>
    var path: map<nat, seq<nat>>
    var nextId: nat
    var jobs: multiset<HintJob>
    var shown: seq<Shown>
    var eventJobs: multiset<EventJob>
    var events: seq<Applied>
    var finished: nat
    var clock: int

    function LevelTimes(): Table
      reads this
    {
      Table(lts, path, nextId)
    }

    function Model(): State
      reads this
    {
      State(LevelTimes(), Hints(jobs, shown), eventJobs, events, finished, clock)
    }

    constructor (clock: int)
      ensures Model() == BeforeStart(clock)
    {
      lts, path, nextId, jobs, shown := map[], map[], 0, multiset{}, [];
      eventJobs, events, finished := multiset{}, [], 0;
      this.clock := clock;
    }

    method SetTeamToLevel(team: nat, level: nat, at: int) returns (id: nat)
      modifies `lts, `path, `nextId
      ensures id == old(nextId) && LevelTimes() == SetToLevel(old(LevelTimes()), team, level, at)
    {
      id := nextId;
      lts := lts[id := LevelTime(team, level, at)];
      path := path[team := (if team in path then path[team] else []) + [id]];
      nextId := nextId + 1;
    }

    // The first hint, if the level has one, and every timer of the level.
    method ScheduleFirstHint(level: Level, id: nat, lt: LevelTime)
      requires |level.hints| > 0
      modifies `jobs, `eventJobs
      ensures jobs == old(jobs) + FirstHintJob(level, lt, id)
      ensures jobs == old(jobs) +
                if |level.hints| == 1 then multiset{}
                else multiset{HintJob(lt.team, lt.level, 1, id, lt.startAt + 60 * level.hints[1])}
      ensures eventJobs == old(eventJobs) + TimerJobs(lt.team, id, lt.startAt, level.timers)
    {
      if !IsLastHint(level, 0) {
        jobs := jobs + multiset{HintJob(lt.team, lt.level, 1, id, HintTime(lt.startAt, level, 1))};
      }
      ScheduleTimers(lt.team, id, lt.startAt, level.timers);
    }

    method ScheduleTimers(team: nat, id: nat, startAt: int, timers: seq<Timer>)
      modifies `eventJobs
      ensures eventJobs == old(eventJobs) + TimerJobs(team, id, startAt, timers)
    {
      for i := 0 to |timers|
        invariant eventJobs == old(eventJobs) + TimerJobs(team, id, startAt, timers[..i])
      {
        assert timers[..i + 1][..i] == timers[..i];
        eventJobs := eventJobs + multiset{EventJob(team, id, startAt + MINUTE * timers[i].actionTime)};
      }
      assert timers[..|timers|] == timers;
    }

    method ShowPuzzle(cfg: Config, id: nat, lt: LevelTime)
      requires ValidConfig(cfg) && !HasFinished(cfg, lt)
      modifies `jobs, `shown, `eventJobs
      ensures |cfg.levels[lt.level].hints| > 0
      ensures Hints(jobs, shown) == PuzzleShown(cfg.levels[lt.level], old(Hints(jobs, shown)), id, lt)
      ensures eventJobs == old(eventJobs) + TimerJobs(lt.team, id, lt.startAt, cfg.levels[lt.level].timers)
    {
      var level := cfg.levels[lt.level];
      assert ValidLevel(level);
      shown := shown + [Shown(id, 0)];
      ScheduleFirstHint(level, id, lt);
    }

    method PlaceTeams(teams: seq<nat>, at: int)
      modifies `lts, `path, `nextId
      ensures LevelTimes() == PlacedAll(old(LevelTimes()), teams, at)
    {
      for i := 0 to |teams|
        invariant LevelTimes() == PlacedAll(old(LevelTimes()), teams[..i], at)
      {
        assert teams[..i + 1][..i] == teams[..i];
        var _ := SetTeamToLevel(teams[i], 0, at);
      }
      assert teams[..|teams|] == teams;
    }

    // The teams have the level times 0, 1, 2, ... in their order.
    method ShowFirstPuzzles(cfg: Config, teams: seq<nat>, at: int, ghost before: State)
      requires ValidConfig(cfg) && before.table.nextId == 0
      requires before.hints == Hints(jobs, shown) && before.eventJobs == eventJobs
      modifies `jobs, `shown, `eventJobs
      ensures Hints(jobs, shown) == StartTeams(cfg, before, teams, at).hints
      ensures eventJobs == StartTeams(cfg, before, teams, at).eventJobs
    {
      for i := 0 to |teams|
        invariant Hints(jobs, shown) == StartTeams(cfg, before, teams[..i], at).hints
        invariant eventJobs == StartTeams(cfg, before, teams[..i], at).eventJobs
      {
        StartStep(cfg, before, teams, i, at);
        ShowPuzzle(cfg, i, LevelTime(teams[i], 0, at));
      }
      assert teams[..|teams|] == teams;
    }

    // First every team is put on the first level, then each is shown its puzzle.
    method StartAllTeams(cfg: Config, at: int)
      requires ValidConfig(cfg) && nextId == 0
      modifies `lts, `path, `nextId, `jobs, `shown, `eventJobs
      ensures Model() == StartTeams(cfg, old(Model()), cfg.teams, at)
    {
      ghost var before := Model();
      PlaceTeams(cfg.teams, at);
      assert LevelTimes() == PlacedAll(before.table, cfg.teams, at);
      ShowFirstPuzzles(cfg, cfg.teams, at, before);
      ghost var done := Model();
      assert done == before.(table := done.table, hints := done.hints, eventJobs := done.eventJobs);
      StartAssembled(cfg, before, cfg.teams, at, done);
    }

    // A start that is not due does nothing.
    method StartGame(cfg: Config, planned: Option<int>, now: int) returns (started: bool)
      requires ValidConfig(cfg)
      requires Model() == BeforeStart(now)
      modifies this
      ensures started <==> planned.Some? && -60 < now - planned.value < 1800
      ensures Model() == if started then StartedGame(cfg, planned, now) else old(Model())
      ensures started ==>
                TeamsStarted(cfg, Model(), if -2 <= now - planned.value <= 2 then planned.value else now)
    {
      if !NeedStartNow(planned, now) { return false; }
      StartAllTeams(cfg, SnapToPlannedStart(planned, now));
      TeamsAreStarted(cfg, planned, now);
      return true;
    }

    // Done teams are congratulated, and when everyone is done the end of the game is logged.
    method LevelUp(cfg: Config, team: nat)
      requires Playable(cfg, LevelTimes()) && team in path
      modifies `jobs, `shown, `eventJobs, `finished
      ensures Model() == ProcessLevelUp(cfg, old(Model()), team)
    {
      if TeamFinished(cfg, LevelTimes(), team) {
        if AllFinished(cfg, LevelTimes()) {
          finished := finished + 1;
        }
        return;
      }
      var id := Current(LevelTimes(), team);
      ShowPuzzle(cfg, id, lts[id]);
    }

    method MoveTeam(cfg: Config, team: nat, level: nat, at: int)
      requires Playable(cfg, LevelTimes())
      modifies this
      ensures Model() == LeveledUp(cfg, old(Model()), team, level, at)
    {
      SetToLevelKeepsRows(cfg, LevelTimes(), team, level, at);
      var _ := SetTeamToLevel(team, level, at);
      LevelUp(cfg, team);
    }

    method CheckKey(cfg: Config, team: nat, levelUp: bool, nextLevel: Option<string>, now: int)
      requires Playable(cfg, LevelTimes()) && clock <= now
      modifies this
      ensures Model() == Step(cfg, old(Model()), Key(now, team, levelUp, nextLevel))
    {
      clock := now;
      if team !in cfg.teams || TeamFinished(cfg, LevelTimes(), team) || !levelUp { return; }
      var lt := lts[Current(LevelTimes(), team)];
      var next := NextLevel(cfg, lt.level, nextLevel);
      if next.Some? {
        MoveTeam(cfg, team, next.value, now);
      }
    }

    method ProcessTimer(cfg: Config, job: EventJob, now: int)
      requires CanStep(cfg, Model(), TimerFires(now, job))
      modifies this
      ensures Model() == Step(cfg, old(Model()), TimerFires(now, job))
    {
      clock := now;
      FireTimer(cfg, job, now);
    }

    method FireTimer(cfg: Config, job: EventJob, now: int)
      requires Playable(cfg, LevelTimes()) && job.team in cfg.teams
      modifies this
      ensures Model() == AfterTimer(cfg, old(Model()), job, now)
    {
      ghost var before := Model();
      eventJobs := eventJobs - multiset{job};
      var id := Current(LevelTimes(), job.team);
      var lt := lts[id];
      if HasFinished(cfg, lt) || id != job.ltId {
        AfterStaleTimer(cfg, before, job, now);
        return;
      }
      var due := DueTimers(cfg.levels[lt.level].timers, id, now - lt.startAt, events);
      assert Model() == Fired(before, job) && due == DueNow(cfg, before, id, now);
      CurrentTimerApplies(cfg, before, job, now);
      ApplyTimers(cfg, job.team, id, due, now);
    }

    // Every due effect is noted; if one of them moves the team and its level cannot be found, none is.
    method ApplyTimers(cfg: Config, team: nat, id: nat, due: seq<Timer>, now: int)
      requires Playable(cfg, LevelTimes()) && id in lts
      modifies this
      ensures Model() == TimersApplied(cfg, old(Model()), team, id, due, now)
    {
      var lt := lts[id];
      var timer := LevelUpTimer(due);
      var next := if timer.Some? then NextLevel(cfg, lt.level, timer.value.nextLevel) else None;
      if timer.Some? && next.None? { return; }
      ghost var before := events;
      for i := 0 to |due|
        invariant events == before + AppliedOf(id, due)[..i]
        invariant Model().(events := before) == old(Model())
      {
        events := events + [Applied(id, due[i].effectsId)];
      }
      assert AppliedOf(id, due)[..|due|] == AppliedOf(id, due);
      if timer.Some? {
        MoveTeam(cfg, team, next.value, TimerLevelUpTime(timer.value.actionTime, lt.startAt, now));
      }
    }

    // The time of the next hint is counted from the start of the level, not from the hint before it.
    method SendHint(cfg: Config, job: HintJob, now: int)
      requires CanStep(cfg, Model(), HintFires(now, job))
      modifies this
      ensures Model() == Step(cfg, old(Model()), HintFires(now, job))
      ensures Current(old(LevelTimes()), job.team) == job.ltId ==>
                && shown == old(shown) + [Shown(job.ltId, job.hint)]
                && jobs == old(jobs) - multiset{job} +
                     var hints := cfg.levels[job.level].hints;
                     if job.hint + 1 == |hints| then multiset{}
                     else multiset{HintJob(job.team, job.level, job.hint + 1, job.ltId,
                                           old(lts)[job.ltId].startAt + 60 * hints[job.hint + 1])}
    {
      ghost var before := Model();
      clock := now;
      jobs := jobs - multiset{job};
      var id := Current(LevelTimes(), job.team);
      if id != job.ltId {
        AfterStaleHint(cfg, before, job, now, Model());
        return;
      }
      var level := cfg.levels[job.level];
      shown := shown + [Shown(id, job.hint)];
      if !IsLastHint(level, job.hint) {
        var next := job.hint + 1;
        jobs := jobs + multiset{HintJob(job.team, job.level, next, id, HintTime(lts[id].startAt, level, next))};
      }
      AfterCurrentHint(cfg, before, job, now, Model());
    }
  }
}
