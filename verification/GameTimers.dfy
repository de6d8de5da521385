// The timer jobs of a level: every timer that was not applied yet has its job, unless that job was spent on a
// timer that leads to an unknown level.
module GameTimers {
  import opened Common
  import opened GamePlay
  import opened GameRuns
  import opened GameChain

  function JobOf(id: nat, lt: LevelTime, timer: Timer): EventJob {
    EventJob(lt.team, id, lt.startAt + MINUTE * timer.actionTime)
  }

  // How many jobs like this one were scheduled when the level time was entered: one for each timer of that
  // action time.
  function Scheduled(cfg: Config, id: nat, lt: LevelTime, job: EventJob): nat
    requires !HasFinished(cfg, lt)
  {
    TimerJobs(lt.team, id, lt.startAt, cfg.levels[lt.level].timers)[job]
  }

  lemma {:induction false} ScheduledAtItsTime(team: nat, id: nat, startAt: int, timers: seq<Timer>, k: nat)
    requires k < |timers|
    ensures TimerJobs(team, id, startAt, timers)[EventJob(team, id, startAt + MINUTE * timers[k].actionTime)] > 0
  {
    if k < |timers| - 1 { ScheduledAtItsTime(team, id, startAt, timers[..|timers| - 1], k); }
  }

  // With action times of their own, the timers of a level have one job each.
  lemma {:induction false} ScheduledOnce(team: nat, id: nat, startAt: int, timers: seq<Timer>, k: nat)
    requires k < |timers|
    requires forall i, j :: 0 <= i < j < |timers| ==> timers[i].actionTime != timers[j].actionTime
    ensures TimerJobs(team, id, startAt, timers)[EventJob(team, id, startAt + MINUTE * timers[k].actionTime)] == 1
  {
    var last := |timers| - 1;
    if k < last {
      ScheduledOnce(team, id, startAt, timers[..last], k);
    } else {
      NotScheduledYet(team, id, startAt, timers[..last], timers[last].actionTime);
    }
  }

  lemma {:induction false} NotScheduledYet(team: nat, id: nat, startAt: int, timers: seq<Timer>, actionTime: nat)
    requires forall i :: 0 <= i < |timers| ==> timers[i].actionTime != actionTime
    ensures TimerJobs(team, id, startAt, timers)[EventJob(team, id, startAt + MINUTE * actionTime)] == 0
  {
    if timers != [] { NotScheduledYet(team, id, startAt, timers[..|timers| - 1], actionTime); }
  }

  // A timer is applied, or all the jobs that were scheduled for its time are pending.
  ghost predicate TimerKept(
    cfg: Config, id: nat, lt: LevelTime, events: seq<Applied>, jobs: multiset<EventJob>, timer: Timer)
    requires !HasFinished(cfg, lt)
  {
    Applied(id, timer.effectsId) in events || jobs[JobOf(id, lt, timer)] == Scheduled(cfg, id, lt, JobOf(id, lt, timer))
  }

  ghost predicate TimersKept(cfg: Config, id: nat, lt: LevelTime, events: seq<Applied>, jobs: multiset<EventJob>) {
    !HasFinished(cfg, lt) ==>
      forall timer {:trigger TimerKept(cfg, id, lt, events, jobs, timer)} ::
        timer in cfg.levels[lt.level].timers ==> TimerKept(cfg, id, lt, events, jobs, timer)
  }

  // Every timer of the level a team is on is applied or pending, with a job at the start of the level plus its
  // action time.
  ghost predicate AllTimersKept(cfg: Config, st: State)
    requires Rows(st.table)
  {
    forall t {:trigger Current(st.table, t)} :: t in st.table.path ==>
      TimersKept(cfg, Current(st.table, t), st.table.lts[Current(st.table, t)], st.events, st.eventJobs)
  }

  // The job of a timer that is not applied is spent on an error: of the timers due by now one moves the team
  // to a level nobody knows.
  ghost predicate LosesTimer(cfg: Config, st: State, ev: Event) {
    && Playable(cfg, st.table) && ev.TimerFires? && ev.timerJob.team in st.table.path
    && var id := Current(st.table, ev.timerJob.team);
       var lt := st.table.lts[id];
       && id == ev.timerJob.ltId && !HasFinished(cfg, lt)
       && LevelUpTimer(DueNow(cfg, st, id, ev.now)).Some?
       && NextLevel(cfg, lt.level, LevelUpTimer(DueNow(cfg, st, id, ev.now)).value.nextLevel).None?
       && exists timer :: timer in cfg.levels[lt.level].timers
                          && Applied(id, timer.effectsId) !in st.events && JobOf(id, lt, timer) == ev.timerJob
  }

  // ----- One step -----

  lemma OtherJobsKeep(
    cfg: Config, id: nat, lt: LevelTime, events: seq<Applied>, jobs: multiset<EventJob>,
    events': seq<Applied>, jobs': multiset<EventJob>)
    requires TimersKept(cfg, id, lt, events, jobs)
    requires forall e :: e in events ==> e in events'
    requires forall job: EventJob {:trigger jobs'[job]} :: job.ltId == id ==> jobs'[job] == jobs[job]
    ensures TimersKept(cfg, id, lt, events', jobs')
  {
    if !HasFinished(cfg, lt) {
      forall timer | timer in cfg.levels[lt.level].timers ensures TimerKept(cfg, id, lt, events', jobs', timer) {
        assert TimerKept(cfg, id, lt, events, jobs, timer);
      }
    }
  }

  // A level just entered has all its timers pending.
  lemma EnteredKeeps(cfg: Config, id: nat, lt: LevelTime, events: seq<Applied>, jobs: multiset<EventJob>)
    requires !HasFinished(cfg, lt) && forall job :: job in jobs ==> job.ltId != id
    ensures TimersKept(cfg, id, lt, events, jobs + TimerJobs(lt.team, id, lt.startAt, cfg.levels[lt.level].timers))
  {
  }

  // The jobs after a move: those of the level entered come in addition.
  function JobsAfterMove(cfg: Config, st: State, team: nat, level: nat, at: int): multiset<EventJob> {
    if level < |cfg.levels| then st.eventJobs + TimerJobs(team, st.table.nextId, at, cfg.levels[level].timers)
    else st.eventJobs
  }

  lemma MoveKeepsTimers(cfg: Config, start: int, st: State, team: nat, level: nat, at: int)
    requires Core(cfg, start, st) && EventJobsOk(st.table.lts, st.eventJobs) && AllTimersKept(cfg, st)
    requires MayMove(cfg, st.table, team, at) && (NamesInRange(cfg) ==> level <= |cfg.levels|)
    ensures var moved := SetToLevel(st.table, team, level, at);
            && Rows(moved)
            && AllTimersKept(cfg, st.(table := moved, eventJobs := JobsAfterMove(cfg, st, team, level, at)))
  {
    var moved, id := SetToLevel(st.table, team, level, at), st.table.nextId;
    var jobs := JobsAfterMove(cfg, st, team, level, at);
    MoveKeepsPaths(cfg, st.table, team, level, at);
    OthersStay(cfg, st.table, team, level, at);
    assert forall job :: job in st.eventJobs ==> job.ltId != id;
    if level < |cfg.levels| {
      EnteredKeeps(cfg, id, moved.lts[id], st.events, st.eventJobs);
      TimerJobsOwn(team, id, at, cfg.levels[level].timers);
    }
    forall t | t in moved.path
      ensures TimersKept(cfg, Current(moved, t), moved.lts[Current(moved, t)], st.events, jobs)
    {
      if t != team {
        OtherJobsKeep(cfg, Current(moved, t), moved.lts[Current(moved, t)], st.events, st.eventJobs, st.events, jobs);
      }
    }
  }

  lemma LevelUpKeepsTimers(cfg: Config, start: int, st: State, team: nat, level: nat, at: int)
    requires Playable(cfg, st.table) && Inv(cfg, start, st) && AllTimersKept(cfg, st) && team in cfg.teams
    requires MayMove(cfg, st.table, team, at) && (NamesInRange(cfg) ==> level <= |cfg.levels|)
    ensures var after := LeveledUp(cfg, st, team, level, at); Rows(after.table) && AllTimersKept(cfg, after)
  {
    MoveKeepsTimers(cfg, start, st, team, level, at);
    MoveKeepsPaths(cfg, st.table, team, level, at);
    var after := LeveledUp(cfg, st, team, level, at);
    assert after.table == SetToLevel(st.table, team, level, at) && after.events == st.events;
    assert after.eventJobs == JobsAfterMove(cfg, st, team, level, at);
  }

  // A job that is dropped because its team is elsewhere is nobody else's.
  lemma StaleJobKeepsTimers(cfg: Config, start: int, st: State, job: EventJob)
    requires Playable(cfg, st.table) && Inv(cfg, start, st) && AllTimersKept(cfg, st)
    requires job in st.eventJobs && job.team in cfg.teams
    requires HasFinished(cfg, st.table.lts[Current(st.table, job.team)]) || Current(st.table, job.team) != job.ltId
    ensures AllTimersKept(cfg, Fired(st, job))
  {
    forall t | t in st.table.path
      ensures TimersKept(cfg, Current(st.table, t), st.table.lts[Current(st.table, t)], st.events,
                         Fired(st, job).eventJobs)
    {
      var id := Current(st.table, t);
      CurrentIsLast(cfg, st.table, t);
      if id != job.ltId {
        OtherJobsKeep(cfg, id, st.table.lts[id], st.events, st.eventJobs, st.events, Fired(st, job).eventJobs);
      }
    }
  }

  // The due timers are applied, and those that are not due have later jobs than the one that fired.
  lemma DueTimersKept(
    cfg: Config, id: nat, lt: LevelTime, events: seq<Applied>, jobs: multiset<EventJob>, job: EventJob, now: int)
    requires !HasFinished(cfg, lt) && TimersKept(cfg, id, lt, events, jobs) && job.runAt <= now
    ensures var due := DueTimers(cfg.levels[lt.level].timers, id, now - lt.startAt, events);
            TimersKept(cfg, id, lt, events + AppliedOf(id, due), jobs - multiset{job})
  {
    var timers := cfg.levels[lt.level].timers;
    var due := DueTimers(timers, id, now - lt.startAt, events);
    DueTimersAre(timers, id, now - lt.startAt, events);
    forall timer | timer in timers
      ensures TimerKept(cfg, id, lt, events + AppliedOf(id, due), jobs - multiset{job}, timer)
    {
      assert TimerKept(cfg, id, lt, events, jobs, timer);
      if timer in due {
        var k :| 0 <= k < |due| && due[k] == timer;
        assert AppliedOf(id, due)[k] == Applied(id, timer.effectsId);
      }
    }
  }

  lemma CurrentJobKeepsTimers(cfg: Config, start: int, st: State, job: EventJob)
    requires Playable(cfg, st.table) && Inv(cfg, start, st) && AllTimersKept(cfg, st)
    requires job.team in cfg.teams && job.runAt <= st.clock
    requires Current(st.table, job.team) == job.ltId && !HasFinished(cfg, st.table.lts[job.ltId])
    ensures var told := st.events + AppliedOf(job.ltId, DueNow(cfg, st, job.ltId, st.clock));
            AllTimersKept(cfg, Fired(st, job).(events := told))
  {
    var told := Fired(st, job).(events := st.events + AppliedOf(job.ltId, DueNow(cfg, st, job.ltId, st.clock)));
    forall t | t in st.table.path
      ensures TimersKept(cfg, Current(st.table, t), st.table.lts[Current(st.table, t)], told.events, told.eventJobs)
    {
      var id := Current(st.table, t);
      if id == job.ltId {
        DueTimersKept(cfg, id, st.table.lts[id], st.events, st.eventJobs, job, st.clock);
      } else {
        OtherJobsKeep(cfg, id, st.table.lts[id], st.events, st.eventJobs, told.events, told.eventJobs);
      }
    }
  }

  // A job spent on an error is missed exactly by a timer of its time that was not applied.
  lemma ErrorKeepsTimersIff(cfg: Config, start: int, st: State, job: EventJob)
    requires Playable(cfg, st.table) && Inv(cfg, start, st) && AllTimersKept(cfg, st) && job in st.eventJobs
    requires job.team in cfg.teams
    requires Current(st.table, job.team) == job.ltId && !HasFinished(cfg, st.table.lts[job.ltId])
    ensures AllTimersKept(cfg, Fired(st, job)) <==>
              forall timer :: timer in cfg.levels[st.table.lts[job.ltId].level].timers
                              && Applied(job.ltId, timer.effectsId) !in st.events ==>
                                JobOf(job.ltId, st.table.lts[job.ltId], timer) != job
  {
    var own, lt := job.ltId, st.table.lts[job.ltId];
    var jobs := Fired(st, job).eventJobs;
    assert TimersKept(cfg, own, lt, st.events, st.eventJobs);
    forall timer | timer in cfg.levels[lt.level].timers && Applied(own, timer.effectsId) !in st.events
      ensures TimerKept(cfg, own, lt, st.events, jobs, timer) <==> JobOf(own, lt, timer) != job
    {
      assert TimerKept(cfg, own, lt, st.events, st.eventJobs, timer);
    }
    forall t | t in st.table.path && Current(st.table, t) != own
      ensures TimersKept(cfg, Current(st.table, t), st.table.lts[Current(st.table, t)], st.events, jobs)
    {
      var id := Current(st.table, t);
      OtherJobsKeep(cfg, id, st.table.lts[id], st.events, st.eventJobs, st.events, jobs);
    }
  }

  lemma KeyKeepsTimers(cfg: Config, start: int, st: State, team: nat, levelUp: bool, nextLevel: Option<string>)
    requires ValidConfig(cfg) && Inv(cfg, start, st) && AllTimersKept(cfg, st)
    requires !EarlyMove(cfg, start, st, Key(st.clock, team, levelUp, nextLevel))
    ensures var after := AfterKey(cfg, st, team, levelUp, nextLevel, st.clock);
            Rows(after.table) && AllTimersKept(cfg, after)
  {
    if MovesTeam(cfg, st.table, team, levelUp, nextLevel) {
      var number := st.table.lts[Current(st.table, team)].level;
      var next := NextLevel(cfg, number, nextLevel);
      if NamesInRange(cfg) { NextLevelInRange(cfg, number, nextLevel); }
      LevelUpKeepsTimers(cfg, start, st, team, next.value, st.clock);
      assert AfterKey(cfg, st, team, levelUp, nextLevel, st.clock) == LeveledUp(cfg, st, team, next.value, st.clock);
    } else {
      assert AfterKey(cfg, st, team, levelUp, nextLevel, st.clock) == st;
    }
  }

  // A timer of the current level whose effects can be applied.
  lemma AppliedKeepsTimers(cfg: Config, start: int, st: State, job: EventJob)
    requires ValidConfig(cfg) && Inv(cfg, start, st) && AllTimersKept(cfg, st)
    requires job in st.eventJobs && job.team in cfg.teams && job.runAt <= st.clock
    requires Current(st.table, job.team) == job.ltId && !HasFinished(cfg, st.table.lts[job.ltId])
    requires var timer := LevelUpTimer(DueNow(cfg, st, job.ltId, st.clock));
             timer.Some? ==> NextLevel(cfg, st.table.lts[job.ltId].level, timer.value.nextLevel).Some?
    ensures var after := AfterTimer(cfg, st, job, st.clock); Rows(after.table) && AllTimersKept(cfg, after)
  {
    var id, lt, due := job.ltId, st.table.lts[job.ltId], DueNow(cfg, st, job.ltId, st.clock);
    var told := Fired(st, job).(events := st.events + AppliedOf(id, due));
    CurrentJobKeepsTimers(cfg, start, st, job);
    CurrentTimerApplies(cfg, st, job, st.clock);
    DueNotes(cfg, st.events, lt.level, id, st.clock - lt.startAt);
    NotesKeepBase(cfg, st, st.events + AppliedOf(id, due), st.eventJobs - multiset{job});
    assert told == st.(events := st.events + AppliedOf(id, due), eventJobs := st.eventJobs - multiset{job});
    var timer := LevelUpTimer(due);
    if timer.Some? {
      var next := NextLevel(cfg, lt.level, timer.value.nextLevel);
      if NamesInRange(cfg) { NextLevelInRange(cfg, lt.level, timer.value.nextLevel); }
      LevelUpTimerIsOne(due);
      DueNowIsPast(cfg, st, id, st.clock);
      DueIsTimely(start, st.table, st.clock, id, timer.value);
      LevelUpKeepsTimers(cfg, start, told, job.team, next.value,
                         TimerLevelUpTime(timer.value.actionTime, lt.startAt, st.clock));
    }
  }

  lemma TimerKeepsTimersIff(cfg: Config, start: int, st: State, job: EventJob)
    requires ValidConfig(cfg) && Inv(cfg, start, st) && AllTimersKept(cfg, st)
    requires job in st.eventJobs && job.team in cfg.teams && job.runAt <= st.clock
    ensures var after := AfterTimer(cfg, st, job, st.clock);
            Rows(after.table) && (AllTimersKept(cfg, after) <==> !LosesTimer(cfg, st, TimerFires(st.clock, job)))
  {
    var id := Current(st.table, job.team);
    var lt := st.table.lts[id];
    if HasFinished(cfg, lt) || id != job.ltId {
      StaleJobKeepsTimers(cfg, start, st, job);
      assert AfterTimer(cfg, st, job, st.clock) == Fired(st, job);
    } else {
      var timer := LevelUpTimer(DueNow(cfg, st, id, st.clock));
      if timer.Some? && NextLevel(cfg, lt.level, timer.value.nextLevel).None? {
        CurrentTimerApplies(cfg, st, job, st.clock);
        ErrorKeepsTimersIff(cfg, start, st, job);
      } else {
        AppliedKeepsTimers(cfg, start, st, job);
      }
    }
  }

  lemma StepKeepsTimersIff(cfg: Config, start: int, st: State, ev: Event)
    requires ValidConfig(cfg) && Inv(cfg, start, st) && AllTimersKept(cfg, st)
    requires CanStep(cfg, st, ev) && !EarlyMove(cfg, start, st, ev)
    ensures var after := Step(cfg, st, ev);
            Rows(after.table) && (AllTimersKept(cfg, after) <==> !LosesTimer(cfg, st, ev))
  {
    ClockKeepsInv(cfg, start, st, ev.now);
    var now := st.(clock := ev.now);
    assert AllTimersKept(cfg, now);
    match ev
    case Key(at, team, levelUp, nextLevel) => KeyKeepsTimers(cfg, start, now, team, levelUp, nextLevel);
    case TimerFires(at, job) =>
      TimerKeepsTimersIff(cfg, start, now, job);
      LossIgnoresClock(cfg, st, ev);
    case HintFires(_, job) => assert AllTimersKept(cfg, Step(cfg, st, ev));
  }

  lemma LossIgnoresClock(cfg: Config, st: State, ev: Event)
    ensures LosesTimer(cfg, st, ev) == LosesTimer(cfg, st.(clock := ev.now), ev)
  {
    if Playable(cfg, st.table) && ev.TimerFires? && ev.timerJob.team in st.table.path
       && !HasFinished(cfg, st.table.lts[Current(st.table, ev.timerJob.team)])
    {
      var id := Current(st.table, ev.timerJob.team);
      assert DueNow(cfg, st, id, ev.now) == DueNow(cfg, st.(clock := ev.now), id, ev.now);
    }
  }

  // ----- Games -----

  lemma {:induction false} StartKeepsTimers(cfg: Config, start: int, st: State, teams: seq<nat>)
    requires ValidConfig(cfg) && Core(cfg, start, st) && Starting(cfg, st, []) && Timely(start, st.clock, start)
    requires NoRepeats(teams)
    ensures Rows(StartTeams(cfg, st, teams, start).table) && AllTimersKept(cfg, StartTeams(cfg, st, teams, start))
  {
    if teams != [] {
      var before, last := teams[..|teams| - 1], teams[|teams| - 1];
      LastIsNew(teams);
      StartKeepsTimers(cfg, start, st, before);
      StartKeepsCore(cfg, start, st, before);
      StartKeepsBase(cfg, st, before, start);
      var so := StartTeams(cfg, st, before, start);
      MoveKeepsTimers(cfg, start, so, last, 0, start);
      assert StartTeam(cfg, so, last, start).eventJobs == JobsAfterMove(cfg, so, last, 0, start);
    }
  }

  ghost predicate Kept(cfg: Config, st: State) {
    Rows(st.table) && AllTimersKept(cfg, st)
  }

  // A game in which no key moves a team before the recorded start.
  ghost predicate IsTimelyGame(cfg: Config, planned: Option<int>, now: int, states: seq<State>, events: seq<Event>) {
    && IsGame(cfg, planned, now, states, events)
    && !MovedEarly(cfg, SnapToPlannedStart(planned, now), states, events, |events|)
  }

  lemma GameStepKeepsTimersIff(
    cfg: Config, planned: Option<int>, now: int, states: seq<State>, events: seq<Event>, k: nat)
    requires IsTimelyGame(cfg, planned, now, states, events) && k < |events| && Kept(cfg, states[k])
    ensures Kept(cfg, states[k + 1]) <==> !LosesTimer(cfg, states[k], events[k])
  {
    var start := SnapToPlannedStart(planned, now);
    GameKeepsInv(cfg, planned, now, states, events, k);
    assert Linked(cfg, states, events, k);
    StepKeepsTimersIff(cfg, start, states[k], events[k]);
  }

  ghost predicate TimerLost(cfg: Config, states: seq<State>, events: seq<Event>, n: nat)
    requires |states| == |events| + 1
  {
    exists k :: 0 <= k < n && k < |events| && LosesTimer(cfg, states[k], events[k])
  }

  lemma TimerLostLast(cfg: Config, states: seq<State>, events: seq<Event>, n: nat)
    requires |states| == |events| + 1 && 0 < n < |states|
    ensures TimerLost(cfg, states, events, n) <==>
              TimerLost(cfg, states, events, n - 1) || LosesTimer(cfg, states[n - 1], events[n - 1])
  {
  }

  lemma StartKept(cfg: Config, planned: Option<int>, now: int)
    requires ValidConfig(cfg)
    ensures Kept(cfg, StartedGame(cfg, planned, now))
  {
    var start := SnapToPlannedStart(planned, now);
    assert Core(cfg, start, BeforeStart(now)) && Starting(cfg, BeforeStart(now), []);
    StartKeepsTimers(cfg, start, BeforeStart(now), cfg.teams);
  }

  lemma {:induction false} GameKeepsTimers(
    cfg: Config, planned: Option<int>, now: int, states: seq<State>, events: seq<Event>, i: nat)
    requires IsTimelyGame(cfg, planned, now, states, events) && i < |states| && !TimerLost(cfg, states, events, i)
    ensures Kept(cfg, states[i])
  {
    if i == 0 {
      StartKept(cfg, planned, now);
    } else {
      TimerLostLast(cfg, states, events, i);
      GameKeepsTimers(cfg, planned, now, states, events, i - 1);
      GameStepKeepsTimersIff(cfg, planned, now, states, events, i - 1);
    }
  }

  lemma {:induction false} LossShows(
    cfg: Config, planned: Option<int>, now: int, states: seq<State>, events: seq<Event>, n: nat) returns (i: nat)
    requires IsTimelyGame(cfg, planned, now, states, events) && n < |states| && TimerLost(cfg, states, events, n)
    ensures i <= n && !Kept(cfg, states[i])
  {
    TimerLostLast(cfg, states, events, n);
    if TimerLost(cfg, states, events, n - 1) {
      i := LossShows(cfg, planned, now, states, events, n - 1);
    } else {
      i := n;
      GameKeepsTimers(cfg, planned, now, states, events, n - 1);
      GameStepKeepsTimersIff(cfg, planned, now, states, events, n - 1);
    }
  }

  // In a game without early moves every timer of the level a team is on is applied, or its job is pending at
  // the start of the level plus its action time, exactly when no job of an unapplied timer is spent on an error.
  lemma TimersKeptIff(cfg: Config, planned: Option<int>, now: int, states: seq<State>, events: seq<Event>)
    requires IsTimelyGame(cfg, planned, now, states, events)
    ensures (forall i :: 0 <= i < |states| ==> Kept(cfg, states[i])) <==> !TimerLost(cfg, states, events, |events|)
  {
    if TimerLost(cfg, states, events, |events|) {
      var i := LossShows(cfg, planned, now, states, events, |events|);
      assert !Kept(cfg, states[i]);
    } else {
      forall i | 0 <= i < |states| ensures Kept(cfg, states[i]) {
        GameKeepsTimers(cfg, planned, now, states, events, i);
      }
    }
  }

  // The rows 0, 1, 2, ... put the teams on the first level, one row each.
  ghost predicate Placed(table: Table, teams: seq<nat>, at: int) {
    && table.nextId == |teams|
    && (forall id: nat :: id in table.lts ==> id < |teams|)
    && (forall t :: t in table.path ==> t in teams)
    && forall i: nat :: i < |teams| ==>
         && i in table.lts && table.lts[i] == LevelTime(teams[i], 0, at)
         && teams[i] in table.path && table.path[teams[i]] == [i]
  }

  lemma PlacedGrows(table: Table, teams: seq<nat>, team: nat, at: int)
    requires Placed(table, teams, at) && team !in teams
    ensures Placed(SetToLevel(table, team, 0, at), teams + [team], at)
  {
    assert team !in table.path;
  }

  lemma {:induction false} StartRows(cfg: Config, st: State, teams: seq<nat>, at: int)
    requires ValidConfig(cfg) && st.table == Table(map[], map[], 0) && NoRepeats(teams)
    ensures Placed(StartTeams(cfg, st, teams, at).table, teams, at)
  {
    if teams != [] {
      var before, last := teams[..|teams| - 1], teams[|teams| - 1];
      LastIsNew(teams);
      StartRows(cfg, st, before, at);
      PlacedGrows(StartTeams(cfg, st, before, at).table, before, last, at);
      assert before + [last] == teams;
    }
  }

  lemma PlacedCurrent(table: Table, teams: seq<nat>, at: int, i: nat)
    requires Placed(table, teams, at) && i < |teams|
    ensures Rows(table) && teams[i] in table.path && Current(table, teams[i]) == i
    ensures table.lts[i] == LevelTime(teams[i], 0, at)
  {
    forall t | t in table.path ensures exists k: nat :: k < |teams| && table.path[t] == [k] && k in table.lts {
      var k :| 0 <= k < |teams| && teams[k] == t;
    }
    assert CurrentOf(table.lts, table.path[teams[i]]) == i;
  }

  lemma StartCurrent(cfg: Config, planned: Option<int>, now: int, i: nat)
    requires ValidConfig(cfg) && i < |cfg.teams|
    ensures var table := StartedGame(cfg, planned, now).table;
            && Rows(table) && cfg.teams[i] in table.path && Current(table, cfg.teams[i]) == i
            && table.lts[i] == LevelTime(cfg.teams[i], 0, SnapToPlannedStart(planned, now))
  {
    StartRows(cfg, BeforeStart(now), cfg.teams, SnapToPlannedStart(planned, now));
    PlacedCurrent(StartedGame(cfg, planned, now).table, cfg.teams, SnapToPlannedStart(planned, now), i);
  }

  // The game starts with every team on the first level at the recorded start, its puzzle shown, and its first
  // hint and all its timers pending.
  lemma GameStarts(cfg: Config, planned: Option<int>, now: int, i: nat)
    requires ValidConfig(cfg) && i < |cfg.teams|
    ensures var st, at := StartedGame(cfg, planned, now), SnapToPlannedStart(planned, now);
            && Rows(st.table) && cfg.teams[i] in st.table.path && Current(st.table, cfg.teams[i]) == i
            && st.table.lts[i] == LevelTime(cfg.teams[i], 0, at)
            && HintsShown(st.hints.shown, i) == [0]
            && PendingExactly(cfg, st, i)
            && AllTimersKept(cfg, st)
  {
    StartCurrent(cfg, planned, now, i);
    StartChainOf(cfg, planned, now, i);
    StartKept(cfg, planned, now);
  }

  lemma StartChainOf(cfg: Config, planned: Option<int>, now: int, i: nat)
    requires ValidConfig(cfg) && i < |cfg.teams|
    ensures var st := StartedGame(cfg, planned, now);
            i in st.table.lts && HintsShown(st.hints.shown, i) == [0] && PendingExactly(cfg, st, i)
  {
    StartCurrent(cfg, planned, now, i);
    StartEstablishesInv(cfg, planned, now);
    InvHoldsChain(cfg, SnapToPlannedStart(planned, now), StartedGame(cfg, planned, now));
    assert ValidLevel(cfg.levels[0]);
    StartShowsPuzzleOnce(cfg, planned, now, i);
  }

  // ----- Games in which a timer is lost -----

  lemma {:induction false} StartNotesNothing(cfg: Config, st: State, teams: seq<nat>, at: int)
    requires ValidConfig(cfg) && st.events == []
    ensures StartTeams(cfg, st, teams, at).events == []
  {
    if teams != [] { StartNotesNothing(cfg, st, teams[..|teams| - 1], at); }
  }

  // The first team got to the level at this instant, and no timer was applied to anybody so far.
  ghost predicate OnLevel(cfg: Config, st: State, level: nat, at: int)
    requires ValidConfig(cfg)
  {
    var team := cfg.teams[0];
    && Base(cfg, st) && team in st.table.path && st.events == [] && st.clock == at
    && st.table.lts[Current(st.table, team)] == LevelTime(team, level, at)
  }

  lemma StartOnLevel(cfg: Config, at: int)
    requires ValidConfig(cfg)
    ensures OnLevel(cfg, StartedGame(cfg, Some(at), at), 0, at)
  {
    StartEstablishesBase(cfg, Some(at), at);
    StartNotesNothing(cfg, BeforeStart(at), cfg.teams, at);
    StartCurrent(cfg, Some(at), at, 0);
  }

  lemma KeyMovesUp(cfg: Config, st: State, level: nat, at: int)
    requires ValidConfig(cfg) && OnLevel(cfg, st, level, at) && level < |cfg.levels|
    ensures var key := Key(at, cfg.teams[0], true, None);
            CanStep(cfg, st, key) && Step(cfg, st, key) == LeveledUp(cfg, st, cfg.teams[0], level + 1, at)
  {
    assert st.(clock := at) == st;
  }

  // A key takes the team to the next level.
  lemma KeyUp(cfg: Config, st: State, level: nat, at: int)
    requires ValidConfig(cfg) && OnLevel(cfg, st, level, at) && level + 1 < |cfg.levels|
    ensures var key := Key(at, cfg.teams[0], true, None);
            CanStep(cfg, st, key) && OnLevel(cfg, Step(cfg, st, key), level + 1, at)
  {
    KeyMovesUp(cfg, st, level, at);
    StepKeepsBase(cfg, st, Key(at, cfg.teams[0], true, None));
    LeveledUpOnLevel(cfg, st, level, at);
  }

  lemma LeveledUpOnLevel(cfg: Config, st: State, level: nat, at: int)
    requires ValidConfig(cfg) && OnLevel(cfg, st, level, at)
    requires Base(cfg, LeveledUp(cfg, st, cfg.teams[0], level + 1, at))
    ensures OnLevel(cfg, LeveledUp(cfg, st, cfg.teams[0], level + 1, at), level + 1, at)
  {
    var table := SetToLevel(st.table, cfg.teams[0], level + 1, at);
    LeveledUpTable(cfg, st, cfg.teams[0], level + 1, at);
    CurrentAfterMove(cfg, st.table, cfg.teams[0], level + 1, at);
    assert table.lts[st.table.nextId] == LevelTime(cfg.teams[0], level + 1, at);
    LeveledUpRest(cfg, st, cfg.teams[0], level + 1, at);
  }

  lemma LeveledUpRest(cfg: Config, st: State, team: nat, level: nat, at: int)
    requires Playable(cfg, st.table)
    ensures LeveledUp(cfg, st, team, level, at).events == st.events
    ensures LeveledUp(cfg, st, team, level, at).clock == st.clock
  {
  }

  lemma RunAppends(cfg: Config, states: seq<State>, events: seq<Event>, ev: Event, after: State)
    requires IsRun(cfg, states, events) && Leads(cfg, states[|events|], ev, after)
    ensures IsRun(cfg, states + [after], events + [ev])
  {
    var longer, more := states + [after], events + [ev];
    forall k: nat | k < |more| ensures Linked(cfg, longer, more, k) {
      if k < |events| {
        assert Linked(cfg, states, events, k);
        assert longer[k] == states[k] && longer[k + 1] == states[k + 1] && more[k] == events[k];
      } else {
        assert longer[k] == states[k] && longer[k + 1] == after && more[k] == ev;
      }
    }
  }

  // Keys at the start of the game take a team to any level.
  lemma {:induction false} ReachLevel(cfg: Config, at: int, level: nat)
    returns (states: seq<State>, events: seq<Event>)
    requires ValidConfig(cfg) && level < |cfg.levels|
    ensures IsGame(cfg, Some(at), at, states, events) && |states| == level + 1
    ensures OnLevel(cfg, states[level], level, at)
    ensures forall ev :: ev in events ==> ev.Key? && ev.now == at
  {
    if level == 0 {
      states, events := [StartedGame(cfg, Some(at), at)], [];
      StartOnLevel(cfg, at);
    } else {
      var before, earlier := ReachLevel(cfg, at, level - 1);
      var key := Key(at, cfg.teams[0], true, None);
      KeyUp(cfg, before[level - 1], level - 1, at);
      var after := Step(cfg, before[level - 1], key);
      RunAppends(cfg, before, earlier, key, after);
      states, events := before + [after], earlier + [key];
    }
  }

  lemma LevelUpTimerDue(timers: seq<Timer>, timer: Timer, id: nat, elapsed: int)
    requires OneLevelUp(timers) && timer in timers && timer.levelUp && MINUTE * timer.actionTime <= elapsed
    ensures LevelUpTimer(DueTimers(timers, id, elapsed, [])) == Some(timer)
  {
    var due := DueTimers(timers, id, elapsed, []);
    DueTimersAre(timers, id, elapsed, []);
    LevelUpTimerIsOne(due);
    var one := LevelUpTimer(due).value;
    var i :| 0 <= i < |timers| && timers[i] == one;
    var j :| 0 <= j < |timers| && timers[j] == timer;
    assert !(i < j) && !(j < i);
  }

  lemma PendingSinceScheduled(cfg: Config, id: nat, lt: LevelTime, jobs: multiset<EventJob>, timer: Timer)
    requires !HasFinished(cfg, lt) && timer in cfg.levels[lt.level].timers
    requires TimersKept(cfg, id, lt, [], jobs)
    ensures JobOf(id, lt, timer) in jobs
  {
    var k :| 0 <= k < |cfg.levels[lt.level].timers| && cfg.levels[lt.level].timers[k] == timer;
    ScheduledAtItsTime(lt.team, id, lt.startAt, cfg.levels[lt.level].timers, k);
    assert TimerKept(cfg, id, lt, [], jobs, timer);
  }

  lemma JobIsLost(cfg: Config, st: State, level: nat, at: int, timer: Timer) returns (fires: Event)
    requires ValidConfig(cfg) && level < |cfg.levels| && OnLevel(cfg, st, level, at) && Kept(cfg, st)
    requires timer in cfg.levels[level].timers && timer.levelUp && NextLevel(cfg, level, timer.nextLevel).None?
    ensures fires.TimerFires? && CanStep(cfg, st, fires) && LosesTimer(cfg, st, fires)
  {
    var team := cfg.teams[0];
    var id := Current(st.table, team);
    var lt := st.table.lts[id];
    assert ValidLevel(cfg.levels[level]);
    assert TimersKept(cfg, id, lt, st.events, st.eventJobs);
    PendingSinceScheduled(cfg, id, lt, st.eventJobs, timer);
    var job := JobOf(id, lt, timer);
    fires := TimerFires(job.runAt, job);
    LevelUpTimerDue(cfg.levels[level].timers, timer, id, job.runAt - at);
    assert JobOf(id, lt, timer) == job && Applied(id, timer.effectsId) !in st.events;
  }

  lemma NotEarly(cfg: Config, at: int, states: seq<State>, events: seq<Event>)
    requires |states| == |events| + 1 && forall ev :: ev in events && ev.Key? ==> ev.now >= at
    ensures !MovedEarly(cfg, at, states, events, |events|)
  {
  }

  // A timer that moves teams on and leads to a level nobody knows is lost in some game: it is never applied, its
  // job is spent, and with it what else it was to do.
  lemma UnknownNameLosesTimer(cfg: Config, at: int, level: nat, timer: Timer)
    returns (states: seq<State>, events: seq<Event>)
    requires ValidConfig(cfg) && level < |cfg.levels| && timer in cfg.levels[level].timers && timer.levelUp
    requires NextLevel(cfg, level, timer.nextLevel).None?
    ensures IsTimelyGame(cfg, Some(at), at, states, events) && |states| == level + 2 && !Kept(cfg, states[level + 1])
  {
    var before, earlier := ReachLevel(cfg, at, level);
    NotEarly(cfg, at, before, earlier);
    GameKeepsTimers(cfg, Some(at), at, before, earlier, level);
    var fires := JobIsLost(cfg, before[level], level, at, timer);
    var after := Step(cfg, before[level], fires);
    RunAppends(cfg, before, earlier, fires, after);
    states, events := before + [after], earlier + [fires];
    NotEarly(cfg, at, states, events);
    GameStepKeepsTimersIff(cfg, Some(at), at, states, events, level);
  }

  // Every timer that moves teams on leads to a level there is.
  ghost predicate TimersLeadSomewhere(cfg: Config) {
    forall level: nat, timer {:trigger NextLevel(cfg, level, timer.nextLevel)} ::
      level < |cfg.levels| && timer in cfg.levels[level].timers && timer.levelUp ==>
        NextLevel(cfg, level, timer.nextLevel).Some?
  }

  ghost predicate TimersAlwaysKept(cfg: Config) {
    forall planned: Option<int>, now: int, states: seq<State>, events: seq<Event>, i: nat ::
      IsTimelyGame(cfg, planned, now, states, events) && i < |states| ==> Kept(cfg, states[i])
  }

  lemma NothingIsLost(cfg: Config, st: State, ev: Event)
    requires ValidConfig(cfg) && TimersLeadSomewhere(cfg)
    ensures !LosesTimer(cfg, st, ev)
  {
    if LosesTimer(cfg, st, ev) {
      var id := Current(st.table, ev.timerJob.team);
      var lt := st.table.lts[id];
      LevelUpTimerIsOne(DueNow(cfg, st, id, ev.now));
      DueTimersAre(cfg.levels[lt.level].timers, id, ev.now - lt.startAt, st.events);
    }
  }

  // Timers are kept in all games without early moves exactly when every timer that moves teams on leads to a
  // level there is.
  lemma TimersAlwaysKeptIff(cfg: Config)
    requires ValidConfig(cfg)
    ensures TimersAlwaysKept(cfg) <==> TimersLeadSomewhere(cfg)
  {
    if TimersLeadSomewhere(cfg) {
      forall planned: Option<int>, now: int, states: seq<State>, events: seq<Event>, i: nat
        | IsTimelyGame(cfg, planned, now, states, events) && i < |states|
        ensures Kept(cfg, states[i])
      {
        forall k | 0 <= k < |events| ensures !LosesTimer(cfg, states[k], events[k]) {
          NothingIsLost(cfg, states[k], events[k]);
        }
        GameKeepsTimers(cfg, planned, now, states, events, i);
      }
    } else {
      var level: nat, timer :| level < |cfg.levels| && timer in cfg.levels[level].timers && timer.levelUp
                               && NextLevel(cfg, level, timer.nextLevel).None?;
      var states, events := UnknownNameLosesTimer(cfg, 0, level, timer);
      assert !Kept(cfg, states[level + 1]);
    }
  }
}
