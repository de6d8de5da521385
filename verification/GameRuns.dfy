// What every game keeps, whatever its keys, timers and hints do: whose rows and jobs there are, the level
// numbers, the one end of the game.
module GameRuns {
  import opened Common
  import opened GamePlay

  // ----- Steps and runs -----

  datatype Event =
    | Key(now: int, team: nat, levelUp: bool, nextLevel: Option<string>)
    | TimerFires(now: int, timerJob: EventJob)
    | HintFires(now: int, hintJob: HintJob)

  // The clock never goes back, and a job fires once, at its time or later. The conditions on the rows a
  // job points at always hold of pending jobs (`PendingJobsCanFire`).
  ghost predicate CanStep(cfg: Config, st: State, ev: Event) {
    && Playable(cfg, st.table) && st.clock <= ev.now
    && match ev
       case Key(_, _, _, _) => true
       case TimerFires(now, job) => job in st.eventJobs && job.runAt <= now && job.team in cfg.teams
       case HintFires(now, job) =>
         && job in st.hints.jobs && job.runAt <= now && job.team in st.table.path
         && job.level < |cfg.levels| && job.hint < |cfg.levels[job.level].hints|
  }

  ghost function Step(cfg: Config, st: State, ev: Event): State
    requires CanStep(cfg, st, ev)
  {
    var now := st.(clock := ev.now);
    match ev
    case Key(at, team, levelUp, nextLevel) => AfterKey(cfg, now, team, levelUp, nextLevel, at)
    case TimerFires(at, job) => AfterTimer(cfg, now, job, at)
    case HintFires(_, job) => AfterHint(cfg, now, job)
  }

  ghost predicate Leads(cfg: Config, before: State, ev: Event, after: State) {
    CanStep(cfg, before, ev) && after == Step(cfg, before, ev)
  }

  ghost predicate Linked(cfg: Config, states: seq<State>, events: seq<Event>, k: nat)
    requires |states| == |events| + 1 && k < |events|
  {
    Leads(cfg, states[k], events[k], states[k + 1])
  }

  ghost predicate IsRun(cfg: Config, states: seq<State>, events: seq<Event>) {
    && |states| == |events| + 1
    && forall k: nat {:trigger Linked(cfg, states, events, k)} :: k < |events| ==> Linked(cfg, states, events, k)
  }

  ghost predicate IsGame(cfg: Config, planned: Option<int>, now: int, states: seq<State>, events: seq<Event>) {
    && ValidConfig(cfg) && NeedStartNow(planned, now)
    && IsRun(cfg, states, events) && states[0] == StartedGame(cfg, planned, now)
  }

  // ----- Rows -----

  ghost predicate RowOk(cfg: Config, table: Table, id: nat)
    requires id in table.lts
  {
    && id < table.nextId && table.lts[id].team in table.path
    && (NamesInRange(cfg) ==> table.lts[id].level <= |cfg.levels|)
  }

  ghost predicate Owned(cfg: Config, table: Table) {
    && Rows(table)
    && forall id {:trigger RowOk(cfg, table, id)} :: id in table.lts ==> RowOk(cfg, table, id)
  }

  lemma MoveKeepsOwned(cfg: Config, table: Table, team: nat, level: nat, at: int)
    requires Owned(cfg, table) && (NamesInRange(cfg) ==> level <= |cfg.levels|)
    ensures Owned(cfg, SetToLevel(table, team, level, at)) && table.nextId !in table.lts
  {
    var moved := SetToLevel(table, team, level, at);
    assert table.nextId !in table.lts by { assert table.nextId in table.lts ==> RowOk(cfg, table, table.nextId); }
    forall id | id in moved.lts ensures RowOk(cfg, moved, id) {
      if id != table.nextId { assert RowOk(cfg, table, id); }
    }
  }

  lemma {:induction false} SameRowsSameCurrent(lts: map<nat, LevelTime>, lts': map<nat, LevelTime>, path: seq<nat>)
    requires path != []
    requires forall i :: 0 <= i < |path| ==> path[i] in lts && path[i] in lts' && lts[path[i]] == lts'[path[i]]
    ensures CurrentOf(lts, path) == CurrentOf(lts', path)
  {
    if |path| > 1 { SameRowsSameCurrent(lts, lts', path[..|path| - 1]); }
  }

  // A team is on the level it was moved to unless the move is dated before its current level started; then
  // it stays where it was.
  lemma CurrentAfterMove(cfg: Config, table: Table, team: nat, level: nat, at: int)
    requires Owned(cfg, table)
    ensures Rows(SetToLevel(table, team, level, at))
    ensures Current(SetToLevel(table, team, level, at), team) ==
              if team in table.path && at < table.lts[Current(table, team)].startAt then Current(table, team)
              else table.nextId
  {
    var moved := SetToLevel(table, team, level, at);
    SetToLevelKeepsRows(cfg, table, team, level, at);
    if team in table.path {
      assert table.nextId !in table.lts by { assert table.nextId in table.lts ==> RowOk(cfg, table, table.nextId); }
      var path := moved.path[team];
      assert path[..|path| - 1] == table.path[team];
      SameRowsSameCurrent(table.lts, moved.lts, table.path[team]);
    }
  }

  lemma OthersStay(cfg: Config, table: Table, team: nat, level: nat, at: int)
    requires Owned(cfg, table)
    ensures Rows(SetToLevel(table, team, level, at))
    ensures forall t :: t in table.path && t != team ==>
              && Current(SetToLevel(table, team, level, at), t) == Current(table, t) != table.nextId
              && TeamFinished(cfg, SetToLevel(table, team, level, at), t) == TeamFinished(cfg, table, t)
  {
    var moved := SetToLevel(table, team, level, at);
    SetToLevelKeepsRows(cfg, table, team, level, at);
    assert table.nextId !in table.lts by { assert table.nextId in table.lts ==> RowOk(cfg, table, table.nextId); }
    forall t | t in table.path && t != team ensures Current(moved, t) == Current(table, t) {
      SameRowsSameCurrent(table.lts, moved.lts, table.path[t]);
    }
  }

  // ----- Jobs and applied effects -----

  ghost predicate EventJobsOk(lts: map<nat, LevelTime>, jobs: multiset<EventJob>) {
    forall job :: job in jobs ==> job.ltId in lts && job.team == lts[job.ltId].team
  }

  predicate HintJobOk(cfg: Config, path: map<nat, seq<nat>>, job: HintJob) {
    job.team in path && job.level < |cfg.levels| && job.hint < |cfg.levels[job.level].hints|
  }

  ghost predicate HintJobsOk(cfg: Config, path: map<nat, seq<nat>>, jobs: multiset<HintJob>) {
    forall job {:trigger HintJobOk(cfg, path, job)} :: job in jobs ==> HintJobOk(cfg, path, job)
  }

  ghost predicate NoRepeats<T>(s: seq<T>) {
    forall i, j :: 0 <= i < j < |s| ==> s[i] != s[j]
  }

  lemma NoRepeatsConcat<T>(a: seq<T>, b: seq<T>)
    requires NoRepeats(a) && NoRepeats(b) && forall x :: x in a ==> x !in b
    ensures NoRepeats(a + b)
  {
    forall i, j | 0 <= i < j < |a + b| ensures (a + b)[i] != (a + b)[j] {
      if i < |a| <= j { assert a[i] in a && b[j - |a|] in b; }
    }
  }

  lemma {:induction false} TimerJobsOwn(team: nat, ltId: nat, startAt: int, timers: seq<Timer>)
    ensures forall job :: job in TimerJobs(team, ltId, startAt, timers) ==> job.team == team && job.ltId == ltId
  {
    if timers != [] { TimerJobsOwn(team, ltId, startAt, timers[..|timers| - 1]); }
  }

  // Exactly the timers whose time has come and whose effects were not applied to this level time.
  lemma {:induction false} DueTimersAre(timers: seq<Timer>, ltId: nat, elapsed: int, events: seq<Applied>)
    ensures forall t :: t in DueTimers(timers, ltId, elapsed, events) <==>
              t in timers && MINUTE * t.actionTime <= elapsed && Applied(ltId, t.effectsId) !in events
  {
    if timers != [] {
      DueTimersAre(timers[..|timers| - 1], ltId, elapsed, events);
      assert timers == timers[..|timers| - 1] + [timers[|timers| - 1]];
    }
  }

  lemma {:induction false} DueDistinct(timers: seq<Timer>, ltId: nat, elapsed: int, events: seq<Applied>)
    requires DistinctEffects(timers)
    ensures NoRepeats(AppliedOf(ltId, DueTimers(timers, ltId, elapsed, events)))
  {
    if timers != [] {
      var before, last := DueTimers(timers[..|timers| - 1], ltId, elapsed, events), timers[|timers| - 1];
      DueDistinct(timers[..|timers| - 1], ltId, elapsed, events);
      DueTimersAre(timers[..|timers| - 1], ltId, elapsed, events);
      forall x | x in AppliedOf(ltId, before) ensures x != Applied(ltId, last.effectsId) {
        var i :| 0 <= i < |before| && x == Applied(ltId, before[i].effectsId);
        assert before[i] in before;
        var k :| 0 <= k < |timers| - 1 && timers[k] == before[i];
      }
      NoRepeatsConcat(AppliedOf(ltId, before), [Applied(ltId, last.effectsId)]);
      assert AppliedOf(ltId, before + [last]) == AppliedOf(ltId, before) + [Applied(ltId, last.effectsId)];
    }
  }

  // No effect of a timer is applied twice to one level time.
  lemma DueAppliedOnce(events: seq<Applied>, timers: seq<Timer>, ltId: nat, elapsed: int)
    requires NoRepeats(events)
    requires DistinctEffects(timers)
    ensures NoRepeats(events + AppliedOf(ltId, DueTimers(timers, ltId, elapsed, events)))
  {
    var due := DueTimers(timers, ltId, elapsed, events);
    DueDistinct(timers, ltId, elapsed, events);
    DueTimersAre(timers, ltId, elapsed, events);
    forall x | x in AppliedOf(ltId, due) ensures x !in events {
      var i :| 0 <= i < |due| && x == Applied(ltId, due[i].effectsId);
      assert due[i] in due;
    }
    NoRepeatsConcat(events, AppliedOf(ltId, due));
  }

  // ----- What holds in every state -----

  ghost predicate AllTeams(cfg: Config, table: Table) {
    forall t :: t in table.path <==> t in cfg.teams
  }

  ghost predicate FinishedOnce(cfg: Config, table: Table, finished: nat)
    requires Rows(table) && Started(cfg, table)
  {
    finished == if AllFinished(cfg, table) then 1 else 0
  }

  ghost predicate Sound(cfg: Config, st: State) {
    && Owned(cfg, st.table)
    && HintJobsOk(cfg, st.table.path, st.hints.jobs)
    && EventJobsOk(st.table.lts, st.eventJobs)
    && NoRepeats(st.events)
  }

  ghost predicate Base(cfg: Config, st: State) {
    Sound(cfg, st) && AllTeams(cfg, st.table) && FinishedOnce(cfg, st.table, st.finished)
  }

  lemma MoveKeepsSound(cfg: Config, st: State, team: nat, level: nat, at: int)
    requires Sound(cfg, st) && (NamesInRange(cfg) ==> level <= |cfg.levels|)
    ensures Sound(cfg, st.(table := SetToLevel(st.table, team, level, at)))
  {
    MoveKeepsOwned(cfg, st.table, team, level, at);
    var moved := SetToLevel(st.table, team, level, at);
    forall job | job in st.hints.jobs ensures HintJobOk(cfg, moved.path, job) {
      assert HintJobOk(cfg, st.table.path, job);
    }
  }

  lemma EnterKeepsSound(cfg: Config, st: State, id: nat)
    requires ValidConfig(cfg) && Sound(cfg, st) && id in st.table.lts && !HasFinished(cfg, st.table.lts[id])
    ensures Sound(cfg, Entered(cfg, st, id))
  {
    var lt := st.table.lts[id];
    assert ValidLevel(cfg.levels[lt.level]) && RowOk(cfg, st.table, id);
    TimerJobsOwn(lt.team, id, lt.startAt, cfg.levels[lt.level].timers);
    var jobs := Entered(cfg, st, id).hints.jobs;
    forall job | job in jobs ensures HintJobOk(cfg, st.table.path, job) {
      if job in st.hints.jobs { assert HintJobOk(cfg, st.table.path, job); }
    }
  }

  // Who is done after a move: the moved team if it is on the finish now, and whoever was done before.
  lemma MoveDone(cfg: Config, table: Table, team: nat, level: nat, at: int)
    requires Owned(cfg, table) && Started(cfg, table) && AllTeams(cfg, table)
    requires team in cfg.teams && !TeamFinished(cfg, table, team)
    ensures var moved := SetToLevel(table, team, level, at);
            && Rows(moved) && Started(cfg, moved) && AllTeams(cfg, moved)
            && (AllFinished(cfg, moved) <==>
                  && TeamFinished(cfg, moved, team)
                  && forall t :: t in cfg.teams && t != team ==> TeamFinished(cfg, table, t))
  {
    SetToLevelKeepsRows(cfg, table, team, level, at);
    OthersStay(cfg, table, team, level, at);
  }

  // A level-up: the end of the game is logged when the team was the last one to be done, and only then.
  lemma LevelUpKeepsBase(cfg: Config, st: State, team: nat, level: nat, at: int)
    requires ValidConfig(cfg) && Base(cfg, st) && team in cfg.teams && !TeamFinished(cfg, st.table, team)
    requires NamesInRange(cfg) ==> level <= |cfg.levels|
    ensures Base(cfg, LeveledUp(cfg, st, team, level, at))
  {
    assert st.finished == 0;
    var moved := st.(table := SetToLevel(st.table, team, level, at));
    MoveKeepsSound(cfg, st, team, level, at);
    MoveDone(cfg, st.table, team, level, at);
    if !TeamFinished(cfg, moved.table, team) {
      EnterKeepsSound(cfg, moved, Current(moved.table, team));
    }
  }

  lemma NextLevelInRange(cfg: Config, number: nat, name: Option<string>)
    requires number < |cfg.levels| && NextLevel(cfg, number, name).Some? && NamesInRange(cfg)
    ensures NextLevel(cfg, number, name).value <= |cfg.levels|
  {
  }

  // Whether a key moves its team: it levels up, its team is on a level, and the next level is found.
  predicate MovesTeam(cfg: Config, table: Table, team: nat, levelUp: bool, nextLevel: Option<string>)
    requires Playable(cfg, table)
  {
    && team in cfg.teams && levelUp && !TeamFinished(cfg, table, team)
    && NextLevel(cfg, table.lts[Current(table, team)].level, nextLevel).Some?
  }

  lemma KeyKeepsBase(cfg: Config, st: State, team: nat, levelUp: bool, nextLevel: Option<string>, now: int)
    requires ValidConfig(cfg) && Base(cfg, st)
    ensures Base(cfg, AfterKey(cfg, st, team, levelUp, nextLevel, now))
  {
    if MovesTeam(cfg, st.table, team, levelUp, nextLevel) {
      var number := st.table.lts[Current(st.table, team)].level;
      var next := NextLevel(cfg, number, nextLevel);
      if NamesInRange(cfg) { NextLevelInRange(cfg, number, nextLevel); }
      LevelUpKeepsBase(cfg, st, team, next.value, now);
      assert AfterKey(cfg, st, team, levelUp, nextLevel, now) == LeveledUp(cfg, st, team, next.value, now);
    } else {
      assert AfterKey(cfg, st, team, levelUp, nextLevel, now) == st;
    }
  }

  lemma NotesKeepBase(cfg: Config, st: State, events: seq<Applied>, jobs: multiset<EventJob>)
    requires Base(cfg, st) && NoRepeats(events) && jobs <= st.eventJobs
    ensures Base(cfg, st.(events := events, eventJobs := jobs))
  {
    forall job | job in jobs ensures job in st.eventJobs {}
  }

  lemma TimersKeepBase(cfg: Config, st: State, team: nat, id: nat, due: seq<Timer>, now: int)
    requires ValidConfig(cfg) && Base(cfg, st) && team in cfg.teams
    requires id == Current(st.table, team) && !TeamFinished(cfg, st.table, team)
    requires NoRepeats(st.events + AppliedOf(id, due))
    ensures Base(cfg, TimersApplied(cfg, st, team, id, due, now))
  {
    var lt := st.table.lts[id];
    var told := st.(events := st.events + AppliedOf(id, due), eventJobs := st.eventJobs);
    var timer := LevelUpTimer(due);
    NotesKeepBase(cfg, st, st.events + AppliedOf(id, due), st.eventJobs);
    if timer.Some? {
      var next := NextLevel(cfg, lt.level, timer.value.nextLevel);
      if next.Some? {
        if NamesInRange(cfg) { NextLevelInRange(cfg, lt.level, timer.value.nextLevel); }
        LevelUpKeepsBase(cfg, told, team, next.value, TimerLevelUpTime(timer.value.actionTime, lt.startAt, now));
      }
    }
  }

  lemma DueNotes(cfg: Config, events: seq<Applied>, level: nat, id: nat, elapsed: int)
    requires ValidConfig(cfg) && NoRepeats(events) && level < |cfg.levels|
    ensures NoRepeats(events + AppliedOf(id, DueTimers(cfg.levels[level].timers, id, elapsed, events)))
  {
    assert ValidLevel(cfg.levels[level]);
    DueAppliedOnce(events, cfg.levels[level].timers, id, elapsed);
  }

  lemma CurrentTimerApplies(cfg: Config, st: State, job: EventJob, now: int)
    requires Playable(cfg, st.table) && job.team in cfg.teams
    requires Current(st.table, job.team) == job.ltId && !HasFinished(cfg, st.table.lts[job.ltId])
    ensures AfterTimer(cfg, st, job, now) ==
              TimersApplied(cfg, Fired(st, job), job.team, job.ltId, DueNow(cfg, st, job.ltId, now), now)
  {
  }

  lemma TimerKeepsBase(cfg: Config, st: State, job: EventJob, now: int)
    requires ValidConfig(cfg) && Base(cfg, st) && job.team in cfg.teams
    ensures Base(cfg, AfterTimer(cfg, st, job, now))
  {
    NotesKeepBase(cfg, st, st.events, st.eventJobs - multiset{job});
    assert Fired(st, job) == st.(events := st.events, eventJobs := st.eventJobs - multiset{job});
    var id := Current(st.table, job.team);
    var lt := st.table.lts[id];
    if HasFinished(cfg, lt) || id != job.ltId {
      assert AfterTimer(cfg, st, job, now) == Fired(st, job);
    } else {
      DueNotes(cfg, st.events, lt.level, id, now - lt.startAt);
      CurrentTimerApplies(cfg, st, job, now);
      TimersKeepBase(cfg, Fired(st, job), job.team, id, DueNow(cfg, st, id, now), now);
    }
  }

  lemma HintKeepsBase(cfg: Config, st: State, job: HintJob)
    requires ValidConfig(cfg) && Base(cfg, st) && HintJobOk(cfg, st.table.path, job)
    ensures Base(cfg, AfterHint(cfg, st, job))
  {
    var jobs := AfterHint(cfg, st, job).hints.jobs;
    forall other | other in jobs ensures HintJobOk(cfg, st.table.path, other) {
      if other in st.hints.jobs { assert HintJobOk(cfg, st.table.path, other); }
    }
  }

  // Every pending job concerns a team, a level and a hint there are.
  lemma PendingJobsCanFire(cfg: Config, st: State)
    requires ValidConfig(cfg) && Base(cfg, st)
    ensures forall job :: job in st.eventJobs ==> job.team in cfg.teams
    ensures forall job :: job in st.hints.jobs ==> HintJobOk(cfg, st.table.path, job)
  {
    forall job | job in st.eventJobs ensures job.team in cfg.teams { assert RowOk(cfg, st.table, job.ltId); }
  }

  lemma StepKeepsBase(cfg: Config, st: State, ev: Event)
    requires ValidConfig(cfg) && Base(cfg, st) && CanStep(cfg, st, ev)
    ensures Base(cfg, Step(cfg, st, ev))
  {
    var now := st.(clock := ev.now);
    assert Base(cfg, now);
    match ev
    case Key(at, team, levelUp, nextLevel) => KeyKeepsBase(cfg, now, team, levelUp, nextLevel, at);
    case TimerFires(at, job) => TimerKeepsBase(cfg, now, job, at);
    case HintFires(_, job) => HintKeepsBase(cfg, now, job);
  }

  // ----- The start -----

  ghost predicate NobodyDone(cfg: Config, table: Table)
    requires Rows(table)
  {
    forall t :: t in table.path ==> !TeamFinished(cfg, table, t)
  }

  // The state while the teams are being started: nobody is done yet.
  ghost predicate Starting(cfg: Config, st: State, teams: seq<nat>) {
    Sound(cfg, st) && st.finished == 0 && NobodyDone(cfg, st.table) && forall t :: t in st.table.path <==> t in teams
  }

  lemma StartTeamKeepsBase(cfg: Config, st: State, team: nat, at: int)
    requires ValidConfig(cfg) && Sound(cfg, st) && team !in st.table.path && NobodyDone(cfg, st.table)
    ensures var st' := StartTeam(cfg, st, team, at);
            && Sound(cfg, st') && st'.finished == st.finished && st'.clock == st.clock
            && st'.table.path.Keys == st.table.path.Keys + {team}
            && NobodyDone(cfg, st'.table)
  {
    MoveKeepsSound(cfg, st, team, 0, at);
    EnterKeepsSound(cfg, st.(table := SetToLevel(st.table, team, 0, at)), st.table.nextId);
    CurrentAfterMove(cfg, st.table, team, 0, at);
    OthersStay(cfg, st.table, team, 0, at);
  }

  lemma {:induction false} StartKeepsBase(cfg: Config, st: State, teams: seq<nat>, at: int)
    requires ValidConfig(cfg) && Starting(cfg, st, []) && NoRepeats(teams)
    ensures Starting(cfg, StartTeams(cfg, st, teams, at), teams)
    ensures StartTeams(cfg, st, teams, at).clock == st.clock
  {
    if teams != [] {
      var before, last := teams[..|teams| - 1], teams[|teams| - 1];
      StartKeepsBase(cfg, st, before, at);
      LastIsNew(teams);
      StartTeamKeepsBase(cfg, StartTeams(cfg, st, before, at), last, at);
    }
  }

  lemma LastIsNew(teams: seq<nat>)
    requires teams != [] && NoRepeats(teams)
    ensures NoRepeats(teams[..|teams| - 1]) && teams[|teams| - 1] !in teams[..|teams| - 1]
    ensures forall t :: t in teams <==> t in teams[..|teams| - 1] || t == teams[|teams| - 1]
  {
    assert teams == teams[..|teams| - 1] + [teams[|teams| - 1]];
  }

  lemma StartEstablishesBase(cfg: Config, planned: Option<int>, now: int)
    requires ValidConfig(cfg)
    ensures Base(cfg, StartedGame(cfg, planned, now)) && NobodyDone(cfg, StartedGame(cfg, planned, now).table)
    ensures StartedGame(cfg, planned, now).finished == 0 && StartedGame(cfg, planned, now).clock == now
  {
    assert Starting(cfg, BeforeStart(now), []);
    StartKeepsBase(cfg, BeforeStart(now), cfg.teams, SnapToPlannedStart(planned, now));
    assert cfg.teams[0] in cfg.teams;
  }

  lemma RunStepKeepsBase(cfg: Config, states: seq<State>, events: seq<Event>, k: nat)
    requires ValidConfig(cfg) && IsRun(cfg, states, events) && k < |events| && Base(cfg, states[k])
    ensures Base(cfg, states[k + 1])
  {
    assert Linked(cfg, states, events, k);
    StepKeepsBase(cfg, states[k], events[k]);
  }

  lemma {:induction false} GameKeepsBase(
    cfg: Config, planned: Option<int>, now: int, states: seq<State>, events: seq<Event>, i: nat)
    requires IsGame(cfg, planned, now, states, events) && i < |states|
    ensures Base(cfg, states[i])
  {
    if i == 0 {
      StartEstablishesBase(cfg, planned, now);
    } else {
      GameKeepsBase(cfg, planned, now, states, events, i - 1);
      RunStepKeepsBase(cfg, states, events, i - 1);
    }
  }

  // ----- Level numbers -----

  ghost predicate NumbersInRange(cfg: Config, table: Table) {
    forall id :: id in table.lts ==> table.lts[id].level <= |cfg.levels|
  }

  ghost predicate AlwaysInRange(cfg: Config) {
    forall planned: Option<int>, now: int, states: seq<State>, events: seq<Event>, i: nat ::
      IsGame(cfg, planned, now, states, events) && i < |states| ==> NumbersInRange(cfg, states[i].table)
  }

  // A key that leads, by the name of a level of another game, past the finish of this one.
  lemma NameLeadsPastFinish(cfg: Config, name: string, now: int) returns (states: seq<State>, events: seq<Event>)
    requires ValidConfig(cfg) && name in cfg.byName && cfg.byName[name] > |cfg.levels|
    ensures IsGame(cfg, Some(now), now, states, events) && |states| == 2
    ensures !NumbersInRange(cfg, states[1].table)
  {
    var team, start := cfg.teams[0], StartedGame(cfg, Some(now), now);
    var key := Key(now, team, true, Some(name));
    StartEstablishesBase(cfg, Some(now), now);
    assert team in start.table.path && !TeamFinished(cfg, start.table, team);
    events := [key];
    states := [start, Step(cfg, start, key)];
    LeveledUpTable(cfg, start, team, cfg.byName[name], now);
    assert Step(cfg, start, key).table == SetToLevel(start.table, team, cfg.byName[name], now);
    assert start.table.nextId in states[1].table.lts;
    assert Linked(cfg, states, events, 0);
  }

  // In all games all level numbers stay between the first level and the finish exactly when no name leads
  // past the finish. Names are looked up among all levels of the author, so one may.
  lemma NumbersInRangeIff(cfg: Config)
    requires ValidConfig(cfg)
    ensures AlwaysInRange(cfg) <==> NamesInRange(cfg)
  {
    if NamesInRange(cfg) {
      forall planned: Option<int>, now: int, states: seq<State>, events: seq<Event>, i: nat
        | IsGame(cfg, planned, now, states, events) && i < |states|
        ensures NumbersInRange(cfg, states[i].table)
      {
        GameKeepsBase(cfg, planned, now, states, events, i);
        forall id | id in states[i].table.lts ensures states[i].table.lts[id].level <= |cfg.levels| {
          assert RowOk(cfg, states[i].table, id);
        }
      }
    } else {
      var name :| name in cfg.byName && cfg.byName[name] > |cfg.levels|;
      var states, events := NameLeadsPastFinish(cfg, name, 0);
      assert !NumbersInRange(cfg, states[1].table);
    }
  }

  // No effect of a timer is applied twice to one level time, in any game.
  lemma EffectsAppliedOnce(cfg: Config, planned: Option<int>, now: int, states: seq<State>, events: seq<Event>, i: nat)
    requires IsGame(cfg, planned, now, states, events) && i < |states|
    ensures NoRepeats(states[i].events)
  {
    GameKeepsBase(cfg, planned, now, states, events, i);
  }

  // ----- Moves and the end -----

  lemma LeveledUpTable(cfg: Config, st: State, team: nat, level: nat, at: int)
    requires Playable(cfg, st.table)
    ensures LeveledUp(cfg, st, team, level, at).table == SetToLevel(st.table, team, level, at)
  {
  }

  // The table changed by moving one team that was not done.
  ghost predicate MovesOne(cfg: Config, before: Table, after: Table, team: nat, level: nat, at: int)
    requires Rows(before)
  {
    && team in cfg.teams && team in before.path && !TeamFinished(cfg, before, team)
    && after == SetToLevel(before, team, level, at)
  }

  lemma KeyMovesOne(cfg: Config, st: State, team: nat, levelUp: bool, nextLevel: Option<string>, now: int)
    returns (level: nat)
    requires Playable(cfg, st.table)
    ensures var after := AfterKey(cfg, st, team, levelUp, nextLevel, now).table;
            after == st.table || MovesOne(cfg, st.table, after, team, level, now)
  {
    level := 0;
    if team in cfg.teams && levelUp && !TeamFinished(cfg, st.table, team) {
      var next := NextLevel(cfg, st.table.lts[Current(st.table, team)].level, nextLevel);
      if next.Some? {
        level := next.value;
        LeveledUpTable(cfg, st, team, level, now);
      }
    }
  }

  lemma TimersMoveOne(cfg: Config, st: State, team: nat, id: nat, due: seq<Timer>, now: int)
    returns (level: nat, at: int)
    requires Playable(cfg, st.table) && team in cfg.teams && id in st.table.lts && !TeamFinished(cfg, st.table, team)
    ensures var after := TimersApplied(cfg, st, team, id, due, now).table;
            after == st.table || MovesOne(cfg, st.table, after, team, level, at)
  {
    level, at := 0, 0;
    var lt := st.table.lts[id];
    var timer := LevelUpTimer(due);
    if timer.Some? {
      var next := NextLevel(cfg, lt.level, timer.value.nextLevel);
      if next.Some? {
        level, at := next.value, TimerLevelUpTime(timer.value.actionTime, lt.startAt, now);
        LeveledUpTable(cfg, st.(events := st.events + AppliedOf(id, due)), team, level, at);
      }
    }
  }

  lemma TimerMovesOne(cfg: Config, st: State, job: EventJob, now: int) returns (level: nat, at: int)
    requires Playable(cfg, st.table) && job.team in cfg.teams
    ensures var after := AfterTimer(cfg, st, job, now).table;
            after == st.table || MovesOne(cfg, st.table, after, job.team, level, at)
  {
    level, at := 0, 0;
    if Current(st.table, job.team) == job.ltId && !HasFinished(cfg, st.table.lts[job.ltId]) {
      CurrentTimerApplies(cfg, st, job, now);
      level, at := TimersMoveOne(cfg, Fired(st, job), job.team, job.ltId, DueNow(cfg, st, job.ltId, now), now);
    }
  }

  // Where the level-up among due timers leads, and the time it is dated to: start plus action time.
  function TimedMove(cfg: Config, lt: LevelTime, due: seq<Timer>): Option<(nat, int)> {
    var timer := LevelUpTimer(due);
    if timer.None? then None
    else
      var next := NextLevel(cfg, lt.level, timer.value.nextLevel);
      if next.None? then None else Some((next.value, lt.startAt + MINUTE * timer.value.actionTime))
  }

  function Moved(table: Table, team: nat, move: Option<(nat, int)>): Table {
    if move.Some? then SetToLevel(table, team, move.value.0, move.value.1) else table
  }

  lemma DueMoveIsBackdated(cfg: Config, st: State, team: nat, id: nat, due: seq<Timer>, now: int)
    requires Playable(cfg, st.table) && id in st.table.lts
    requires forall t :: t in due ==> st.table.lts[id].startAt + MINUTE * t.actionTime <= now
    ensures TimersApplied(cfg, st, team, id, due, now).table
        == Moved(st.table, team, TimedMove(cfg, st.table.lts[id], due))
  {
    var move := TimedMove(cfg, st.table.lts[id], due);
    LevelUpTimerIsOne(due);
    if move.Some? {
      LeveledUpTable(cfg, st.(events := st.events + AppliedOf(id, due)), team, move.value.0, move.value.1);
    }
  }

  lemma DueNowIsPast(cfg: Config, st: State, id: nat, now: int)
    requires id in st.table.lts && st.table.lts[id].level < |cfg.levels|
    ensures forall t :: t in DueNow(cfg, st, id, now) ==> st.table.lts[id].startAt + MINUTE * t.actionTime <= now
  {
    var lt := st.table.lts[id];
    DueTimersAre(cfg.levels[lt.level].timers, id, now - lt.startAt, st.events);
  }

  // However late a timer fires, it moves the team exactly if a level-up is due and leads somewhere, and
  // dates the move to the timer's own time.
  lemma LateTimerBackdated(cfg: Config, st: State, job: EventJob, now: int)
    requires Playable(cfg, st.table) && job.team in cfg.teams
    requires Current(st.table, job.team) == job.ltId && !HasFinished(cfg, st.table.lts[job.ltId])
    ensures AfterTimer(cfg, st, job, now).table ==
              Moved(st.table, job.team, TimedMove(cfg, st.table.lts[job.ltId], DueNow(cfg, st, job.ltId, now)))
  {
    DueNowIsPast(cfg, st, job.ltId, now);
    CurrentTimerApplies(cfg, st, job, now);
    DueMoveIsBackdated(cfg, Fired(st, job), job.team, job.ltId, DueNow(cfg, st, job.ltId, now), now);
  }

  lemma {:induction false} LevelUpTimerIsOne(due: seq<Timer>)
    ensures LevelUpTimer(due).Some? ==> LevelUpTimer(due).value in due && LevelUpTimer(due).value.levelUp
    ensures LevelUpTimer(due).None? ==> forall timer :: timer in due ==> !timer.levelUp
  {
    if due != [] && !due[0].levelUp {
      LevelUpTimerIsOne(due[1..]);
      assert due == [due[0]] + due[1..];
    }
  }

  // A done team stays done, whatever happens.
  lemma DoneStaysDone(cfg: Config, st: State, ev: Event, team: nat)
    requires ValidConfig(cfg) && Base(cfg, st) && CanStep(cfg, st, ev)
    requires team in cfg.teams && TeamFinished(cfg, st.table, team)
    ensures Playable(cfg, Step(cfg, st, ev).table) && TeamFinished(cfg, Step(cfg, st, ev).table, team)
  {
    StepKeepsBase(cfg, st, ev);
    var now := st.(clock := ev.now);
    var after := Step(cfg, st, ev).table;
    var mover, level, at := team, 0, 0;
    match ev {
      case Key(_, key, levelUp, nextLevel) =>
        level := KeyMovesOne(cfg, now, key, levelUp, nextLevel, ev.now);
        mover, at := key, ev.now;
      case TimerFires(_, job) =>
        level, at := TimerMovesOne(cfg, now, job, ev.now);
        mover := job.team;
      case HintFires(_, job) =>
        assert after == st.table;
    }
    if after != st.table { OthersStay(cfg, st.table, mover, level, at); }
  }

  lemma EndStays(cfg: Config, st: State, ev: Event)
    requires ValidConfig(cfg) && Base(cfg, st) && CanStep(cfg, st, ev)
    requires AllFinished(cfg, st.table)
    ensures Playable(cfg, Step(cfg, st, ev).table) && AllFinished(cfg, Step(cfg, st, ev).table)
  {
    StepKeepsBase(cfg, st, ev);
    forall t | t in cfg.teams ensures TeamFinished(cfg, Step(cfg, st, ev).table, t) {
      assert TeamFinished(cfg, st.table, t);
      DoneStaysDone(cfg, st, ev, t);
    }
  }

  lemma EndStaysLogged(cfg: Config, st: State, ev: Event)
    requires ValidConfig(cfg) && Base(cfg, st) && CanStep(cfg, st, ev)
    ensures st.finished <= Step(cfg, st, ev).finished <= 1
  {
    StepKeepsBase(cfg, st, ev);
    if st.finished == 1 { EndStays(cfg, st, ev); }
  }

  lemma BaseLogsOnce(cfg: Config, st: State)
    requires Base(cfg, st)
    ensures st.finished <= 1
  {
  }

  lemma RunStepLogged(cfg: Config, states: seq<State>, events: seq<Event>, k: nat)
    requires ValidConfig(cfg) && IsRun(cfg, states, events) && k < |events| && Base(cfg, states[k])
    ensures states[k].finished <= states[k + 1].finished <= 1
  {
    assert Linked(cfg, states, events, k);
    EndStaysLogged(cfg, states[k], events[k]);
  }

  lemma {:induction false} EndNeverTakenBack(
    cfg: Config, planned: Option<int>, now: int, states: seq<State>, events: seq<Event>, i: nat, j: nat)
    requires IsGame(cfg, planned, now, states, events) && i <= j < |states|
    ensures states[i].finished <= states[j].finished <= 1
    decreases j
  {
    if i < j {
      EndNeverTakenBack(cfg, planned, now, states, events, i, j - 1);
      GameKeepsBase(cfg, planned, now, states, events, j - 1);
      RunStepLogged(cfg, states, events, j - 1);
    } else {
      GameKeepsBase(cfg, planned, now, states, events, j);
      BaseLogsOnce(cfg, states[j]);
    }
  }

  // The log has one end if all the teams of the game are done, else none.
  ghost predicate EndLogged(cfg: Config, st: State) {
    Playable(cfg, st.table) && st.finished == if AllFinished(cfg, st.table) then 1 else 0
  }

  // The end of the game is logged exactly when the last team is done, and at most once in the whole game.
  lemma EndLoggedOnce(
    cfg: Config, planned: Option<int>, now: int, states: seq<State>, events: seq<Event>, i: nat, j: nat)
    requires IsGame(cfg, planned, now, states, events) && i <= j < |states|
    ensures EndLogged(cfg, states[j])
    ensures states[0].finished == 0 && states[i].finished <= states[j].finished <= 1
  {
    StartEstablishesBase(cfg, planned, now);
    GameKeepsBase(cfg, planned, now, states, events, j);
    EndNeverTakenBack(cfg, planned, now, states, events, i, j);
  }
}
