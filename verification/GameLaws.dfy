// What the calls of the running game do, in terms of rows, jobs and minutes alone.
module GameLaws {
  import opened Common
  import opened GamePlay
  import opened GameRuns
  import opened GameChain
  import opened GameTimers

  // ----- The start -----

  // A game is started from less than a minute before its planned start to less than half an hour after it.
  lemma StartWindow(planned: Option<int>, now: int)
    ensures NeedStartNow(planned, now) <==> planned.Some? && -60 < now - planned.value < 1800
  {
  }

  // The recorded start is the planned one when that is at most two seconds away, else the clock.
  function RecordedStart(planned: Option<int>, now: int): int {
    if planned.Some? && -2 <= now - planned.value <= 2 then planned.value else now
  }

  // The hint jobs of a level time whose puzzle alone was shown: one for the first hint, if there is one.
  ghost predicate FirstHintPends(level: Level, hints: Hints, id: nat, lt: LevelTime) {
    if |level.hints| > 1 then
      var first := HintJob(lt.team, lt.level, 1, id, lt.startAt + 60 * level.hints[1]);
      hints.jobs[first] == 1 && forall job :: job in hints.jobs && job.ltId == id ==> job == first
    else
      forall job :: job in hints.jobs ==> job.ltId != id
  }

  lemma FirstIsNext(cfg: Config, st: State, id: nat)
    requires id in st.table.lts && st.table.lts[id].level < |cfg.levels|
    requires HintsShown(st.hints.shown, id) == [0] && PendingExactly(cfg, st, id)
    ensures FirstHintPends(cfg.levels[st.table.lts[id].level], st.hints, id, st.table.lts[id])
  {
  }

  ghost predicate TimersPend(level: Level, jobs: multiset<EventJob>, id: nat, lt: LevelTime) {
    forall timer :: timer in level.timers ==> EventJob(lt.team, id, lt.startAt + 60 * timer.actionTime) in jobs
  }

  lemma StartTimersPend(cfg: Config, planned: Option<int>, now: int, i: nat)
    requires ValidConfig(cfg) && i < |cfg.teams|
    ensures var st := StartedGame(cfg, planned, now);
            TimersPend(cfg.levels[0], st.eventJobs, i, LevelTime(cfg.teams[i], 0, SnapToPlannedStart(planned, now)))
  {
    var st, lt := StartedGame(cfg, planned, now), LevelTime(cfg.teams[i], 0, SnapToPlannedStart(planned, now));
    GameStarts(cfg, planned, now, i);
    StartNotesNothing(cfg, BeforeStart(now), cfg.teams, SnapToPlannedStart(planned, now));
    assert TimersKept(cfg, Current(st.table, cfg.teams[i]), lt, st.events, st.eventJobs);
    KeptPend(cfg, i, lt, st.eventJobs);
  }

  lemma KeptPend(cfg: Config, id: nat, lt: LevelTime, jobs: multiset<EventJob>)
    requires lt.level < |cfg.levels| && TimersKept(cfg, id, lt, [], jobs)
    ensures TimersPend(cfg.levels[lt.level], jobs, id, lt)
  {
    forall timer | timer in cfg.levels[lt.level].timers
      ensures EventJob(lt.team, id, lt.startAt + 60 * timer.actionTime) in jobs
    {
      PendingSinceScheduled(cfg, id, lt, jobs, timer);
    }
  }

  // What a started game leaves for one of its teams: the first level at the recorded start, the puzzle shown, one
  // job for the first hint if there is one, and a job for every timer.
  lemma StartLaw(cfg: Config, planned: Option<int>, now: int, i: nat)
    requires ValidConfig(cfg) && i < |cfg.teams|
    ensures var st := StartedGame(cfg, planned, now);
            var lt := LevelTime(cfg.teams[i], 0, RecordedStart(planned, now));
            && i in st.table.lts && st.table.lts[i] == lt
            && cfg.teams[i] in st.table.path && st.table.path[cfg.teams[i]] == [i]
            && HintsShown(st.hints.shown, i) == [0]
            && FirstHintPends(cfg.levels[0], st.hints, i, lt)
            && TimersPend(cfg.levels[0], st.eventJobs, i, lt)
  {
    GameStarts(cfg, planned, now, i);
    StartRows(cfg, BeforeStart(now), cfg.teams, SnapToPlannedStart(planned, now));
    FirstIsNext(cfg, StartedGame(cfg, planned, now), i);
    StartTimersPend(cfg, planned, now, i);
  }

  // ----- Hint jobs -----

  // The job is for a hint of the level of its level time and runs that hint's minutes after the level began.
  ghost predicate OnTime(cfg: Config, st: State, job: HintJob) {
    && job.ltId in st.table.lts
    && var lt := st.table.lts[job.ltId];
       && job.team == lt.team && job.level == lt.level < |cfg.levels|
       && 0 < job.hint < |cfg.levels[lt.level].hints|
       && job.runAt == lt.startAt + 60 * cfg.levels[lt.level].hints[job.hint]
  }

  lemma ChainIsOnTime(cfg: Config, start: int, st: State)
    requires Inv(cfg, start, st)
    ensures forall job :: job in st.hints.jobs ==> OnTime(cfg, st, job)
  {
    forall job | job in st.hints.jobs ensures OnTime(cfg, st, job) {
      assert JobOk(cfg, st.table.lts, st.hints, job);
      assert ShownOk(cfg, st.hints, job.ltId, st.table.lts[job.ltId]);
    }
  }

  // When hints of a level time remain, the next of them has one job, at its own minutes after the level began.
  ghost predicate NextOnTime(cfg: Config, st: State, id: nat)
    requires id in st.table.lts
  {
    var lt, n := st.table.lts[id], |HintsShown(st.hints.shown, id)|;
    lt.level < |cfg.levels| && n < |cfg.levels[lt.level].hints| ==>
      st.hints.jobs[HintJob(lt.team, lt.level, n, id, lt.startAt + 60 * cfg.levels[lt.level].hints[n])] == 1
  }

  lemma PendingIsOnTime(cfg: Config, st: State, id: nat)
    requires id in st.table.lts && PendingExactly(cfg, st, id)
    ensures NextOnTime(cfg, st, id)
  {
  }

  // In every state of a game up to the first early move every pending hint job runs its hint's own minutes after
  // its level began, and the next hint of a level a team is on has one such job.
  lemma HintJobsOnTime(cfg: Config, planned: Option<int>, now: int, states: seq<State>, events: seq<Event>, i: nat)
    requires IsGame(cfg, planned, now, states, events) && i < |states|
    requires !MovedEarly(cfg, SnapToPlannedStart(planned, now), states, events, i)
    ensures forall job :: job in states[i].hints.jobs ==> OnTime(cfg, states[i], job)
    ensures Rows(states[i].table)
    ensures forall t :: t in states[i].table.path ==> NextOnTime(cfg, states[i], Current(states[i].table, t))
  {
    var start, st := SnapToPlannedStart(planned, now), states[i];
    GameKeepsInv(cfg, planned, now, states, events, i);
    ChainIsOnTime(cfg, start, st);
    InvHoldsChain(cfg, start, st);
    forall t | t in st.table.path ensures NextOnTime(cfg, st, Current(st.table, t)) {
      PendingIsOnTime(cfg, st, Current(st.table, t));
    }
  }

  // A hint job that fires shows its hint, and leaves one job for the next hint, at its own minutes after the level
  // began; one of a level the team has left does nothing.
  lemma HintLaw(cfg: Config, st: State, job: HintJob, now: int)
    requires CanStep(cfg, st, HintFires(now, job))
    ensures var after, rest := Step(cfg, st, HintFires(now, job)), st.hints.jobs - multiset{job};
            var hints, lt := cfg.levels[job.level].hints, st.table.lts[Current(st.table, job.team)];
            after == st.(clock := now, hints :=
              if Current(st.table, job.team) != job.ltId then Hints(rest, st.hints.shown)
              else
                Hints(if job.hint + 1 < |hints| then
                        rest + multiset{HintJob(job.team, job.level, job.hint + 1, job.ltId,
                                                lt.startAt + 60 * hints[job.hint + 1])}
                      else rest,
                      st.hints.shown + [Shown(job.ltId, job.hint)]))
  {
  }

  // ----- Keys -----

  // Where a level-up leads: the next number, or the number of the level named.
  function Target(cfg: Config, number: nat, name: Option<string>): Option<nat> {
    if name.None? then Some(number + 1)
    else if name.value in cfg.byName then Some(cfg.byName[name.value])
    else None
  }

  // The table with one more row, for this team.
  predicate RowAdded(before: Table, after: Table, team: nat, level: nat, at: int) {
    && team in before.path
    && after.lts == before.lts[before.nextId := LevelTime(team, level, at)]
    && after.path == before.path[team := before.path[team] + [before.nextId]]
    && after.nextId == before.nextId + 1
  }

  // What a move to a level leaves: the puzzle of the new level is shown, and the move is all that changes about
  // the events noted.
  lemma MoveLaw(cfg: Config, st: State, team: nat, level: nat, at: int)
    requires Playable(cfg, st.table) && team in st.table.path
    ensures var after := LeveledUp(cfg, st, team, level, at);
            && RowAdded(st.table, after.table, team, level, at)
            && after.events == st.events && after.clock == st.clock
  {
  }

  // A key moves a team of the game that is on a level, when the verdict says so and leads to a level there is; it
  // does so at its own time. Every other key changes nothing but the clock.
  lemma KeyLaw(cfg: Config, st: State, now: int, team: nat, levelUp: bool, nextLevel: Option<string>)
    requires CanStep(cfg, st, Key(now, team, levelUp, nextLevel))
    ensures var after := Step(cfg, st, Key(now, team, levelUp, nextLevel));
            && after.clock == now && after.events == st.events
            && if team in cfg.teams && levelUp && st.table.lts[Current(st.table, team)].level < |cfg.levels|
                  && Target(cfg, st.table.lts[Current(st.table, team)].level, nextLevel).Some?
               then RowAdded(st.table, after.table, team,
                             Target(cfg, st.table.lts[Current(st.table, team)].level, nextLevel).value, now)
               else after == st.(clock := now)
  {
    var waiting := st.(clock := now);
    if team in cfg.teams && levelUp && st.table.lts[Current(st.table, team)].level < |cfg.levels| {
      var target := Target(cfg, st.table.lts[Current(st.table, team)].level, nextLevel);
      if target.Some? { MoveLaw(cfg, waiting, team, target.value, now); }
    }
  }

  // A team on its new level is shown the puzzle, and the first hint and the timers of the level are added to the
  // jobs; a team that is done is shown nothing.
  lemma EnterLaw(cfg: Config, st: State, team: nat, level: nat, at: int)
    requires Playable(cfg, st.table) && team in st.table.path
    ensures var after := LeveledUp(cfg, st, team, level, at);
            && Rows(after.table)
            && var id := Current(after.table, team);
               var lt := after.table.lts[id];
               if lt.level < |cfg.levels| then
                 var hints := cfg.levels[lt.level].hints;
                 && after.hints.shown == st.hints.shown + [Shown(id, 0)]
                 && after.hints.jobs == st.hints.jobs
                      + (if |hints| > 1 then multiset{HintJob(lt.team, lt.level, 1, id, lt.startAt + 60 * hints[1])}
                         else multiset{})
                 && after.finished == st.finished
                 && forall job {:trigger after.eventJobs[job]} ::
                      after.eventJobs[job] >= st.eventJobs[job]
                      && (job.ltId != id ==> after.eventJobs[job] == st.eventJobs[job])
               else
                 after.hints == st.hints && after.eventJobs == st.eventJobs
  {
    var after := LeveledUp(cfg, st, team, level, at);
    SetToLevelKeepsRows(cfg, st.table, team, level, at);
    var id := Current(after.table, team);
    var lt := after.table.lts[id];
    if lt.level < |cfg.levels| {
      assert ValidLevel(cfg.levels[lt.level]);
      TimerJobsOwn(lt.team, id, lt.startAt, cfg.levels[lt.level].timers);
    }
  }

  // ----- Timers -----

  // A timer of the level of this level time whose minutes have passed and whose effects were not noted for it.
  predicate TimerDue(cfg: Config, st: State, id: nat, timer: Timer, now: int) {
    && id in st.table.lts && st.table.lts[id].level < |cfg.levels|
    && timer in cfg.levels[st.table.lts[id].level].timers
    && st.table.lts[id].startAt + 60 * timer.actionTime <= now
    && Applied(id, timer.effectsId) !in st.events
  }

  lemma DueAreDue(cfg: Config, st: State, id: nat, now: int)
    requires id in st.table.lts && st.table.lts[id].level < |cfg.levels|
    ensures forall timer :: timer in DueNow(cfg, st, id, now) <==> TimerDue(cfg, st, id, timer, now)
  {
    DueTimersAre(cfg.levels[st.table.lts[id].level].timers, id, now - st.table.lts[id].startAt, st.events);
  }

  // The job is for the level its team is on.
  predicate IsCurrent(cfg: Config, st: State, job: EventJob)
    requires Playable(cfg, st.table) && job.team in cfg.teams
  {
    Current(st.table, job.team) == job.ltId && st.table.lts[job.ltId].level < |cfg.levels|
  }

  lemma NotedAre(id: nat, due: seq<Timer>)
    ensures forall e :: e in AppliedOf(id, due) <==> exists timer :: timer in due && e == Applied(id, timer.effectsId)
  {
    forall e ensures e in AppliedOf(id, due) <==> exists timer :: timer in due && e == Applied(id, timer.effectsId) {
      if e in AppliedOf(id, due) {
        var i :| 0 <= i < |due| && e == AppliedOf(id, due)[i];
        assert due[i] in due;
      }
      if timer :| timer in due && e == Applied(id, timer.effectsId) {
        var i :| 0 <= i < |due| && due[i] == timer;
        assert AppliedOf(id, due)[i] == e;
      }
    }
  }

  // A job of a level the team has left is spent, and nothing else happens.
  lemma StaleTimerLaw(cfg: Config, st: State, job: EventJob, now: int)
    requires CanStep(cfg, st, TimerFires(now, job)) && !IsCurrent(cfg, st, job)
    ensures Step(cfg, st, TimerFires(now, job)) == st.(clock := now, eventJobs := st.eventJobs - multiset{job})
  {
  }

  // So it is when a due timer is to move the team to a level nobody knows.
  lemma UnknownTimerLaw(cfg: Config, st: State, job: EventJob, now: int, timer: Timer)
    requires CanStep(cfg, st, TimerFires(now, job)) && IsCurrent(cfg, st, job)
    requires TimerDue(cfg, st, job.ltId, timer, now) && timer.levelUp
    requires Target(cfg, st.table.lts[job.ltId].level, timer.nextLevel).None?
    ensures Step(cfg, st, TimerFires(now, job)) == st.(clock := now, eventJobs := st.eventJobs - multiset{job})
  {
    var waiting := st.(clock := now);
    DueAreDue(cfg, waiting, job.ltId, now);
    CurrentTimerApplies(cfg, waiting, job, now);
    OneLevelUpIsDue(cfg, waiting, job.ltId, now, timer);
  }

  lemma OneLevelUpIsDue(cfg: Config, st: State, id: nat, now: int, timer: Timer)
    requires ValidConfig(cfg) && TimerDue(cfg, st, id, timer, now) && timer.levelUp
    ensures LevelUpTimer(DueNow(cfg, st, id, now)) == Some(timer)
  {
    var level := cfg.levels[st.table.lts[id].level];
    DueAreDue(cfg, st, id, now);
    LevelUpTimerIsOne(DueNow(cfg, st, id, now));
    assert ValidLevel(level);
    var one := LevelUpTimer(DueNow(cfg, st, id, now)).value;
    var i :| 0 <= i < |level.timers| && level.timers[i] == one;
    var j :| 0 <= j < |level.timers| && level.timers[j] == timer;
    assert !(i < j) && !(j < i);
  }

  // Else exactly the due timers are noted, besides what was noted before.
  lemma TimerNotes(cfg: Config, st: State, job: EventJob, now: int)
    requires CanStep(cfg, st, TimerFires(now, job)) && IsCurrent(cfg, st, job)
    requires forall timer :: TimerDue(cfg, st, job.ltId, timer, now) && timer.levelUp ==>
               Target(cfg, st.table.lts[job.ltId].level, timer.nextLevel).Some?
    ensures NotesDue(cfg, st, job.ltId, now, Step(cfg, st, TimerFires(now, job)).events)
  {
    var waiting, id, due := st.(clock := now), job.ltId, DueNow(cfg, st, job.ltId, now);
    FiresDue(cfg, st, job, now);
    DueAreDue(cfg, st, id, now);
    LevelUpTimerIsOne(due);
    NotedAre(id, due);
    if LevelUpTimer(due).Some? {
      DueMoves(cfg, Fired(waiting, job), job.team, id, due, now);
    } else {
      NotesAlone(cfg, Fired(waiting, job), job.team, id, due, now);
    }
  }

  ghost predicate NotesDue(cfg: Config, st: State, id: nat, now: int, events: seq<Applied>) {
    forall e :: e in events <==>
      e in st.events || exists timer :: TimerDue(cfg, st, id, timer, now) && e == Applied(id, timer.effectsId)
  }

  // The one among them that moves the team adds a row, dated to the start of the level plus its minutes ...
  lemma TimerMoves(cfg: Config, st: State, job: EventJob, now: int, timer: Timer)
    requires CanStep(cfg, st, TimerFires(now, job)) && IsCurrent(cfg, st, job)
    requires TimerDue(cfg, st, job.ltId, timer, now) && timer.levelUp
    requires Target(cfg, st.table.lts[job.ltId].level, timer.nextLevel).Some?
    ensures var lt := st.table.lts[job.ltId];
            RowAdded(st.table, Step(cfg, st, TimerFires(now, job)).table, job.team,
                     Target(cfg, lt.level, timer.nextLevel).value, lt.startAt + 60 * timer.actionTime)
  {
    FiresDue(cfg, st, job, now);
    DueRow(cfg, st, job, now, timer, Step(cfg, st, TimerFires(now, job)));
  }

  lemma DueRow(cfg: Config, st: State, job: EventJob, now: int, timer: Timer, after: State)
    requires Playable(cfg, st.table) && job.team in cfg.teams && IsCurrent(cfg, st, job)
    requires TimerDue(cfg, st, job.ltId, timer, now) && timer.levelUp
    requires Target(cfg, st.table.lts[job.ltId].level, timer.nextLevel).Some?
    requires after == TimersApplied(cfg, Fired(st.(clock := now), job), job.team, job.ltId,
                                    DueNow(cfg, st, job.ltId, now), now)
    ensures RowAdded(st.table, after.table, job.team, Target(cfg, st.table.lts[job.ltId].level, timer.nextLevel).value,
                     st.table.lts[job.ltId].startAt + 60 * timer.actionTime)
  {
    OneLevelUpIsDue(cfg, st, job.ltId, now, timer);
    DueMoves(cfg, Fired(st.(clock := now), job), job.team, job.ltId, DueNow(cfg, st, job.ltId, now), now);
  }

  // ... and without one the team stays where it is, and nothing is shown or scheduled.
  lemma TimerRests(cfg: Config, st: State, job: EventJob, now: int)
    requires CanStep(cfg, st, TimerFires(now, job)) && IsCurrent(cfg, st, job)
    requires forall timer :: TimerDue(cfg, st, job.ltId, timer, now) ==> !timer.levelUp
    ensures var after := Step(cfg, st, TimerFires(now, job));
            && after.table == st.table && after.hints == st.hints && after.finished == st.finished
            && after.eventJobs == st.eventJobs - multiset{job}
  {
    FiresDue(cfg, st, job, now);
    DueAreDue(cfg, st, job.ltId, now);
    LevelUpTimerIsOne(DueNow(cfg, st, job.ltId, now));
    NotesAlone(cfg, Fired(st.(clock := now), job), job.team, job.ltId, DueNow(cfg, st, job.ltId, now), now);
  }

  lemma NotesAlone(cfg: Config, st: State, team: nat, id: nat, due: seq<Timer>, now: int)
    requires Playable(cfg, st.table) && id in st.table.lts && LevelUpTimer(due).None?
    ensures TimersApplied(cfg, st, team, id, due, now) == st.(events := st.events + AppliedOf(id, due))
  {
  }

  lemma FiresDue(cfg: Config, st: State, job: EventJob, now: int)
    requires CanStep(cfg, st, TimerFires(now, job)) && IsCurrent(cfg, st, job)
    ensures Step(cfg, st, TimerFires(now, job)) ==
            TimersApplied(cfg, Fired(st.(clock := now), job), job.team, job.ltId, DueNow(cfg, st, job.ltId, now), now)
  {
    CurrentTimerApplies(cfg, st.(clock := now), job, now);
    assert DueNow(cfg, st.(clock := now), job.ltId, now) == DueNow(cfg, st, job.ltId, now);
  }

  lemma DueMoves(cfg: Config, st: State, team: nat, id: nat, due: seq<Timer>, now: int)
    requires Playable(cfg, st.table) && id in st.table.lts && team in st.table.path && LevelUpTimer(due).Some?
    requires st.table.lts[id].startAt + 60 * LevelUpTimer(due).value.actionTime <= now
    requires Target(cfg, st.table.lts[id].level, LevelUpTimer(due).value.nextLevel).Some?
    ensures var after, timer := TimersApplied(cfg, st, team, id, due, now), LevelUpTimer(due).value;
            && RowAdded(st.table, after.table, team, Target(cfg, st.table.lts[id].level, timer.nextLevel).value,
                        st.table.lts[id].startAt + 60 * timer.actionTime)
            && after.events == st.events + AppliedOf(id, due) && after.clock == st.clock
  {
    var timer := LevelUpTimer(due).value;
    var target := Target(cfg, st.table.lts[id].level, timer.nextLevel).value;
    MoveLaw(cfg, st.(events := st.events + AppliedOf(id, due)), team, target,
            st.table.lts[id].startAt + 60 * timer.actionTime);
  }
}
