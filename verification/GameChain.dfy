// The hint chain: which hints of which level time are shown, and which job is pending for the next one.
// It holds in every state of a game exactly when no key moves a team before the start the game records.
module GameChain {
  import opened Common
  import opened GamePlay
  import opened GameRuns

  // ----- The hints of one level time -----

  function HintsShown(shown: seq<Shown>, ltId: nat): seq<nat> {
    if shown == [] then []
    else
      var before := HintsShown(shown[..|shown| - 1], ltId);
      if shown[|shown| - 1].ltId == ltId then before + [shown[|shown| - 1].hint] else before
  }

  lemma HintsShownAppends(shown: seq<Shown>, last: Shown, ltId: nat)
    ensures HintsShown(shown + [last], ltId) == HintsShown(shown, ltId) + if last.ltId == ltId then [last.hint] else []
  {
    assert (shown + [last])[..|shown|] == shown;
  }

  lemma {:induction false} NothingShownYet(shown: seq<Shown>, ltId: nat)
    requires forall s :: s in shown ==> s.ltId != ltId
    ensures HintsShown(shown, ltId) == []
  {
    if shown != [] {
      assert shown[|shown| - 1] in shown;
      NothingShownYet(shown[..|shown| - 1], ltId);
    }
  }

  // The hints 0, 1, ..., n - 1, each once and in order.
  function FirstHints(n: nat): (hints: seq<nat>)
    ensures |hints| == n
  {
    seq(n, i => i)
  }

  function ShownCount(hints: Hints, id: nat): nat { |HintsShown(hints.shown, id)| }

  // The hints of the level a level time is on; none when the team is done.
  function HintsOf(cfg: Config, lt: LevelTime): nat {
    if HasFinished(cfg, lt) then 0 else |cfg.levels[lt.level].hints|
  }

  // The shown hints are a prefix of the level's hints, and the puzzle is among them.
  ghost predicate ShownOk(cfg: Config, hints: Hints, id: nat, lt: LevelTime) {
    && HintsShown(hints.shown, id) == FirstHints(ShownCount(hints, id))
    && ShownCount(hints, id) <= HintsOf(cfg, lt)
    && (HintsOf(cfg, lt) > 0 ==> ShownCount(hints, id) > 0)
  }

  // The job that shows the next hint, at its fixed distance from the start of the level.
  function NextJob(cfg: Config, hints: Hints, id: nat, lt: LevelTime): HintJob
    requires ShownCount(hints, id) < HintsOf(cfg, lt)
  {
    HintJob(lt.team, lt.level, ShownCount(hints, id), id,
            HintTime(lt.startAt, cfg.levels[lt.level], ShownCount(hints, id)))
  }

  ghost predicate JobOk(cfg: Config, lts: map<nat, LevelTime>, hints: Hints, job: HintJob) {
    && job.ltId in lts
    && ShownCount(hints, job.ltId) < HintsOf(cfg, lts[job.ltId])
    && job == NextJob(cfg, hints, job.ltId, lts[job.ltId])
  }

  ghost predicate Pending(cfg: Config, hints: Hints, id: nat, lt: LevelTime) {
    ShownCount(hints, id) < HintsOf(cfg, lt) ==> NextJob(cfg, hints, id, lt) in hints.jobs
  }

  ghost predicate ShownInOrder(cfg: Config, table: Table, hints: Hints, skip: Option<nat>) {
    && (forall id {:trigger ShownOk(cfg, hints, id, table.lts[id])} ::
          id in table.lts && skip != Some(id) ==> ShownOk(cfg, hints, id, table.lts[id]))
    && (forall s :: s in hints.shown ==> s.ltId < table.nextId && skip != Some(s.ltId))
  }

  ghost predicate JobsInOrder(cfg: Config, table: Table, hints: Hints, skip: Option<nat>) {
    forall job {:trigger JobOk(cfg, table.lts, hints, job)} :: job in hints.jobs ==>
      JobOk(cfg, table.lts, hints, job) && skip != Some(job.ltId) && hints.jobs[job] == 1
  }

  ghost predicate NextPending(cfg: Config, table: Table, hints: Hints, skip: Option<nat>)
    requires Rows(table)
  {
    forall t {:trigger Pending(cfg, hints, Current(table, t), table.lts[Current(table, t)])} ::
      t in table.path && skip != Some(Current(table, t)) ==>
        Pending(cfg, hints, Current(table, t), table.lts[Current(table, t)])
  }

  // The hint chain, but for a level time that was just written and whose puzzle is still to be shown.
  ghost predicate Chain(cfg: Config, table: Table, hints: Hints, skip: Option<nat>)
    requires Rows(table)
  {
    && ShownInOrder(cfg, table, hints, skip)
    && JobsInOrder(cfg, table, hints, skip)
    && NextPending(cfg, table, hints, skip)
  }

  // ----- Level times in order -----

  // The rows of one team: all its own, started in order, and all but the last on a level of the game.
  ghost predicate PathOk(cfg: Config, lts: map<nat, LevelTime>, path: seq<nat>, team: nat) {
    && path != []
    && (forall i :: 0 <= i < |path| ==> path[i] in lts && lts[path[i]].team == team)
    && (forall i, j :: 0 <= i < j < |path| ==> lts[path[i]].startAt <= lts[path[j]].startAt)
    && (forall i :: 0 <= i < |path| - 1 ==> lts[path[i]].level < |cfg.levels|)
  }

  ghost predicate Paths(cfg: Config, table: Table) {
    && Owned(cfg, table)
    && forall t {:trigger PathOk(cfg, table.lts, table.path[t], t)} ::
         t in table.path ==> PathOk(cfg, table.lts, table.path[t], t)
  }

  // No level starts after the clock, but for the start of the game, which may lie ahead: until then every
  // team is on the level it started on.
  ghost predicate Punctual(start: int, table: Table, clock: int) {
    forall id :: id in table.lts ==>
      if clock < start then table.lts[id].startAt == start else table.lts[id].startAt <= clock
  }

  // A time a level may start at.
  predicate Timely(start: int, clock: int, at: int) {
    if clock < start then at == start else at <= clock
  }

  lemma PathAppends(cfg: Config, lts: map<nat, LevelTime>, path: seq<nat>, id: nat, lt: LevelTime)
    requires id !in lts
    requires path != [] ==> PathOk(cfg, lts, path, lt.team)
    requires path != [] ==> lts[path[|path| - 1]].level < |cfg.levels| && lts[path[|path| - 1]].startAt <= lt.startAt
    ensures PathOk(cfg, lts[id := lt], path + [id], lt.team)
  {
    var longer := path + [id];
    forall i, j | 0 <= i < j < |longer| ensures lts[id := lt][longer[i]].startAt <= lts[id := lt][longer[j]].startAt {
      if j == |path| { assert i < |path| - 1 ==> lts[path[i]].startAt <= lts[path[|path| - 1]].startAt; }
    }
  }

  lemma {:induction false} CurrentOfSorted(lts: map<nat, LevelTime>, path: seq<nat>)
    requires path != [] && forall i :: 0 <= i < |path| ==> path[i] in lts
    requires forall i, j :: 0 <= i < j < |path| ==> lts[path[i]].startAt <= lts[path[j]].startAt
    ensures CurrentOf(lts, path) == path[|path| - 1]
  {
    if |path| > 1 { CurrentOfSorted(lts, path[..|path| - 1]); }
  }

  lemma CurrentIsLast(cfg: Config, table: Table, team: nat)
    requires Paths(cfg, table) && team in table.path
    ensures Current(table, team) == table.path[team][|table.path[team]| - 1]
    ensures Current(table, team) < table.nextId && table.lts[Current(table, team)].team == team
  {
    assert PathOk(cfg, table.lts, table.path[team], team);
    CurrentOfSorted(table.lts, table.path[team]);
    assert RowOk(cfg, table, Current(table, team));
  }

  // The team may be moved: it is not done, and its current level did not start after `at`.
  ghost predicate MayMove(cfg: Config, table: Table, team: nat, at: int)
    requires Owned(cfg, table)
  {
    team in table.path ==> !TeamFinished(cfg, table, team) && table.lts[Current(table, team)].startAt <= at
  }

  lemma MoveKeepsPaths(cfg: Config, table: Table, team: nat, level: nat, at: int)
    requires Paths(cfg, table) && MayMove(cfg, table, team, at)
    requires NamesInRange(cfg) ==> level <= |cfg.levels|
    ensures Paths(cfg, SetToLevel(table, team, level, at)) && table.nextId !in table.lts
    ensures Current(SetToLevel(table, team, level, at), team) == table.nextId
  {
    var moved := SetToLevel(table, team, level, at);
    var path := if team in table.path then table.path[team] else [];
    if team in table.path { CurrentIsLast(cfg, table, team); }
    MoveKeepsOwned(cfg, table, team, level, at);
    PathAppends(cfg, table.lts, path, table.nextId, LevelTime(team, level, at));
    forall t | t in moved.path ensures PathOk(cfg, moved.lts, moved.path[t], t) {
      if t != team { assert PathOk(cfg, table.lts, table.path[t], t); }
    }
    CurrentIsLast(cfg, moved, team);
  }

  // A row just written has shown nothing and has no job; every other row is as it was.
  lemma MoveKeepsShown(cfg: Config, table: Table, hints: Hints, team: nat, level: nat, at: int)
    requires ShownInOrder(cfg, table, hints, None) && JobsInOrder(cfg, table, hints, None)
    requires table.nextId !in table.lts
    ensures ShownInOrder(cfg, SetToLevel(table, team, level, at), hints, Some(table.nextId))
    ensures JobsInOrder(cfg, SetToLevel(table, team, level, at), hints, Some(table.nextId))
    ensures HintsShown(hints.shown, table.nextId) == []
  {
    var moved := SetToLevel(table, team, level, at);
    NothingShownYet(hints.shown, table.nextId);
    forall id | id in moved.lts && id != table.nextId ensures ShownOk(cfg, hints, id, moved.lts[id]) {
      assert ShownOk(cfg, hints, id, table.lts[id]);
    }
    forall job | job in hints.jobs
      ensures JobOk(cfg, moved.lts, hints, job) && job.ltId != table.nextId && hints.jobs[job] == 1 {
      assert JobOk(cfg, table.lts, hints, job);
    }
  }

  lemma MoveKeepsChain(cfg: Config, table: Table, hints: Hints, team: nat, level: nat, at: int)
    requires Paths(cfg, table) && Chain(cfg, table, hints, None) && MayMove(cfg, table, team, at)
    requires NamesInRange(cfg) ==> level <= |cfg.levels|
    ensures Paths(cfg, SetToLevel(table, team, level, at))
    ensures Chain(cfg, SetToLevel(table, team, level, at), hints, Some(table.nextId))
    ensures HintsShown(hints.shown, table.nextId) == []
  {
    MoveKeepsPaths(cfg, table, team, level, at);
    MoveKeepsShown(cfg, table, hints, team, level, at);
    OthersStay(cfg, table, team, level, at);
    var moved := SetToLevel(table, team, level, at);
    forall t | t in moved.path && Current(moved, t) != table.nextId
      ensures Pending(cfg, hints, Current(moved, t), moved.lts[Current(moved, t)])
    {
      assert Pending(cfg, hints, Current(table, t), table.lts[Current(table, t)]);
    }
  }

  // A team that was moved beyond the last level has no hints to wait for.
  lemma DoneClosesChain(cfg: Config, table: Table, hints: Hints, id: nat)
    requires Rows(table) && Chain(cfg, table, hints, Some(id)) && id in table.lts
    requires HasFinished(cfg, table.lts[id]) && HintsShown(hints.shown, id) == []
    ensures Chain(cfg, table, hints, None)
  {
    assert HintsShown(hints.shown, id) == FirstHints(0);
    forall other | other in table.lts ensures ShownOk(cfg, hints, other, table.lts[other]) {
    }
    forall job | job in hints.jobs ensures JobOk(cfg, table.lts, hints, job) && hints.jobs[job] == 1 {
    }
    forall t | t in table.path ensures Pending(cfg, hints, Current(table, t), table.lts[Current(table, t)]) {
    }
  }

  // Showing the puzzle and scheduling the first hint closes the chain of a row just written.
  lemma EnterClosesChain(cfg: Config, table: Table, hints: Hints, id: nat)
    requires Rows(table) && Chain(cfg, table, hints, Some(id)) && id in table.lts && id < table.nextId
    requires HintsOf(cfg, table.lts[id]) > 0 && HintsShown(hints.shown, id) == []
    ensures Chain(cfg, table, PuzzleShown(cfg.levels[table.lts[id].level], hints, id, table.lts[id]), None)
  {
    var lt := table.lts[id];
    var hints' := PuzzleShown(cfg.levels[lt.level], hints, id, lt);
    forall other
      ensures HintsShown(hints'.shown, other) == HintsShown(hints.shown, other) + if other == id then [0] else [] {
      HintsShownAppends(hints.shown, Shown(id, 0), other);
    }
    assert ShownCount(hints', id) == 1;
    forall other | other in table.lts ensures ShownOk(cfg, hints', other, table.lts[other]) {
      if other != id { assert ShownOk(cfg, hints, other, table.lts[other]); }
    }
    forall job | job in hints'.jobs ensures JobOk(cfg, table.lts, hints', job) && hints'.jobs[job] == 1 {
      if job in hints.jobs { assert JobOk(cfg, table.lts, hints, job) && job.ltId != id; }
    }
    forall t | t in table.path ensures Pending(cfg, hints', Current(table, t), table.lts[Current(table, t)]) {
      if Current(table, t) != id { assert Pending(cfg, hints, Current(table, t), table.lts[Current(table, t)]); }
    }
  }

  // One more hint of one level time was shown.
  ghost predicate OneMoreShown(hints: Hints, hints': Hints, job: HintJob) {
    && hints'.shown == hints.shown + [Shown(job.ltId, job.hint)]
    && forall other :: HintsShown(hints'.shown, other) ==
         HintsShown(hints.shown, other) + if other == job.ltId then [job.hint] else []
  }

  lemma HintKeepsJobs(cfg: Config, table: Table, hints: Hints, hints': Hints, job: HintJob, level: Level)
    requires JobsInOrder(cfg, table, hints, None) && job in hints.jobs && JobOk(cfg, table.lts, hints, job)
    requires level == cfg.levels[job.level]
    requires hints' == HintSent(level, hints.(jobs := hints.jobs - multiset{job}), job, table.lts[job.ltId].startAt)
    requires OneMoreShown(hints, hints', job)
    ensures JobsInOrder(cfg, table, hints', None)
  {
    forall other | other in hints'.jobs ensures JobOk(cfg, table.lts, hints', other) && hints'.jobs[other] == 1 {
      if other in hints.jobs { assert JobOk(cfg, table.lts, hints, other) && hints.jobs[other] == 1; }
    }
  }

  lemma HintKeepsPending(cfg: Config, table: Table, hints: Hints, hints': Hints, job: HintJob, level: Level)
    requires Rows(table) && NextPending(cfg, table, hints, None) && JobOk(cfg, table.lts, hints, job)
    requires level == cfg.levels[job.level]
    requires hints' == HintSent(level, hints.(jobs := hints.jobs - multiset{job}), job, table.lts[job.ltId].startAt)
    requires OneMoreShown(hints, hints', job)
    ensures NextPending(cfg, table, hints', None)
  {
    forall t | t in table.path ensures Pending(cfg, hints', Current(table, t), table.lts[Current(table, t)]) {
      assert Pending(cfg, hints, Current(table, t), table.lts[Current(table, t)]);
    }
  }

  // A hint of the current level is shown once, and the next one takes its place among the jobs.
  lemma HintKeepsChain(cfg: Config, table: Table, hints: Hints, job: HintJob)
    requires Paths(cfg, table) && Chain(cfg, table, hints, None)
    requires job in hints.jobs && JobOk(cfg, table.lts, hints, job)
    ensures Chain(cfg, table, HintSent(cfg.levels[job.level], hints.(jobs := hints.jobs - multiset{job}), job,
                                       table.lts[job.ltId].startAt), None)
  {
    var level := cfg.levels[job.level];
    var hints' := HintSent(level, hints.(jobs := hints.jobs - multiset{job}), job, table.lts[job.ltId].startAt);
    forall other
      ensures HintsShown(hints'.shown, other) ==
              HintsShown(hints.shown, other) + if other == job.ltId then [job.hint] else []
    {
      HintsShownAppends(hints.shown, Shown(job.ltId, job.hint), other);
    }
    HintShowsNext(cfg, table, hints, hints', job);
    HintKeepsJobs(cfg, table, hints, hints', job, level);
    HintKeepsPending(cfg, table, hints, hints', job, level);
  }

  lemma HintShowsNext(cfg: Config, table: Table, hints: Hints, hints': Hints, job: HintJob)
    requires Paths(cfg, table) && ShownInOrder(cfg, table, hints, None) && JobOk(cfg, table.lts, hints, job)
    requires OneMoreShown(hints, hints', job)
    ensures ShownInOrder(cfg, table, hints', None)
  {
    assert RowOk(cfg, table, job.ltId);
    forall id | id in table.lts ensures ShownOk(cfg, hints', id, table.lts[id]) {
      assert ShownOk(cfg, hints, id, table.lts[id]);
    }
  }

  // A job of a level time the team has left shows nothing and schedules nothing.
  lemma StaleHintKeepsChain(cfg: Config, table: Table, hints: Hints, job: HintJob)
    requires Rows(table) && Chain(cfg, table, hints, None) && job in hints.jobs
    requires job.team in table.path && Current(table, job.team) != job.ltId
    requires job.ltId in table.lts && job.team == table.lts[job.ltId].team
    requires forall t :: t in table.path ==> table.lts[Current(table, t)].team == t
    ensures Chain(cfg, table, hints.(jobs := hints.jobs - multiset{job}), None)
  {
    var hints' := hints.(jobs := hints.jobs - multiset{job});
    forall id | id in table.lts ensures ShownOk(cfg, hints', id, table.lts[id]) {
      assert ShownOk(cfg, hints, id, table.lts[id]);
    }
    assert JobOk(cfg, table.lts, hints, job);
    forall other | other in hints'.jobs ensures JobOk(cfg, table.lts, hints', other) && hints'.jobs[other] == 1 {
      assert JobOk(cfg, table.lts, hints, other) && hints.jobs[other] == 1;
    }
    forall t | t in table.path ensures Pending(cfg, hints', Current(table, t), table.lts[Current(table, t)]) {
      assert Pending(cfg, hints, Current(table, t), table.lts[Current(table, t)]);
    }
  }

  // ----- The invariant -----

  ghost predicate Core(cfg: Config, start: int, st: State) {
    Paths(cfg, st.table) && Punctual(start, st.table, st.clock) && Chain(cfg, st.table, st.hints, None)
  }

  ghost predicate Inv(cfg: Config, start: int, st: State) {
    Base(cfg, st) && Core(cfg, start, st)
  }

  lemma MoveInKeepsChain(cfg: Config, table: Table, hints: Hints, team: nat, level: nat, at: int)
    requires ValidConfig(cfg) && Paths(cfg, table) && Chain(cfg, table, hints, None)
    requires MayMove(cfg, table, team, at) && level < |cfg.levels|
    ensures var moved := SetToLevel(table, team, level, at);
            && ValidLevel(cfg.levels[level]) && Paths(cfg, moved)
            && Chain(cfg, moved, PuzzleShown(cfg.levels[level], hints, table.nextId, LevelTime(team, level, at)), None)
  {
    assert ValidLevel(cfg.levels[level]);
    MoveKeepsChain(cfg, table, hints, team, level, at);
    EnterClosesChain(cfg, SetToLevel(table, team, level, at), hints, table.nextId);
  }

  // A team moved to a level of the game is shown it, and the chain holds again.
  lemma MoveInKeepsCore(cfg: Config, start: int, st: State, team: nat, level: nat, at: int)
    requires ValidConfig(cfg) && Core(cfg, start, st) && MayMove(cfg, st.table, team, at) && Timely(start, st.clock, at)
    requires level < |cfg.levels|
    ensures Core(cfg, start, Entered(cfg, st.(table := SetToLevel(st.table, team, level, at)), st.table.nextId))
  {
    MoveKeepsPaths(cfg, st.table, team, level, at);
    MoveInKeepsChain(cfg, st.table, st.hints, team, level, at);
  }

  // A team moved beyond the last level is done.
  lemma MoveOutKeepsCore(cfg: Config, start: int, st: State, team: nat, level: nat, at: int)
    requires Core(cfg, start, st) && MayMove(cfg, st.table, team, at) && Timely(start, st.clock, at)
    requires level >= |cfg.levels| && (NamesInRange(cfg) ==> level <= |cfg.levels|)
    ensures Core(cfg, start, st.(table := SetToLevel(st.table, team, level, at)))
  {
    MoveKeepsPaths(cfg, st.table, team, level, at);
    MoveKeepsChain(cfg, st.table, st.hints, team, level, at);
    DoneClosesChain(cfg, SetToLevel(st.table, team, level, at), st.hints, st.table.nextId);
  }

  lemma LevelUpKeepsCore(cfg: Config, start: int, st: State, team: nat, level: nat, at: int)
    requires Playable(cfg, st.table) && Core(cfg, start, st) && team in cfg.teams && MayMove(cfg, st.table, team, at)
    requires Timely(start, st.clock, at) && (NamesInRange(cfg) ==> level <= |cfg.levels|)
    ensures Core(cfg, start, LeveledUp(cfg, st, team, level, at))
  {
    MoveKeepsPaths(cfg, st.table, team, level, at);
    if level >= |cfg.levels| {
      MoveOutKeepsCore(cfg, start, st, team, level, at);
      var moved := st.(table := SetToLevel(st.table, team, level, at));
      var up := LeveledUp(cfg, st, team, level, at);
      assert up.table == moved.table && up.hints == moved.hints && up.clock == moved.clock;
    } else {
      MoveInKeepsCore(cfg, start, st, team, level, at);
    }
  }

  // ----- Every step -----

  // A key moves a team before the start the game records.
  ghost predicate EarlyMove(cfg: Config, start: int, st: State, ev: Event) {
    && Playable(cfg, st.table) && ev.Key? && ev.now < start
    && MovesTeam(cfg, st.table, ev.team, ev.levelUp, ev.nextLevel)
  }

  lemma KeyKeepsCore(cfg: Config, start: int, st: State, team: nat, levelUp: bool, nextLevel: Option<string>)
    requires ValidConfig(cfg) && Inv(cfg, start, st)
    requires !EarlyMove(cfg, start, st, Key(st.clock, team, levelUp, nextLevel))
    ensures Core(cfg, start, AfterKey(cfg, st, team, levelUp, nextLevel, st.clock))
  {
    if MovesTeam(cfg, st.table, team, levelUp, nextLevel) {
      var number := st.table.lts[Current(st.table, team)].level;
      var next := NextLevel(cfg, number, nextLevel);
      if NamesInRange(cfg) { NextLevelInRange(cfg, number, nextLevel); }
      LevelUpKeepsCore(cfg, start, st, team, next.value, st.clock);
      assert AfterKey(cfg, st, team, levelUp, nextLevel, st.clock) == LeveledUp(cfg, st, team, next.value, st.clock);
    } else {
      assert AfterKey(cfg, st, team, levelUp, nextLevel, st.clock) == st;
    }
  }

  // Before the start of the game no timer is due.
  lemma DueIsTimely(start: int, table: Table, clock: int, id: nat, timer: Timer)
    requires Punctual(start, table, clock) && id in table.lts
    requires table.lts[id].startAt + MINUTE * timer.actionTime <= clock
    ensures table.lts[id].startAt <= TimerLevelUpTime(timer.actionTime, table.lts[id].startAt, clock)
    ensures Timely(start, clock, TimerLevelUpTime(timer.actionTime, table.lts[id].startAt, clock))
  {
  }

  lemma TimersKeepCore(cfg: Config, start: int, st: State, team: nat, id: nat, due: seq<Timer>)
    requires Playable(cfg, st.table) && Core(cfg, start, st) && team in cfg.teams
    requires id == Current(st.table, team) && !TeamFinished(cfg, st.table, team)
    requires forall t :: t in due ==> st.table.lts[id].startAt + MINUTE * t.actionTime <= st.clock
    ensures Core(cfg, start, TimersApplied(cfg, st, team, id, due, st.clock))
  {
    var lt := st.table.lts[id];
    var told := st.(events := st.events + AppliedOf(id, due));
    var timer := LevelUpTimer(due);
    if timer.Some? {
      var next := NextLevel(cfg, lt.level, timer.value.nextLevel);
      if next.Some? {
        if NamesInRange(cfg) { NextLevelInRange(cfg, lt.level, timer.value.nextLevel); }
        LevelUpTimerIsOne(due);
        DueIsTimely(start, st.table, st.clock, id, timer.value);
        LevelUpKeepsCore(cfg, start, told, team, next.value,
                         TimerLevelUpTime(timer.value.actionTime, lt.startAt, st.clock));
      }
    }
  }

  lemma TimerKeepsCore(cfg: Config, start: int, st: State, job: EventJob)
    requires ValidConfig(cfg) && Inv(cfg, start, st) && job.team in cfg.teams
    ensures Core(cfg, start, AfterTimer(cfg, st, job, st.clock))
  {
    var id := Current(st.table, job.team);
    if HasFinished(cfg, st.table.lts[id]) || id != job.ltId {
      assert AfterTimer(cfg, st, job, st.clock) == Fired(st, job);
    } else {
      DueNowIsPast(cfg, st, id, st.clock);
      CurrentTimerApplies(cfg, st, job, st.clock);
      var fired, due := Fired(st, job), DueNow(cfg, st, id, st.clock);
      assert Core(cfg, start, fired);
      TimersKeepCore(cfg, start, fired, job.team, id, due);
    }
  }

  lemma HintKeepsCore(cfg: Config, start: int, st: State, job: HintJob)
    requires ValidConfig(cfg) && Inv(cfg, start, st) && job in st.hints.jobs && HintJobOk(cfg, st.table.path, job)
    ensures Core(cfg, start, AfterHint(cfg, st, job))
  {
    assert JobOk(cfg, st.table.lts, st.hints, job);
    assert RowOk(cfg, st.table, job.ltId);
    forall t | t in st.table.path ensures st.table.lts[Current(st.table, t)].team == t {
      CurrentIsLast(cfg, st.table, t);
    }
    if Current(st.table, job.team) == job.ltId {
      HintKeepsChain(cfg, st.table, st.hints, job);
    } else {
      StaleHintKeepsChain(cfg, st.table, st.hints, job);
    }
  }

  lemma ClockKeepsInv(cfg: Config, start: int, st: State, now: int)
    requires Inv(cfg, start, st) && st.clock <= now
    ensures Inv(cfg, start, st.(clock := now))
  {
  }

  lemma StepKeepsInv(cfg: Config, start: int, st: State, ev: Event)
    requires ValidConfig(cfg) && Inv(cfg, start, st) && CanStep(cfg, st, ev) && !EarlyMove(cfg, start, st, ev)
    ensures Inv(cfg, start, Step(cfg, st, ev))
  {
    ClockKeepsInv(cfg, start, st, ev.now);
    StepKeepsBase(cfg, st, ev);
    var now := st.(clock := ev.now);
    match ev
    case Key(at, team, levelUp, nextLevel) => KeyKeepsCore(cfg, start, now, team, levelUp, nextLevel);
    case TimerFires(at, job) => TimerKeepsCore(cfg, start, now, job);
    case HintFires(_, job) => HintKeepsCore(cfg, start, now, job);
  }

  // ----- The start -----

  lemma StartTeamKeepsCore(cfg: Config, start: int, st: State, team: nat)
    requires ValidConfig(cfg) && Core(cfg, start, st) && team !in st.table.path && Timely(start, st.clock, start)
    ensures Core(cfg, start, StartTeam(cfg, st, team, start))
  {
    MoveInKeepsCore(cfg, start, st, team, 0, start);
  }

  lemma {:induction false} StartKeepsCore(cfg: Config, start: int, st: State, teams: seq<nat>)
    requires ValidConfig(cfg) && Core(cfg, start, st) && Starting(cfg, st, []) && Timely(start, st.clock, start)
    requires NoRepeats(teams)
    ensures Core(cfg, start, StartTeams(cfg, st, teams, start))
  {
    if teams != [] {
      var before, last := teams[..|teams| - 1], teams[|teams| - 1];
      LastIsNew(teams);
      StartKeepsCore(cfg, start, st, before);
      StartKeepsBase(cfg, st, before, start);
      StartTeamKeepsCore(cfg, start, StartTeams(cfg, st, before, start), last);
    }
  }

  // The invariant holds from the start, also when the scheduler woke up early or late.
  lemma StartEstablishesInv(cfg: Config, planned: Option<int>, now: int)
    requires ValidConfig(cfg)
    ensures Inv(cfg, SnapToPlannedStart(planned, now), StartedGame(cfg, planned, now))
  {
    var start := SnapToPlannedStart(planned, now);
    assert Core(cfg, start, BeforeStart(now)) && Starting(cfg, BeforeStart(now), []);
    StartKeepsCore(cfg, start, BeforeStart(now), cfg.teams);
    StartEstablishesBase(cfg, planned, now);
  }

  // ----- Games -----

  // One of the first `n` events of the game moves a team before the start the game records.
  ghost predicate MovedEarly(cfg: Config, start: int, states: seq<State>, events: seq<Event>, n: nat)
    requires |states| == |events| + 1
  {
    exists k :: 0 <= k < n && k < |events| && EarlyMove(cfg, start, states[k], events[k])
  }

  lemma MovedEarlyLast(cfg: Config, start: int, states: seq<State>, events: seq<Event>, n: nat)
    requires |states| == |events| + 1 && 0 < n < |states|
    ensures MovedEarly(cfg, start, states, events, n) <==>
              MovedEarly(cfg, start, states, events, n - 1) || EarlyMove(cfg, start, states[n - 1], events[n - 1])
  {
  }

  lemma RunStepKeepsInv(cfg: Config, start: int, states: seq<State>, events: seq<Event>, k: nat)
    requires ValidConfig(cfg) && IsRun(cfg, states, events) && k < |events|
    requires Inv(cfg, start, states[k]) && !EarlyMove(cfg, start, states[k], events[k])
    ensures Inv(cfg, start, states[k + 1])
  {
    assert Linked(cfg, states, events, k);
    StepKeepsInv(cfg, start, states[k], events[k]);
  }

  lemma {:induction false} GameKeepsInv(
    cfg: Config, planned: Option<int>, now: int, states: seq<State>, events: seq<Event>, i: nat)
    requires IsGame(cfg, planned, now, states, events) && i < |states|
    requires !MovedEarly(cfg, SnapToPlannedStart(planned, now), states, events, i)
    ensures Inv(cfg, SnapToPlannedStart(planned, now), states[i])
  {
    if i == 0 {
      StartEstablishesInv(cfg, planned, now);
    } else {
      MovedEarlyLast(cfg, SnapToPlannedStart(planned, now), states, events, i);
      GameKeepsInv(cfg, planned, now, states, events, i - 1);
      RunStepKeepsInv(cfg, SnapToPlannedStart(planned, now), states, events, i - 1);
    }
  }

  ghost predicate PendingExactly(cfg: Config, st: State, id: nat)
    requires id in st.table.lts
  {
    var lt := st.table.lts[id];
    if ShownCount(st.hints, id) < HintsOf(cfg, lt) then
      && st.hints.jobs[NextJob(cfg, st.hints, id, lt)] == 1
      && forall job :: job in st.hints.jobs && job.ltId == id ==> job == NextJob(cfg, st.hints, id, lt)
    else
      forall job :: job in st.hints.jobs ==> job.ltId != id
  }

  // Of every level time the hints shown are a prefix of its level's hints, each shown once and in order. The
  // level time a team is on has exactly one pending job when hints remain, for the next of them, at its
  // fixed distance from the start of the level however late the jobs before it fired; and none when no
  // hint remains.
  ghost predicate ChainHolds(cfg: Config, st: State) {
    && Rows(st.table)
    && (forall id {:trigger HintsShown(st.hints.shown, id)} :: id in st.table.lts ==>
          && HintsShown(st.hints.shown, id) == FirstHints(ShownCount(st.hints, id))
          && ShownCount(st.hints, id) <= HintsOf(cfg, st.table.lts[id]))
    && (forall t :: t in st.table.path ==> PendingExactly(cfg, st, Current(st.table, t)))
  }

  // A team's levels are levels of the game but for the last, which may be the finish; they start in order,
  // and none starts after the clock, but for the start of the game.
  ghost predicate LevelsInOrder(cfg: Config, start: int, st: State) {
    && (forall t :: t in st.table.path ==> PathOk(cfg, st.table.lts, st.table.path[t], t))
    && Punctual(start, st.table, st.clock)
  }

  lemma InvHoldsChain(cfg: Config, start: int, st: State)
    requires Inv(cfg, start, st)
    ensures ChainHolds(cfg, st) && LevelsInOrder(cfg, start, st)
  {
    forall id | id in st.table.lts
      ensures HintsShown(st.hints.shown, id) == FirstHints(ShownCount(st.hints, id))
      ensures ShownCount(st.hints, id) <= HintsOf(cfg, st.table.lts[id])
    {
      assert ShownOk(cfg, st.hints, id, st.table.lts[id]);
    }
    forall t | t in st.table.path ensures PendingExactly(cfg, st, Current(st.table, t)) {
      var id := Current(st.table, t);
      assert Pending(cfg, st.hints, id, st.table.lts[id]);
      forall job | job in st.hints.jobs
        ensures JobOk(cfg, st.table.lts, st.hints, job) && st.hints.jobs[job] == 1 {}
    }
  }

  lemma NotAPrefix(hints: seq<nat>)
    requires hints == FirstHints(|hints|) && hints != []
    ensures hints + [0] != FirstHints(|hints| + 1)
  {
    assert (hints + [0])[|hints|] != FirstHints(|hints| + 1)[|hints|];
  }

  // A team moved early stays on the level it is on and is shown its puzzle again.
  lemma EarlyMoveShowsAgain(cfg: Config, start: int, st: State, ev: Event) returns (level: nat)
    requires ValidConfig(cfg) && Inv(cfg, start, st) && CanStep(cfg, st, ev) && EarlyMove(cfg, start, st, ev)
    ensures var after, id := Step(cfg, st, ev), Current(st.table, ev.team);
            && Rows(after.table) && Current(after.table, ev.team) == id
            && after.table == SetToLevel(st.table, ev.team, level, ev.now)
            && HintsOf(cfg, st.table.lts[id]) > 0
            && after.hints == PuzzleShown(cfg.levels[st.table.lts[id].level], st.hints, id, st.table.lts[id])
  {
    var id := Current(st.table, ev.team);
    level := NextLevel(cfg, st.table.lts[id].level, ev.nextLevel).value;
    assert st.table.lts[id].startAt == start && ValidLevel(cfg.levels[st.table.lts[id].level]);
    MoveKeepsOwned(cfg, st.table, ev.team, level, ev.now);
    CurrentAfterMove(cfg, st.table, ev.team, level, ev.now);
    assert Step(cfg, st, ev) == LeveledUp(cfg, st.(clock := ev.now), ev.team, level, ev.now);
  }

  lemma PuzzleAgainBreaksChain(cfg: Config, st: State, after: State, id: nat)
    requires Rows(st.table) && Chain(cfg, st.table, st.hints, None) && id in st.table.lts
    requires HintsOf(cfg, st.table.lts[id]) > 0 && id in after.table.lts
    requires after.hints == PuzzleShown(cfg.levels[st.table.lts[id].level], st.hints, id, st.table.lts[id])
    ensures HintsShown(after.hints.shown, id) == HintsShown(st.hints.shown, id) + [0] && !ChainHolds(cfg, after)
  {
    HintsShownAppends(st.hints.shown, Shown(id, 0), id);
    assert ShownOk(cfg, st.hints, id, st.table.lts[id]);
    NotAPrefix(HintsShown(st.hints.shown, id));
    assert HintsShown(after.hints.shown, id) != FirstHints(ShownCount(after.hints, id));
  }

  lemma EarlyMoveBreaksChain(cfg: Config, start: int, st: State, ev: Event)
    requires ValidConfig(cfg) && Inv(cfg, start, st) && CanStep(cfg, st, ev) && EarlyMove(cfg, start, st, ev)
    ensures !ChainHolds(cfg, Step(cfg, st, ev)) && !LevelsInOrder(cfg, start, Step(cfg, st, ev))
    ensures HintsShown(Step(cfg, st, ev).hints.shown, Current(st.table, ev.team))
         == HintsShown(st.hints.shown, Current(st.table, ev.team)) + [0]
  {
    var level := EarlyMoveShowsAgain(cfg, start, st, ev);
    PuzzleAgainBreaksChain(cfg, st, Step(cfg, st, ev), Current(st.table, ev.team));
    PathOutOfOrder(cfg, start, st, ev.team, level, ev.now);
  }

  lemma PathOutOfOrder(cfg: Config, start: int, st: State, team: nat, level: nat, at: int)
    requires Inv(cfg, start, st) && st.clock <= at < start && team in st.table.path
    ensures var moved := SetToLevel(st.table, team, level, at); !PathOk(cfg, moved.lts, moved.path[team], team)
  {
    var moved := SetToLevel(st.table, team, level, at);
    var path := moved.path[team];
    CurrentIsLast(cfg, st.table, team);
    var last := |path| - 2;
    assert path[last] == Current(st.table, team) && path[last + 1] == st.table.nextId;
    MoveKeepsNew(cfg, st.table);
    assert moved.lts[path[last]].startAt == start && moved.lts[path[last + 1]].startAt == at;
  }

  lemma MoveKeepsNew(cfg: Config, table: Table)
    requires Owned(cfg, table)
    ensures table.nextId !in table.lts
  {
    assert table.nextId in table.lts ==> RowOk(cfg, table, table.nextId);
  }

  // The hint chain, and the order of level times, in every state of a game up to the first early move.
  lemma HintChain(cfg: Config, planned: Option<int>, now: int, states: seq<State>, events: seq<Event>, i: nat)
    requires IsGame(cfg, planned, now, states, events) && i < |states|
    requires !MovedEarly(cfg, SnapToPlannedStart(planned, now), states, events, i)
    ensures ChainHolds(cfg, states[i]) && LevelsInOrder(cfg, SnapToPlannedStart(planned, now), states[i])
  {
    GameKeepsInv(cfg, planned, now, states, events, i);
    InvHoldsChain(cfg, SnapToPlannedStart(planned, now), states[i]);
  }

  lemma EarlyEventBreaks(cfg: Config, start: int, states: seq<State>, events: seq<Event>, k: nat)
    requires ValidConfig(cfg) && IsRun(cfg, states, events) && k < |events|
    requires Inv(cfg, start, states[k]) && EarlyMove(cfg, start, states[k], events[k])
    ensures !ChainHolds(cfg, states[k + 1]) && !LevelsInOrder(cfg, start, states[k + 1])
  {
    assert Linked(cfg, states, events, k);
    EarlyMoveBreaksChain(cfg, start, states[k], events[k]);
  }

  lemma {:induction false} MovedEarlyBreaks(
    cfg: Config, planned: Option<int>, now: int, states: seq<State>, events: seq<Event>, n: nat) returns (i: nat)
    requires IsGame(cfg, planned, now, states, events) && n < |states|
    requires MovedEarly(cfg, SnapToPlannedStart(planned, now), states, events, n)
    ensures i <= n && !ChainHolds(cfg, states[i]) && !LevelsInOrder(cfg, SnapToPlannedStart(planned, now), states[i])
  {
    var start := SnapToPlannedStart(planned, now);
    MovedEarlyLast(cfg, start, states, events, n);
    if MovedEarly(cfg, start, states, events, n - 1) {
      i := MovedEarlyBreaks(cfg, planned, now, states, events, n - 1);
    } else {
      i := n;
      GameKeepsInv(cfg, planned, now, states, events, n - 1);
      EarlyEventBreaks(cfg, start, states, events, n - 1);
    }
  }

  // The hint chain holds in every state of a game exactly when no key moves a team before the start the game
  // records; and so does the order of the level times.
  lemma HintChainIff(cfg: Config, planned: Option<int>, now: int, states: seq<State>, events: seq<Event>)
    requires IsGame(cfg, planned, now, states, events)
    ensures (forall i :: 0 <= i < |states| ==> ChainHolds(cfg, states[i]))
       <==> !MovedEarly(cfg, SnapToPlannedStart(planned, now), states, events, |events|)
    ensures (forall i :: 0 <= i < |states| ==> LevelsInOrder(cfg, SnapToPlannedStart(planned, now), states[i]))
       <==> !MovedEarly(cfg, SnapToPlannedStart(planned, now), states, events, |events|)
  {
    var start := SnapToPlannedStart(planned, now);
    if MovedEarly(cfg, start, states, events, |events|) {
      var i := MovedEarlyBreaks(cfg, planned, now, states, events, |events|);
      assert !ChainHolds(cfg, states[i]) && !LevelsInOrder(cfg, start, states[i]);
    } else {
      forall i | 0 <= i < |states| ensures ChainHolds(cfg, states[i]) && LevelsInOrder(cfg, start, states[i]) {
        HintChain(cfg, planned, now, states, events, i);
      }
    }
  }

  // ----- A game in which the chain breaks -----

  lemma {:induction false} OnlyPuzzles(shown: seq<Shown>, id: nat)
    requires forall s :: s in shown ==> s.hint == 0
    ensures forall h :: h in HintsShown(shown, id) ==> h == 0
  {
    if shown != [] {
      assert shown[|shown| - 1] in shown;
      OnlyPuzzles(shown[..|shown| - 1], id);
    }
  }

  lemma {:induction false} StartShowsPuzzles(cfg: Config, st: State, teams: seq<nat>, at: int)
    requires ValidConfig(cfg) && forall s :: s in st.hints.shown ==> s.hint == 0
    ensures forall s :: s in StartTeams(cfg, st, teams, at).hints.shown ==> s.hint == 0
  {
    if teams != [] { StartShowsPuzzles(cfg, st, teams[..|teams| - 1], at); }
  }

  lemma PrefixOfPuzzles(hints: seq<nat>)
    requires hints == FirstHints(|hints|) && hints != [] && forall h :: h in hints ==> h == 0
    ensures hints == [0]
  {
    assert hints[|hints| - 1] in hints && hints[|hints| - 1] == |hints| - 1;
  }

  // A started game has shown every team the puzzle of its level and nothing else.
  lemma StartShowsPuzzleOnce(cfg: Config, planned: Option<int>, now: int, id: nat)
    requires ValidConfig(cfg) && id in StartedGame(cfg, planned, now).table.lts
    requires HintsOf(cfg, StartedGame(cfg, planned, now).table.lts[id]) > 0
    ensures HintsShown(StartedGame(cfg, planned, now).hints.shown, id) == [0]
  {
    var st := StartedGame(cfg, planned, now);
    StartEstablishesInv(cfg, planned, now);
    StartShowsPuzzles(cfg, BeforeStart(now), cfg.teams, SnapToPlannedStart(planned, now));
    OnlyPuzzles(st.hints.shown, id);
    assert ShownOk(cfg, st.hints, id, st.table.lts[id]);
    PrefixOfPuzzles(HintsShown(st.hints.shown, id));
  }

  // The scheduler wakes up one second early, and a team enters a key that moves it in that second: the
  // puzzle of its first level is shown to it twice.
  lemma EarlyKeyShowsPuzzleTwice(cfg: Config, planned: int) returns (states: seq<State>, events: seq<Event>)
    requires ValidConfig(cfg)
    ensures IsGame(cfg, Some(planned), planned - 1, states, events) && |states| == 2
    ensures MovedEarly(cfg, planned, states, events, 1) && !ChainHolds(cfg, states[1])
    ensures var team := cfg.teams[0];
            && Rows(states[1].table) && team in states[1].table.path
            && HintsShown(states[1].hints.shown, Current(states[1].table, team)) == [0, 0]
  {
    var st := StartedGame(cfg, Some(planned), planned - 1);
    var key := Key(planned - 1, cfg.teams[0], true, None);
    EarlyKeyStep(cfg, planned, st, key);
    events, states := [key], [st, Step(cfg, st, key)];
    assert EarlyMove(cfg, planned, states[0], events[0]) && Linked(cfg, states, events, 0);
  }

  lemma EarlyKeyCan(cfg: Config, planned: int, st: State, key: Event)
    requires ValidConfig(cfg) && st == StartedGame(cfg, Some(planned), planned - 1)
    requires key == Key(planned - 1, cfg.teams[0], true, None)
    ensures Inv(cfg, planned, st) && CanStep(cfg, st, key) && EarlyMove(cfg, planned, st, key)
    ensures key.team in st.table.path && HintsOf(cfg, st.table.lts[Current(st.table, key.team)]) > 0
  {
    StartEstablishesInv(cfg, Some(planned), planned - 1);
    StartEstablishesBase(cfg, Some(planned), planned - 1);
    assert key.team in st.table.path && !TeamFinished(cfg, st.table, key.team);
    assert ValidLevel(cfg.levels[st.table.lts[Current(st.table, key.team)].level]);
  }

  lemma EarlyKeyShows(cfg: Config, start: int, st: State, ev: Event)
    requires ValidConfig(cfg) && Inv(cfg, start, st) && CanStep(cfg, st, ev) && EarlyMove(cfg, start, st, ev)
    requires HintsShown(st.hints.shown, Current(st.table, ev.team)) == [0]
    ensures var after := Step(cfg, st, ev);
            && !ChainHolds(cfg, after)
            && Rows(after.table) && ev.team in after.table.path
            && HintsShown(after.hints.shown, Current(after.table, ev.team)) == [0, 0]
  {
    var level := EarlyMoveShowsAgain(cfg, start, st, ev);
    EarlyMoveBreaksChain(cfg, start, st, ev);
  }

  lemma EarlyKeyStep(cfg: Config, planned: int, st: State, key: Event)
    requires ValidConfig(cfg) && st == StartedGame(cfg, Some(planned), planned - 1)
    requires key == Key(planned - 1, cfg.teams[0], true, None)
    ensures CanStep(cfg, st, key) && EarlyMove(cfg, planned, st, key) && !ChainHolds(cfg, Step(cfg, st, key))
    ensures var after := Step(cfg, st, key);
            && Rows(after.table) && cfg.teams[0] in after.table.path
            && HintsShown(after.hints.shown, Current(after.table, cfg.teams[0])) == [0, 0]
  {
    EarlyKeyCan(cfg, planned, st, key);
    var id := Current(st.table, key.team);
    StartShowsPuzzleOnce(cfg, Some(planned), planned - 1, id);
    EarlyKeyShows(cfg, planned, st, key);
  }

  // A job of a level the team has left shows nothing and schedules nothing, in any state at all.
  lemma LeftLevelStaysSilent(cfg: Config, st: State, job: HintJob)
    requires Rows(st.table) && job.team in st.table.path && job.level < |cfg.levels|
    requires job.hint < |cfg.levels[job.level].hints| && Current(st.table, job.team) != job.ltId
    ensures AfterHint(cfg, st, job).hints.shown == st.hints.shown
    ensures forall other :: AfterHint(cfg, st, job).hints.jobs[other] <= st.hints.jobs[other]
  {
  }
}
