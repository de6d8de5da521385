// The digest of a window against the schedule at its two ends: for a date that was there when the window
// opened and is still there when it closes, the folded log agrees with the difference between the two states.
module SeasonWindow {
  import opened Common
  import opened Sorting
  import opened SeasonDigest
  import opened SeasonSchedule

  // The rows of one date that the next digest will read.
  function WindowRows(st: State, year: int, id: nat): seq<Change> {
    GroupRows(Unpublished(st.rows, year), OfSlot(id))
  }

  function ChangesOf(rows: seq<LogRow>): seq<Change> {
    seq(|rows|, i requires 0 <= i < |rows| => rows[i].change)
  }

  // ----- How one step changes the rows of one date -----

  lemma {:induction false} UnpublishedOfConcat(a: seq<LogRow>, b: seq<LogRow>, season: int)
    ensures Unpublished(a + b, season) == Unpublished(a, season) + Unpublished(b, season)
  {
    if b == [] {
      assert a + b == a;
    } else {
      assert (a + b)[..|a + b| - 1] == a + b[..|b| - 1];
      UnpublishedOfConcat(a, b[..|b| - 1], season);
    }
  }

  // Every row of the list is an unpublished row of this date.
  ghost predicate AllOwn(rows: seq<LogRow>, year: int, id: nat) {
    forall i :: 0 <= i < |rows| ==>
      rows[i].season == year && !rows[i].published && rows[i].change.slotId == Some(id)
  }

  // No row of the list is a row of this date.
  ghost predicate NoneOwn(rows: seq<LogRow>, id: nat) {
    forall i :: 0 <= i < |rows| ==> rows[i].change.slotId != Some(id)
  }

  lemma {:induction false} OwnRowsStay(rows: seq<LogRow>, year: int, id: nat)
    requires AllOwn(rows, year, id)
    ensures GroupRows(Unpublished(rows, year), OfSlot(id)) == ChangesOf(rows)
  {
    if rows != [] {
      var before := rows[..|rows| - 1];
      OwnRowsStay(before, year, id);
      GroupRowsAppends(Unpublished(before, year), rows[|rows| - 1].change, OfSlot(id));
      assert ChangesOf(rows) == ChangesOf(before) + [rows[|rows| - 1].change];
    }
  }

  lemma {:induction false} StrangeRowsGo(rows: seq<LogRow>, year: int, id: nat)
    requires NoneOwn(rows, id)
    ensures GroupRows(Unpublished(rows, year), OfSlot(id)) == []
  {
    if rows != [] {
      var before := rows[..|rows| - 1];
      StrangeRowsGo(before, year, id);
      GroupRowsAppends(Unpublished(before, year), rows[|rows| - 1].change, OfSlot(id));
    }
  }

  lemma RecordedOwn(st: State, year: int, id: nat, drafts: seq<Draft>)
    ensures WindowRows(Recorded(st, year, Some(id), drafts), year, id) ==
            WindowRows(st, year, id) + ChangesOf(Stamped(st, year, Some(id), drafts))
  {
    var added := Stamped(st, year, Some(id), drafts);
    UnpublishedOfConcat(st.rows, added, year);
    GroupRowsOfConcat(Unpublished(st.rows, year), Unpublished(added, year), OfSlot(id));
    OwnRowsStay(added, year, id);
  }

  lemma RecordedStrange(st: State, season: int, slotId: Option<nat>, drafts: seq<Draft>, year: int, id: nat)
    requires slotId != Some(id)
    ensures WindowRows(Recorded(st, season, slotId, drafts), year, id) == WindowRows(st, year, id)
  {
    var added := Stamped(st, season, slotId, drafts);
    UnpublishedOfConcat(st.rows, added, year);
    GroupRowsOfConcat(Unpublished(st.rows, year), Unpublished(added, year), OfSlot(id));
    StrangeRowsGo(added, year, id);
  }

  lemma {:induction false} DetachedStrange(rows: seq<LogRow>, other: nat, year: int, id: nat)
    requires other != id
    ensures GroupRows(Unpublished(Detached(rows, other), year), OfSlot(id)) ==
            GroupRows(Unpublished(rows, year), OfSlot(id))
  {
    if rows != [] {
      var before, last := rows[..|rows| - 1], rows[|rows| - 1];
      var detached := Detached(rows, other);
      DetachedStrange(before, other, year, id);
      assert detached[..|rows| - 1] == Detached(before, other);
      GroupRowsAppends(Unpublished(before, year), last.change, OfSlot(id));
      GroupRowsAppends(Unpublished(Detached(before, other), year), detached[|rows| - 1].change, OfSlot(id));
    }
  }

  lemma {:induction false} MarkedStrange(rows: seq<LogRow>, season: int, year: int)
    requires season != year
    ensures Unpublished(MarkedPublished(rows, season), year) == Unpublished(rows, year)
  {
    if rows != [] {
      MarkedStrange(rows[..|rows| - 1], season, year);
      assert MarkedPublished(rows, season)[..|rows| - 1] == MarkedPublished(rows[..|rows| - 1], season);
    }
  }

  // After a digest nothing of the season is left unpublished.
  lemma {:induction false} DigestEmptiesWindow(rows: seq<LogRow>, season: int)
    ensures Unpublished(MarkedPublished(rows, season), season) == []
  {
    if rows != [] {
      DigestEmptiesWindow(rows[..|rows| - 1], season);
      assert MarkedPublished(rows, season)[..|rows| - 1] == MarkedPublished(rows[..|rows| - 1], season);
    }
  }

  // The edit a step makes to this date, if it makes one.
  ghost function EditOf(st: State, ev: Event, id: nat): Option<Edit> {
    match ev
    case EditSlot(year, other, edit) => if other == id && Attempt(st, ev).Ok? then Some(edit) else None
    case FollowGame(gameId, started) =>
      if SlotsOfGame(st.slots, gameId) == {id} then Some(Follow(started)) else None
    case _ => None
  }

  // What a step does to a date that survives it: nothing, or one edit, whose rows are appended.
  lemma StepOnSlot(st: State, ev: Event, id: nat)
    requires Safe(st) && id in st.slots && id in Step(st, ev).slots
    requires ev != PublishDigest(st.slots[id].year)
    ensures var slot := st.slots[id];
            var st' := Step(st, ev);
            match EditOf(st, ev, id)
            case None => st'.slots[id] == slot && WindowRows(st', slot.year, id) == WindowRows(st, slot.year, id)
            case Some(edit) =>
              && st'.slots[id] == Edited(slot, edit).0
              && WindowRows(st', slot.year, id) ==
                 WindowRows(st, slot.year, id)
                 + ChangesOf(Stamped(st, slot.year, Some(id), Edited(slot, edit).1))
  {
    var slot := st.slots[id];
    if Attempt(st, ev).Ok? {
      match ev
      case Wait(time) =>
      case PublishSeason(year, drafts) =>
        AddedDraftsKeeps(st.(seasons := st.seasons + {year}), year, Sort(Earlier, drafts));
      case AddSlot(year, day, note) =>
        RecordedStrange(AddedSlot(st, year, day, note), year, Some(st.nextSlot),
                        [Draft(SlotAdded, NO_PAYLOAD.(date := Some(day), note := note))], slot.year, id);
      case RemoveSlot(year, other) => RemoveElsewhere(st, other, id);
      case EditSlot(year, other, edit) => EditOnSlot(st, other, edit, id);
      case FollowGame(gameId, started) => FollowOnSlot(st, gameId, started, id);
      case PublishDigest(year) => MarkedStrange(st.rows, year, slot.year);
    }
  }

  lemma RemoveElsewhere(st: State, other: nat, id: nat)
    requires other in st.slots && id in st.slots && other != id
    ensures var year := st.slots[id].year;
            WindowRows(RemovedState(st, other), year, id) == WindowRows(st, year, id)
  {
    var slot := st.slots[other];
    DetachedStrange(st.rows, other, st.slots[id].year, id);
    RecordedStrange(st.(rows := Detached(st.rows, other), slots := st.slots - {other}), slot.year, None,
                    [Draft(SlotRemoved, NO_PAYLOAD.(date := Some(slot.date)))], st.slots[id].year, id);
  }

  lemma EditKeepsYear(slot: Slot, edit: Edit)
    ensures Edited(slot, edit).0.year == slot.year
  {
  }

  lemma EditOnSlot(st: State, other: nat, edit: Edit, id: nat)
    requires other in st.slots && id in st.slots
    ensures var year := st.slots[id].year;
            var st' := EditedState(st, other, edit);
            && id in st'.slots
            && (other != id ==> st'.slots[id] == st.slots[id] && WindowRows(st', year, id) == WindowRows(st, year, id))
            && (other == id ==>
                 && st'.slots[id] == Edited(st.slots[id], edit).0
                 && WindowRows(st', year, id) ==
                    WindowRows(st, year, id)
                    + ChangesOf(Stamped(st, year, Some(id), Edited(st.slots[id], edit).1)))
  {
    var (slot, drafts) := Edited(st.slots[other], edit);
    var edited := st.(slots := st.slots[other := slot]);
    EditKeepsYear(st.slots[other], edit);
    if other == id {
      RecordedOwn(edited, slot.year, id, drafts);
      assert Stamped(edited, slot.year, Some(id), drafts) == Stamped(st, slot.year, Some(id), drafts);
    } else {
      RecordedStrange(edited, slot.year, Some(other), drafts, st.slots[id].year, id);
    }
  }

  lemma OneSlotOfGame(slots: map<nat, Slot>, gameId: nat, id: nat)
    requires GameOnce(slots) && id in SlotsOfGame(slots, gameId)
    ensures SlotsOfGame(slots, gameId) == {id}
  {
    forall other | other in SlotsOfGame(slots, gameId) ensures other == id {
      assert SameGame(slots[other], slots[id]);
    }
  }

  lemma FollowOnSlot(st: State, gameId: nat, started: Option<Date>, id: nat)
    requires Safe(st) && id in st.slots
    ensures var year := st.slots[id].year;
            var st' := Step(st, FollowGame(gameId, started));
            && id in st'.slots
            && (SlotsOfGame(st.slots, gameId) != {id} ==>
                  st'.slots[id] == st.slots[id] && WindowRows(st', year, id) == WindowRows(st, year, id))
            && (SlotsOfGame(st.slots, gameId) == {id} ==>
                  && st'.slots[id] == Edited(st.slots[id], Follow(started)).0
                  && WindowRows(st', year, id) ==
                     WindowRows(st, year, id)
                     + ChangesOf(Stamped(st, year, Some(id), Edited(st.slots[id], Follow(started)).1)))
  {
    var ids := SlotsOfGame(st.slots, gameId);
    if ids != {} {
      var other :| other in ids && Step(st, FollowGame(gameId, started)) == EditedState(st, other, Follow(started));
      OneSlotOfGame(st.slots, gameId, other);
      EditOnSlot(st, other, Follow(started), id);
    }
  }

  // ----- Folding the appended rows -----

  function AppliedDraft(d: Digest, draft: Draft): Digest {
    Applied(d, Change(0, 0, None, draft.kind, draft.payload))
  }

  function AppliedDrafts(d: Digest, drafts: seq<Draft>): Digest {
    if drafts == [] then d
    else AppliedDraft(AppliedDrafts(d, drafts[..|drafts| - 1]), drafts[|drafts| - 1])
  }

  lemma {:induction false} FoldStamped(rows: seq<Change>, st: State, year: int, id: nat, drafts: seq<Draft>)
    ensures Fold(rows + ChangesOf(Stamped(st, year, Some(id), drafts))) == AppliedDrafts(Fold(rows), drafts)
  {
    var changes := ChangesOf(Stamped(st, year, Some(id), drafts));
    if drafts == [] {
      assert rows + changes == rows;
    } else {
      var before := drafts[..|drafts| - 1];
      FoldStamped(rows, st, year, id, before);
      assert changes == ChangesOf(Stamped(st, year, Some(id), before)) + [changes[|drafts| - 1]];
      assert rows + changes == rows + ChangesOf(Stamped(st, year, Some(id), before)) + [changes[|drafts| - 1]];
      FoldAppends(rows + ChangesOf(Stamped(st, year, Some(id), before)), changes[|drafts| - 1]);
    }
  }

  // Following the moves from `day`, each of which has to start where the last one ended.
  function Replay(day: Date, rows: seq<Change>): Option<Date> {
    if rows == [] then Some(day)
    else
      var before := Replay(day, rows[..|rows| - 1]);
      var last := rows[|rows| - 1];
      if last.kind != SlotMoved then before
      else if before.Some? && last.payload.from_ == before then last.payload.to
      else None
  }

  lemma {:induction false} ReplayOfConcat(day: Date, a: seq<Change>, b: seq<Change>)
    requires Replay(day, a).Some?
    ensures Replay(day, a + b) == Replay(Replay(day, a).value, b)
  {
    if b == [] {
      assert a + b == a;
    } else {
      assert (a + b)[..|a + b| - 1] == a + b[..|b| - 1];
      ReplayOfConcat(day, a, b[..|b| - 1]);
    }
  }

  lemma ReplayByHand(day: Date, changes: seq<Change>)
    ensures |changes| == 1 ==>
              Replay(day, changes) ==
              if changes[0].kind != SlotMoved then Some(day)
              else if changes[0].payload.from_ == Some(day) then changes[0].payload.to else None
    ensures |changes| == 2 && changes[0].kind != SlotMoved ==>
              Replay(day, changes) ==
              if changes[1].kind != SlotMoved then Some(day)
              else if changes[1].payload.from_ == Some(day) then changes[1].payload.to else None
  {
    if |changes| == 1 { assert changes[..0] == []; }
    if |changes| == 2 {
      assert changes[..1][..0] == [];
      assert Replay(day, changes[..1]) == if changes[0].kind != SlotMoved then Some(day) else Replay(day, changes[..1]);
    }
  }

  // Every edit writes a move from where the date was to where it is now, or none if it stays.
  lemma EditReplays(slot: Slot, edit: Edit, st: State, id: nat)
    ensures Replay(slot.date, ChangesOf(Stamped(st, slot.year, Some(id), Edited(slot, edit).1)))
            == Some(Edited(slot, edit).0.date)
  {
    ReplayByHand(slot.date, ChangesOf(Stamped(st, slot.year, Some(id), Edited(slot, edit).1)));
  }

  // ----- What the fold says at every moment of the window -----

  // The part of the digest that tells the date.
  ghost predicate DateWords(start: Slot, now: Slot, d: Digest, touched: bool) {
    && !d.added && !d.removed
    && (d.dateBefore.None? ==> d.dateAfter.None? && now.date == start.date)
    && (d.dateBefore.Some? ==> d.dateBefore == Some(start.date) && d.dateAfter == Some(now.date))
    && (touched ==> d.day == Some(now.date))
    && (!touched ==> d == FRESH && now == start)
  }

  ghost predicate GameWords(now: Slot, d: Digest) {
    && d.game == (if now.game.Some? then Some(now.game.value.name) else None)
    && !d.gameUnlinked
  }

  ghost predicate OwnerWords(now: Slot, d: Digest) {
    d.owner == now.owner && !d.released
  }

  lemma EditKeepsDateWords(start: Slot, slot: Slot, d: Digest, touched: bool, edit: Edit)
    requires DateWords(start, slot, d, touched)
    ensures var (slot', drafts) := Edited(slot, edit);
            DateWords(start, slot', AppliedDrafts(d, drafts), touched || drafts != [])
  {
    var (slot', drafts) := Edited(slot, edit);
    DraftsByHand(d, drafts);
  }

  lemma DraftsByHand(d: Digest, drafts: seq<Draft>)
    ensures |drafts| == 0 ==> AppliedDrafts(d, drafts) == d
    ensures |drafts| == 1 ==> AppliedDrafts(d, drafts) == AppliedDraft(d, drafts[0])
    ensures |drafts| == 2 ==> AppliedDrafts(d, drafts) == AppliedDraft(AppliedDraft(d, drafts[0]), drafts[1])
  {
    if |drafts| > 0 { assert drafts[..1][..0] == []; }
    if |drafts| == 1 { assert drafts[..1] == drafts; }
  }

  lemma EditKeepsGameWords(slot: Slot, d: Digest, edit: Edit)
    requires GameWords(slot, d)
    ensures var (slot', drafts) := Edited(slot, edit); GameWords(slot', AppliedDrafts(d, drafts))
  {
    DraftsByHand(d, Edited(slot, edit).1);
  }

  ghost predicate NoteWords(start: Slot, now: Slot, d: Digest) {
    if d.noteChanged then d.note == now.note else now.note == start.note
  }

  lemma EditKeepsNoteWords(start: Slot, slot: Slot, d: Digest, edit: Edit)
    requires NoteWords(start, slot, d)
    ensures var (slot', drafts) := Edited(slot, edit); NoteWords(start, slot', AppliedDrafts(d, drafts))
  {
    DraftsByHand(d, Edited(slot, edit).1);
  }

  ghost predicate OrgsWords(start: Slot, now: Slot, d: Digest) {
    if d.orgsChanged then d.orgs == now.orgs && d.orgsBefore == start.orgs else now.orgs == start.orgs
  }

  // A sign-up and a release set the organizers without a row that says so.
  predicate SpoilsOrgsWords(slot: Slot, edit: Edit) {
    (edit.Take? || edit.Release?) && Edited(slot, edit).0.orgs != slot.orgs
  }

  lemma OrgsWordsSpoiledIff(start: Slot, slot: Slot, d: Digest, edit: Edit)
    requires OrgsWords(start, slot, d)
    ensures var (slot', drafts) := Edited(slot, edit);
            OrgsWords(start, slot', AppliedDrafts(d, drafts)) <==> !SpoilsOrgsWords(slot, edit)
  {
    DraftsByHand(d, Edited(slot, edit).1);
  }

  // The edits after which the owner word cannot be right: a link that takes a free date for the game's
  // author without saying so, a release of a date nobody holds, and a player signing up for themselves
  // while naming a team, which is then recorded in their place.
  predicate SpoilsOwnerWords(slot: Slot, edit: Edit) {
    match edit
    case Link(_) => slot.owner.None?
    case Release => slot.owner.None?
    case Take(author, _) => RecordedName(author) != DisplayedName(author)
    case _ => false
  }

  lemma OwnerWordsSpoiledIff(slot: Slot, d: Digest, edit: Edit)
    requires OwnerWords(slot, d)
    ensures var (slot', drafts) := Edited(slot, edit);
            OwnerWords(slot', AppliedDrafts(d, drafts)) <==> !SpoilsOwnerWords(slot, edit)
  {
    DraftsByHand(d, Edited(slot, edit).1);
  }

  // ----- The window -----

  // A run of the schedule in which no digest of this season is published.
  ghost predicate WithinWindow(year: int, events: seq<Event>) {
    forall i :: 0 <= i < |events| ==> events[i] != PublishDigest(year)
  }

  // What the next digest will say about the date.
  function WindowDigest(st: State, year: int, id: nat): Digest {
    Fold(WindowRows(st, year, id))
  }

  lemma SurvivorWasThere(st: State, ev: Event, id: nat)
    requires Safe(st) && id < st.nextSlot && id in Step(st, ev).slots
    ensures id in st.slots
  {
    if Attempt(st, ev).Ok? {
      match ev
      case PublishSeason(year, drafts) =>
        AddedDraftsKeeps(st.(seasons := st.seasons + {year}), year, Sort(Earlier, drafts));
      case FollowGame(gameId, started) =>
        if SlotsOfGame(st.slots, gameId) != {} {
          var other :| other in SlotsOfGame(st.slots, gameId)
              && Step(st, ev) == EditedState(st, other, Follow(started));
        }
      case _ =>
    }
  }

  // The run up to and including its last event but one.
  ghost function Before(st: State, events: seq<Event>): State
    requires events != []
  {
    Run(st, events[..|events| - 1])
  }

  // A date of the run's last state that was there at the start was there all along.
  lemma {:induction false} SurvivorWasThereBefore(st: State, events: seq<Event>, id: nat)
    requires Safe(st) && id in st.slots && events != [] && id in Run(st, events).slots
    ensures Safe(Before(st, events)) && id in Before(st, events).slots
  {
    var before := events[..|events| - 1];
    RunKeepsSafe(st, before);
    SlotIdsGrow(st, before);
    SurvivorWasThere(Run(st, before), events[|events| - 1], id);
  }

  lemma {:induction false} SlotIdsGrow(st: State, events: seq<Event>)
    requires Safe(st)
    ensures st.nextSlot <= Run(st, events).nextSlot
  {
    if events != [] {
      SlotIdsGrow(st, events[..|events| - 1]);
      RunKeepsSafe(st, events[..|events| - 1]);
      StepKeepsSafe(Run(st, events[..|events| - 1]), events[|events| - 1]);
    }
  }

  // One step of the window, folded.
  lemma StepFolds(st: State, ev: Event, id: nat)
    requires Safe(st) && id in st.slots && id in Step(st, ev).slots
    requires ev != PublishDigest(st.slots[id].year)
    ensures var slot := st.slots[id];
            var st' := Step(st, ev);
            && st'.slots[id].year == slot.year
            && (EditOf(st, ev, id).None? ==>
                  st'.slots[id] == slot && WindowRows(st', slot.year, id) == WindowRows(st, slot.year, id))
            && (EditOf(st, ev, id).Some? ==>
                  var (slot', drafts) := Edited(slot, EditOf(st, ev, id).value);
                  && st'.slots[id] == slot'
                  && WindowDigest(st', slot.year, id) == AppliedDrafts(WindowDigest(st, slot.year, id), drafts)
                  && |WindowRows(st', slot.year, id)| == |WindowRows(st, slot.year, id)| + |drafts|)
  {
    StepOnSlot(st, ev, id);
    if EditOf(st, ev, id).Some? {
      var slot, edit := st.slots[id], EditOf(st, ev, id).value;
      EditKeepsYear(slot, edit);
      FoldStamped(WindowRows(st, slot.year, id), st, slot.year, id, Edited(slot, edit).1);
    }
  }

  // Replaying the moves of the window from the day it opened always leads to where the date is now.
  lemma {:induction false} MovesAreChained(st: State, events: seq<Event>, id: nat)
    requires Safe(st) && id in st.slots && id in Run(st, events).slots
    requires WithinWindow(st.slots[id].year, events)
    requires Unpublished(st.rows, st.slots[id].year) == []
    ensures Run(st, events).slots[id].year == st.slots[id].year
    ensures Replay(st.slots[id].date, WindowRows(Run(st, events), st.slots[id].year, id))
            == Some(Run(st, events).slots[id].date)
  {
    if events != [] {
      SurvivorWasThereBefore(st, events, id);
      MovesAreChained(st, events[..|events| - 1], id);
      var before, ev := Before(st, events), events[|events| - 1];
      StepOnSlot(before, ev, id);
      if EditOf(before, ev, id).Some? {
        var slot, edit := before.slots[id], EditOf(before, ev, id).value;
        EditKeepsYear(slot, edit);
        EditReplays(slot, edit, before, id);
        ReplayOfConcat(st.slots[id].date, WindowRows(before, slot.year, id),
                       ChangesOf(Stamped(before, slot.year, Some(id), Edited(slot, edit).1)));
      }
    }
  }

  lemma {:induction false} WindowKeepsDateWords(st: State, events: seq<Event>, id: nat)
    requires Safe(st) && id in st.slots && id in Run(st, events).slots
    requires WithinWindow(st.slots[id].year, events)
    requires Unpublished(st.rows, st.slots[id].year) == []
    ensures var year, end := st.slots[id].year, Run(st, events);
            && end.slots[id].year == year
            && DateWords(st.slots[id], end.slots[id], WindowDigest(end, year, id), WindowRows(end, year, id) != [])
  {
    if events != [] {
      SurvivorWasThereBefore(st, events, id);
      WindowKeepsDateWords(st, events[..|events| - 1], id);
      var before, ev, year := Before(st, events), events[|events| - 1], st.slots[id].year;
      StepFolds(before, ev, id);
      if EditOf(before, ev, id).Some? {
        EditKeepsDateWords(st.slots[id], before.slots[id], WindowDigest(before, year, id),
                           WindowRows(before, year, id) != [], EditOf(before, ev, id).value);
      }
    }
  }

  // The digest refines the schedule. For a date that was there when the window opened and survives it,
  // the digest says "moved" exactly when the day differs at the two ends, and then names those two
  // days; it stands where the date stands; and it never says that the date was added or removed.
  lemma DigestRefinesState(st: State, events: seq<Event>, id: nat)
    requires Safe(st) && id in st.slots && id in Run(st, events).slots
    requires WithinWindow(st.slots[id].year, events)
    requires Unpublished(st.rows, st.slots[id].year) == []
    ensures var start, end := st.slots[id], Run(st, events).slots[id];
            var d := WindowDigest(Run(st, events), start.year, id);
            && (d.Moved() <==> start.date != end.date)
            && (d.Moved() ==> d.dateBefore == Some(start.date) && d.dateAfter == Some(end.date))
            && (WindowRows(Run(st, events), start.year, id) != [] ==> d.day == Some(end.date))
            && (WindowRows(Run(st, events), start.year, id) == [] ==> d.IsEmpty() && start == end)
            && !d.added && !d.removed
  {
    WindowKeepsDateWords(st, events, id);
  }

  // A date that was free of games when the window opened is announced with the game it ends with, or
  // with none; it is never announced as having lost one.
  lemma {:induction false} DigestNamesFinalGame(st: State, events: seq<Event>, id: nat)
    requires Safe(st) && id in st.slots && id in Run(st, events).slots
    requires WithinWindow(st.slots[id].year, events)
    requires Unpublished(st.rows, st.slots[id].year) == [] && st.slots[id].game.None?
    ensures Run(st, events).slots[id].year == st.slots[id].year
    ensures GameWords(Run(st, events).slots[id], WindowDigest(Run(st, events), st.slots[id].year, id))
  {
    if events != [] {
      SurvivorWasThereBefore(st, events, id);
      DigestNamesFinalGame(st, events[..|events| - 1], id);
      var before, ev := Before(st, events), events[|events| - 1];
      StepFolds(before, ev, id);
      if EditOf(before, ev, id).Some? {
        EditKeepsGameWords(before.slots[id], WindowDigest(before, st.slots[id].year, id), EditOf(before, ev, id).value);
      }
    }
  }

  // The note a date is announced with is the one it ends with, and it is announced unless it stayed as it was.
  lemma {:induction false} DigestTellsFinalNote(st: State, events: seq<Event>, id: nat)
    requires Safe(st) && id in st.slots && id in Run(st, events).slots
    requires WithinWindow(st.slots[id].year, events)
    requires Unpublished(st.rows, st.slots[id].year) == []
    ensures Run(st, events).slots[id].year == st.slots[id].year
    ensures NoteWords(st.slots[id], Run(st, events).slots[id], WindowDigest(Run(st, events), st.slots[id].year, id))
  {
    if events != [] {
      SurvivorWasThereBefore(st, events, id);
      DigestTellsFinalNote(st, events[..|events| - 1], id);
      var before, ev := Before(st, events), events[|events| - 1];
      StepFolds(before, ev, id);
      if EditOf(before, ev, id).Some? {
        EditKeepsNoteWords(st.slots[id], before.slots[id], WindowDigest(before, st.slots[id].year, id),
                           EditOf(before, ev, id).value);
      }
    }
  }

  ghost predicate OrgsRight(start: Slot, now: State, id: nat) {
    id in now.slots && OrgsWords(start, now.slots[id], WindowDigest(now, now.slots[id].year, id))
  }

  ghost predicate OrgsRightAt(st: State, events: seq<Event>, id: nat, n: nat)
    requires n <= |events| && id in st.slots
  {
    OrgsRight(st.slots[id], Run(st, events[..n]), id)
  }

  ghost predicate SpoilsOrgs(st: State, ev: Event, id: nat) {
    id in st.slots && EditOf(st, ev, id).Some? && SpoilsOrgsWords(st.slots[id], EditOf(st, ev, id).value)
  }

  ghost predicate SpoilsOrgsAt(st: State, events: seq<Event>, id: nat, n: nat)
    requires n < |events|
  {
    SpoilsOrgs(Run(st, events[..n]), events[n], id)
  }

  ghost predicate OrgsAlwaysRight(st: State, events: seq<Event>, id: nat)
    requires id in st.slots
  {
    forall n :: 0 <= n <= |events| ==> OrgsRightAt(st, events, id, n)
  }

  ghost predicate OrgsSpoiled(st: State, events: seq<Event>, id: nat) {
    exists n :: 0 <= n < |events| && SpoilsOrgsAt(st, events, id, n)
  }

  lemma OrgsPrefixesAgree(st: State, events: seq<Event>, id: nat)
    requires events != [] && id in st.slots
    ensures var earlier := events[..|events| - 1];
            && (OrgsAlwaysRight(st, events, id) <==>
                  OrgsAlwaysRight(st, earlier, id) && OrgsRightAt(st, events, id, |events|))
            && (OrgsSpoiled(st, events, id) <==>
                  OrgsSpoiled(st, earlier, id) || SpoilsOrgsAt(st, events, id, |events| - 1))
  {
    var earlier := events[..|events| - 1];
    forall n | 0 <= n <= |earlier| ensures OrgsRightAt(st, events, id, n) == OrgsRightAt(st, earlier, id, n) {
      assert events[..n] == earlier[..n];
    }
    forall n | 0 <= n < |earlier| ensures SpoilsOrgsAt(st, events, id, n) == SpoilsOrgsAt(st, earlier, id, n) {
      assert events[..n] == earlier[..n] && events[n] == earlier[n];
    }
  }

  // The organizers before and after are those of the two ends at every moment of the window exactly when
  // no sign-up or release changes them.
  lemma {:induction false} OrgsRightIffNotSpoiled(st: State, events: seq<Event>, id: nat)
    requires Safe(st) && id in st.slots && id in Run(st, events).slots
    requires WithinWindow(st.slots[id].year, events)
    requires Unpublished(st.rows, st.slots[id].year) == []
    ensures Run(st, events).slots[id].year == st.slots[id].year
    ensures OrgsAlwaysRight(st, events, id) <==> !OrgsSpoiled(st, events, id)
  {
    if events == [] {
      assert events[..0] == events;
      assert OrgsRightAt(st, events, id, 0);
    } else {
      var last := |events| - 1;
      var earlier := events[..last];
      SurvivorWasThereBefore(st, events, id);
      OrgsRightIffNotSpoiled(st, earlier, id);
      OrgsPrefixesAgree(st, events, id);
      assert events[..|events|] == events;
      var before, ev := Before(st, events), events[last];
      StepFolds(before, ev, id);
      if OrgsAlwaysRight(st, earlier, id) {
        assert earlier[..last] == earlier;
        assert OrgsRightAt(st, earlier, id, last);
        StepSpoilsOrgsIff(st.slots[id], before, ev, id);
      }
    }
  }

  lemma StepSpoilsOrgsIff(start: Slot, st: State, ev: Event, id: nat)
    requires Safe(st) && id in st.slots && id in Step(st, ev).slots
    requires ev != PublishDigest(st.slots[id].year) && OrgsRight(start, st, id)
    ensures OrgsRight(start, Step(st, ev), id) <==> !SpoilsOrgs(st, ev, id)
  {
    StepFolds(st, ev, id);
    if EditOf(st, ev, id).Some? {
      OrgsWordsSpoiledIff(start, st.slots[id], WindowDigest(st, st.slots[id].year, id), EditOf(st, ev, id).value);
    }
  }

  // Some step of the run spoils what the digest says about the owner of the date.
  ghost predicate Spoiled(st: State, events: seq<Event>, id: nat) {
    exists n :: 0 <= n < |events| && SpoiledAt(st, events, id, n)
  }

  ghost predicate SpoiledAt(st: State, events: seq<Event>, id: nat, n: nat)
    requires n < |events|
  {
    SpoilsOwner(Run(st, events[..n]), events[n], id)
  }

  // At every moment of the run the owner word is right: it names whoever holds the date, and the date
  // is not said to have been released.
  ghost predicate OwnerAlwaysRight(st: State, events: seq<Event>, id: nat) {
    forall n :: 0 <= n <= |events| ==> OwnerRightAt(st, events, id, n)
  }

  ghost predicate OwnerRightAt(st: State, events: seq<Event>, id: nat, n: nat)
    requires n <= |events|
  {
    OwnerRight(Run(st, events[..n]), id)
  }

  ghost predicate OwnerRight(now: State, id: nat) {
    id in now.slots && OwnerWords(now.slots[id], WindowDigest(now, now.slots[id].year, id))
  }

  ghost predicate SpoilsOwner(st: State, ev: Event, id: nat) {
    id in st.slots && EditOf(st, ev, id).Some? && SpoilsOwnerWords(st.slots[id], EditOf(st, ev, id).value)
  }

  lemma StepSpoilsOwnerIff(st: State, ev: Event, id: nat)
    requires Safe(st) && id in st.slots && id in Step(st, ev).slots
    requires ev != PublishDigest(st.slots[id].year) && OwnerRight(st, id)
    ensures OwnerRight(Step(st, ev), id) <==> !SpoilsOwner(st, ev, id)
  {
    StepFolds(st, ev, id);
    if EditOf(st, ev, id).Some? {
      OwnerWordsSpoiledIff(st.slots[id], WindowDigest(st, st.slots[id].year, id), EditOf(st, ev, id).value);
    }
  }

  // A date that starts free is announced with the right owner at every moment of the window exactly when
  // no link takes it silently, no release finds it free, and nobody's sign-up is recorded under another name.
  lemma {:induction false} OwnerRightIffNotSpoiled(st: State, events: seq<Event>, id: nat)
    requires Safe(st) && id in st.slots && id in Run(st, events).slots
    requires WithinWindow(st.slots[id].year, events)
    requires Unpublished(st.rows, st.slots[id].year) == [] && st.slots[id].owner.None?
    ensures Run(st, events).slots[id].year == st.slots[id].year
    ensures OwnerAlwaysRight(st, events, id) <==> !Spoiled(st, events, id)
  {
    if events == [] {
      assert events[..0] == events;
      assert OwnerRightAt(st, events, id, 0);
    } else {
      var last := |events| - 1;
      var earlier := events[..last];
      SurvivorWasThereBefore(st, events, id);
      OwnerRightIffNotSpoiled(st, earlier, id);
      PrefixesAgree(st, events, id);
      assert events[..|events|] == events;
      var before, ev := Before(st, events), events[last];
      StepFolds(before, ev, id);
      if OwnerAlwaysRight(st, earlier, id) {
        assert earlier[..last] == earlier;
        assert OwnerRightAt(st, earlier, id, last);
        StepSpoilsOwnerIff(before, ev, id);
      }
    }
  }

  lemma PrefixesAgree(st: State, events: seq<Event>, id: nat)
    requires events != []
    ensures var earlier := events[..|events| - 1];
            && (OwnerAlwaysRight(st, events, id) <==>
                  OwnerAlwaysRight(st, earlier, id) && OwnerRightAt(st, events, id, |events|))
            && (Spoiled(st, events, id) <==>
                  Spoiled(st, earlier, id) || SpoiledAt(st, events, id, |events| - 1))
  {
    var earlier := events[..|events| - 1];
    forall n | 0 <= n <= |earlier| ensures events[..n] == earlier[..n] {}
    forall n | 0 <= n <= |earlier|
      ensures OwnerRightAt(st, events, id, n) == OwnerRightAt(st, earlier, id, n)
    {
      assert events[..n] == earlier[..n];
    }
    forall n | 0 <= n < |earlier|
      ensures SpoiledAt(st, events, id, n) == SpoiledAt(st, earlier, id, n)
    {
      assert events[..n] == earlier[..n] && events[n] == earlier[n];
    }
  }

  // ----- From the fold of one date to the digest that is published -----

  lemma {:induction false} UnpublishedInOrder(rows: seq<LogRow>, season: int)
    requires forall i, j :: 0 <= i < j < |rows| ==>
               rows[i].change.id < rows[j].change.id && rows[i].change.createdAt <= rows[j].change.createdAt
    ensures Sorted(WrittenBefore, Unpublished(rows, season))
    ensures forall c :: c in Unpublished(rows, season) ==> exists i :: 0 <= i < |rows| && rows[i].change == c
  {
    if rows != [] {
      var before := rows[..|rows| - 1];
      UnpublishedInOrder(before, season);
      forall c | c in Unpublished(before, season) ensures exists i :: 0 <= i < |rows| && rows[i].change == c {
        var i :| 0 <= i < |before| && before[i].change == c;
        assert rows[i].change == c;
      }
      forall c | c in Unpublished(before, season) ensures WrittenBefore(c, rows[|rows| - 1].change) {
        var i :| 0 <= i < |before| && before[i].change == c;
        assert rows[i].change == c;
      }
      SortedAppends(WrittenBefore, Unpublished(before, season), rows[|rows| - 1].change);
    }
  }

  lemma {:induction false} NonEmptyKeeps(digests: seq<Digest>, d: Digest)
    ensures d in NonEmpty(digests) <==> d in digests && !d.IsEmpty()
  {
    if digests != [] {
      var before := digests[..|digests| - 1];
      NonEmptyKeeps(before, d);
      assert digests == before + [digests[|digests| - 1]];
    }
  }

  lemma {:induction false} GroupHasKey(rows: seq<Change>, key: GroupKey)
    ensures GroupRows(rows, key) != [] ==> key in Keys(rows)
  {
    if key !in Keys(rows) { NoRowsOfUnseenGroup(rows, key); }
  }

  // What the published digest of the season says about a date is the fold of that date's own rows: the
  // line is there exactly when the fold is not empty.
  lemma PublishedDigestTellsWindow(st: State, id: nat)
    requires Safe(st) && id in st.slots
    ensures var year := st.slots[id].year;
            !WindowDigest(st, year, id).IsEmpty() ==>
              WindowDigest(st, year, id) in Collapsed(Unpublished(st.rows, year))
    ensures forall d :: d in Collapsed(Unpublished(st.rows, st.slots[id].year)) ==> !d.IsEmpty()
  {
    var rows := Unpublished(st.rows, st.slots[id].year);
    UnpublishedInOrder(st.rows, st.slots[id].year);
    SortOfSorted(WrittenBefore, rows);
    var digests := Digests(rows, Keys(rows));
    var listed := NonEmpty(digests);
    SortKeeps(ListedBefore, listed);
    var d := WindowDigest(st, st.slots[id].year, id);
    if !d.IsEmpty() {
      GroupHasKey(rows, OfSlot(id));
      var i :| 0 <= i < |Keys(rows)| && Keys(rows)[i] == OfSlot(id);
      assert digests[i] == d;
      NonEmptyKeeps(digests, d);
      assert d in multiset(listed);
      assert d in multiset(Sort(ListedBefore, listed));
    }
    forall x | x in Collapsed(rows) ensures !x.IsEmpty() {
      assert x in multiset(Sort(ListedBefore, listed));
      NonEmptyKeeps(digests, x);
    }
  }
}
