// What each call on the schedule does to the dates and to the rows, and when it is refused; and what of it all the
// published list tells.
module SeasonLaws {
  import opened Common
  import opened Sorting
  import opened SeasonDigest
  import opened SeasonSchedule
  import opened SeasonWindow
  import opened SeasonWords

  // ----- Edits of one date -----

  // The row an edit writes about a date: the `k`-th of the step.
  function RowOf(st: State, id: nat, k: nat, kind: ChangeType, payload: Payload): LogRow
    requires id in st.slots
  {
    LogRow(st.slots[id].year, false, Change(st.nextRow + k, st.clock, Some(id), kind, payload))
  }

  function About(day: Date): Payload { NO_PAYLOAD.(date := Some(day)) }

  // What a move writes: from where, to where, and under the day it leads to.
  function MoveRow(st: State, id: nat, k: nat, to: Date): LogRow
    requires id in st.slots
  {
    RowOf(st, id, k, SlotMoved, About(to).(from_ := Some(st.slots[id].date), to := Some(to)))
  }

  // The date became `slot`, these rows were appended, and nothing else changed.
  function Became(st: State, id: nat, slot: Slot, rows: seq<LogRow>): State {
    st.(slots := st.slots[id := slot], rows := st.rows + rows, nextRow := st.nextRow + |rows|)
  }

  // Refusals common to all calls on one date of a season.
  function Missing(st: State, year: int, id: nat): Option<Error> {
    if year !in st.seasons then Some(SeasonNotFound)
    else if id !in st.slots || st.slots[id].year != year then Some(SlotNotFound)
    else None
  }

  lemma StampedOne(st: State, year: int, id: nat, draft: Draft)
    ensures Stamped(st, year, Some(id), [draft])
         == [LogRow(year, false, Change(st.nextRow, st.clock, Some(id), draft.kind, draft.payload))]
  {
  }

  // A date is moved to a day of its own year; moving it to where it is changes nothing.
  lemma MoveSlotLaw(st: State, year: int, id: nat, day: Date)
    ensures Attempt(st, EditSlot(year, id, Move(day))) ==
              if Missing(st, year, id).Some? then Err(Missing(st, year, id).value)
              else if day / 366 != year then Err(WrongYear)
              else if st.slots[id].date == day then Ok(st)
              else Ok(Became(st, id, st.slots[id].(date := day), [MoveRow(st, id, 0, day)]))
  {
    if Missing(st, year, id).None? {
      var moved := st.(slots := st.slots[id := st.slots[id].(date := day)]);
      StampedOne(moved, year, id, MovedDraft(st.slots[id].date, day));
      if st.slots[id].date == day {
        assert st.slots[id := st.slots[id]] == st.slots;
        assert EditedState(st, id, Move(day)) == st;
      }
    }
  }

  // The date a game sits in follows its start; without a start, or without such a date, nothing happens.
  lemma FollowGameLaw(st: State, gameId: nat, started: Option<Date>)
    requires Safe(st)
    ensures started.None? || (forall id :: id in st.slots ==> !SeasonSchedule.Holds(st.slots[id], gameId)) ==>
              Step(st, FollowGame(gameId, started)) == st
    ensures forall id :: id in st.slots && SeasonSchedule.Holds(st.slots[id], gameId) && started.Some? ==>
              Step(st, FollowGame(gameId, started)) ==
                if st.slots[id].date == started.value then st
                else Became(st, id, st.slots[id].(date := started.value), [MoveRow(st, id, 0, started.value)])
  {
    var ids := SlotsOfGame(st.slots, gameId);
    if ids != {} {
      var id :| id in ids && Step(st, FollowGame(gameId, started)) == EditedState(st, id, Follow(started));
      OneSlotOfGame(st.slots, gameId, id);
      FollowsLaw(st, id, started);
      forall other | other in st.slots && SeasonSchedule.Holds(st.slots[other], gameId) ensures other == id {
        assert other in ids;
      }
    } else {
      forall id | id in st.slots ensures !SeasonSchedule.Holds(st.slots[id], gameId) { assert id !in ids; }
    }
  }

  lemma FollowsLaw(st: State, id: nat, started: Option<Date>)
    requires id in st.slots
    ensures EditedState(st, id, Follow(started)) ==
              if started.None? || st.slots[id].date == started.value then st
              else Became(st, id, st.slots[id].(date := started.value), [MoveRow(st, id, 0, started.value)])
  {
    assert st.slots[id := st.slots[id]] == st.slots;
    if started.Some? {
      var moved := st.(slots := st.slots[id := st.slots[id].(date := started.value)]);
      StampedOne(moved, st.slots[id].year, id, MovedDraft(st.slots[id].date, started.value));
    }
  }

  lemma EditSlotNoteLaw(st: State, year: int, id: nat, note: Option<string>)
    ensures Attempt(st, EditSlot(year, id, EditNote(note))) ==
              if Missing(st, year, id).Some? then Err(Missing(st, year, id).value)
              else Ok(Became(st, id, st.slots[id].(note := note),
                             [RowOf(st, id, 0, SlotNoteChanged, About(st.slots[id].date).(note := note))]))
  {
    if Missing(st, year, id).None? {
      StampedOne(st.(slots := st.slots[id := st.slots[id].(note := note)]), year, id,
                 Draft(SlotNoteChanged, About(st.slots[id].date).(note := note)));
    }
  }

  // A player signs up for themselves or, as its captain, for a team, which must be named then. Shown is the one
  // signed up; recorded is the team whenever one is named.
  lemma TakeSlotLaw(st: State, year: int, id: nat, author: Author, orgs: seq<string>)
    ensures Attempt(st, EditSlot(year, id, Take(author, orgs))) ==
              if Missing(st, year, id).Some? then Err(Missing(st, year, id).value)
              else if author.kind == TeamAuthor && author.team.None? then Err(SlotAuthorInvalid)
              else
                var shown := if author.kind == TeamAuthor then author.team.value else author.player;
                var recorded := if author.team.Some? then author.team.value else author.player;
                Ok(Became(st, id, st.slots[id].(owner := Some(shown), orgs := orgs),
                          [RowOf(st, id, 0, SlotTaken,
                                 About(st.slots[id].date).(author := Some(recorded), orgs := orgs))]))
  {
    if Missing(st, year, id).None? {
      StampedOne(st.(slots := st.slots[id := st.slots[id].(owner := Some(DisplayedName(author)), orgs := orgs)]), year,
                 id, Draft(SlotTaken, About(st.slots[id].date).(author := Some(RecordedName(author)), orgs := orgs)));
    }
  }

  // Only a date without a game is given up; its owner and its organizers go.
  lemma ReleaseSlotLaw(st: State, year: int, id: nat)
    ensures Attempt(st, EditSlot(year, id, Release)) ==
              if Missing(st, year, id).Some? then Err(Missing(st, year, id).value)
              else if st.slots[id].game.Some? then Err(SlotAlreadyLinked)
              else Ok(Became(st, id, st.slots[id].(owner := None, orgs := []),
                             [RowOf(st, id, 0, SlotReleased,
                                    About(st.slots[id].date).(author := st.slots[id].owner))]))
  {
    if Missing(st, year, id).None? {
      StampedOne(st.(slots := st.slots[id := st.slots[id].(owner := None, orgs := [])]), year, id,
                 Draft(SlotReleased, About(st.slots[id].date).(author := st.slots[id].owner)));
    }
  }

  // The list before is recorded with the list set.
  lemma SetSlotOrgsLaw(st: State, year: int, id: nat, orgs: seq<string>)
    ensures Attempt(st, EditSlot(year, id, SetOrgs(orgs))) ==
              if Missing(st, year, id).Some? then Err(Missing(st, year, id).value)
              else Ok(Became(st, id, st.slots[id].(orgs := orgs),
                             [RowOf(st, id, 0, SlotOrgsChanged,
                                    About(st.slots[id].date).(orgs := orgs, orgsBefore := st.slots[id].orgs))]))
  {
    if Missing(st, year, id).None? {
      StampedOne(st.(slots := st.slots[id := st.slots[id].(orgs := orgs)]), year, id,
                 Draft(SlotOrgsChanged, About(st.slots[id].date).(orgs := orgs, orgsBefore := st.slots[id].orgs)));
    }
  }

  // The date as a link leaves it: the game's author holds it if nobody did, and it is on the day the game starts.
  function LinkedTo(slot: Slot, game: Game): Slot {
    slot.(owner := if slot.owner.None? then Some(game.author) else slot.owner,
          game := Some(LinkedGame(game.id, game.name)),
          date := if game.start.Some? then game.start.value else slot.date)
  }

  // A game is linked to one date only, and a date to one game only; linking the same game again is allowed.
  lemma LinkGameLaw(st: State, year: int, id: nat, game: Game)
    ensures Attempt(st, EditSlot(year, id, Link(game))) ==
              if Missing(st, year, id).Some? then Err(Missing(st, year, id).value)
              else if exists other :: other in st.slots && other != id && SeasonSchedule.Holds(st.slots[other], game.id)
                then Err(GameAlreadyInSchedule)
              else if st.slots[id].game.Some? && st.slots[id].game.value.id != game.id then Err(SlotAlreadyLinked)
              else
                var linked := RowOf(st, id, 0, SlotGameLinked,
                                    About(st.slots[id].date).(game := Some(game.name)));
                var moves := game.start.Some? && game.start.value != st.slots[id].date;
                Ok(Became(st, id, LinkedTo(st.slots[id], game),
                          if moves then [linked, MoveRow(st, id, 1, game.start.value)] else [linked]))
  {
    if other :| other in st.slots && other != id && SeasonSchedule.Holds(st.slots[other], game.id) {
      assert other in SlotsOfGame(st.slots, game.id);
    }
    if Missing(st, year, id).None? { LinkedLaw(st, id, game); }
  }

  lemma LinkedLaw(st: State, id: nat, game: Game)
    requires id in st.slots
    ensures EditedState(st, id, Link(game)) ==
              var linked := RowOf(st, id, 0, SlotGameLinked,
                                  About(st.slots[id].date).(game := Some(game.name)));
              var moves := game.start.Some? && game.start.value != st.slots[id].date;
              Became(st, id, LinkedTo(st.slots[id], game),
                     if moves then [linked, MoveRow(st, id, 1, game.start.value)] else [linked])
  {
    var (slot, drafts) := Edited(st.slots[id], Link(game));
    var moves := game.start.Some? && game.start.value != st.slots[id].date;
    var linked := RowOf(st, id, 0, SlotGameLinked, About(st.slots[id].date).(game := Some(game.name)));
    var rows := if moves then [linked, MoveRow(st, id, 1, game.start.value)] else [linked];
    assert slot == LinkedTo(st.slots[id], game);
    assert |drafts| == |rows|;
    assert Stamped(st.(slots := st.slots[id := slot]), slot.year, Some(id), drafts) == rows;
  }

  // A date without a game stays as it is.
  lemma UnlinkGameLaw(st: State, year: int, id: nat)
    ensures Attempt(st, EditSlot(year, id, Unlink)) ==
              if Missing(st, year, id).Some? then Err(Missing(st, year, id).value)
              else if st.slots[id].game.None? then Ok(st)
              else Ok(Became(st, id, st.slots[id].(game := None),
                             [RowOf(st, id, 0, SlotGameUnlinked,
                                    About(st.slots[id].date).(game := Some(st.slots[id].game.value.name)))]))
  {
    if Missing(st, year, id).None? {
      assert st.slots[id := st.slots[id]] == st.slots;
      if st.slots[id].game.None? {
        assert EditedState(st, id, Unlink) == st;
      } else {
        StampedOne(st.(slots := st.slots[id := st.slots[id].(game := None)]), year, id,
                   Draft(SlotGameUnlinked, About(st.slots[id].date).(game := Some(st.slots[id].game.value.name))));
      }
    }
  }

  // ----- Dates that come and go -----

  lemma AddSlotLaw(st: State, year: int, day: Date, note: Option<string>)
    ensures Attempt(st, AddSlot(year, day, note)) ==
              if day / 366 != year then Err(WrongYear)
              else if year !in st.seasons then Err(SeasonNotFound)
              else
                var added := Change(st.nextRow, st.clock, Some(st.nextSlot), SlotAdded, About(day).(note := note));
                Ok(st.(slots := st.slots[st.nextSlot := Slot(year, day, note, None, [], None)],
                       nextSlot := st.nextSlot + 1,
                       rows := st.rows + [LogRow(year, false, added)], nextRow := st.nextRow + 1))
  {
    StampedOne(AddedSlot(st, year, day, note), year, st.nextSlot, Draft(SlotAdded, About(day).(note := note)));
  }

  // The rows of a removed date stay, without it, and the row that tells its removal names no date either.
  lemma RemoveSlotLaw(st: State, year: int, id: nat)
    ensures Attempt(st, RemoveSlot(year, id)).Err? ==>
              Missing(st, year, id) == Some(Attempt(st, RemoveSlot(year, id)).error)
    ensures Missing(st, year, id).None? ==>
              && Attempt(st, RemoveSlot(year, id)).Ok?
              && var after, n := Attempt(st, RemoveSlot(year, id)).value, |st.rows|;
                 && after.slots == st.slots - {id} && after.seasons == st.seasons
                 && after.nextSlot == st.nextSlot && after.clock == st.clock
                 && |after.rows| == n + 1 && after.nextRow == st.nextRow + 1
                 && after.rows[n] == LogRow(year, false, Change(st.nextRow, st.clock, None, SlotRemoved,
                                                                About(st.slots[id].date)))
                 && forall i :: 0 <= i < n ==>
                      after.rows[i] ==
                        if st.rows[i].change.slotId == Some(id)
                        then st.rows[i].(change := st.rows[i].change.(slotId := None)) else st.rows[i]
  {
  }

  // The number is that of a free date of the year, on this day and with this note.
  predicate FreeDate(slots: map<nat, Slot>, year: int, id: nat, draft: SlotDraft) {
    id in slots && slots[id] == Slot(year, draft.day, draft.note, None, [], None)
  }

  // The dates numbered from `first` on are these.
  ghost predicate FreeDates(slots: map<nat, Slot>, year: int, first: nat, drafts: seq<SlotDraft>) {
    forall i {:trigger drafts[i]} :: 0 <= i < |drafts| ==> FreeDate(slots, year, first + i, drafts[i])
  }

  // The dates there were are there as they were, and no other is numbered below `first`.
  ghost predicate Grown(before: map<nat, Slot>, after: map<nat, Slot>, first: nat) {
    && (forall id :: id in before ==> id in after && after[id] == before[id])
    && (forall id :: id in after && id !in before ==> id >= first)
  }

  lemma {:induction false} DraftsAdded(st: State, year: int, drafts: seq<SlotDraft>)
    requires forall id :: id in st.slots ==> id < st.nextSlot
    ensures var after := AddedDrafts(st, year, drafts);
            && FreeDates(after.slots, year, st.nextSlot, drafts) && Grown(st.slots, after.slots, st.nextSlot)
            && after == st.(slots := after.slots, nextSlot := st.nextSlot + |drafts|)
            && forall id :: id in after.slots ==> id < st.nextSlot + |drafts|
  {
    if drafts != [] {
      var n := |drafts| - 1;
      var before, after := AddedDrafts(st, year, drafts[..n]), AddedDrafts(st, year, drafts);
      DraftsAdded(st, year, drafts[..n]);
      forall i | 0 <= i < |drafts| ensures FreeDate(after.slots, year, st.nextSlot + i, drafts[i]) {
        if i < n { assert drafts[..n][i] == drafts[i]; }
      }
    }
  }

  // A season is published once, with at least one date, all of them of its year. It gets exactly the dates that
  // were drafted, in order of their days, free and without games; nothing is written about them.
  lemma PublishSeasonLaw(st: State, year: int, drafts: seq<SlotDraft>)
    requires Safe(st)
    ensures var r := Attempt(st, PublishSeason(year, drafts));
            if drafts == [] then r == Err(EmptySeason)
            else if exists d :: d in drafts && d.day / 366 != year then r == Err(WrongYear)
            else if year in st.seasons then r == Err(SeasonAlreadyExists)
            else r.Ok? && SeasonAdded(st, year, drafts, r.value)
  {
    if Attempt(st, PublishSeason(year, drafts)).Ok? {
      var ordered := Sort(Earlier, drafts);
      SortKeeps(Earlier, drafts);
      SortSorts(Earlier, drafts);
      DraftsAdded(st.(seasons := st.seasons + {year}), year, ordered);
      assert InDayOrder(ordered) by { assert forall a, b :: Earlier(a, b) <==> a.day <= b.day; }
    }
  }

  predicate InDayOrder(drafts: seq<SlotDraft>) {
    forall i, j :: 0 <= i < j < |drafts| ==> drafts[i].day <= drafts[j].day
  }

  ghost predicate SeasonAdded(st: State, year: int, drafts: seq<SlotDraft>, after: State) {
    && after == st.(seasons := st.seasons + {year}, slots := after.slots, nextSlot := st.nextSlot + |drafts|)
    && Grown(st.slots, after.slots, st.nextSlot)
    && (forall id :: id in after.slots ==> id < st.nextSlot + |drafts|)
    && exists ordered :: && multiset(ordered) == multiset(drafts) && InDayOrder(ordered)
                         && FreeDates(after.slots, year, st.nextSlot, ordered)
  }

  // The digest job leaves the schedule alone and marks the rows of its season as told.
  lemma PublishDigestLaw(st: State, year: int)
    ensures var after := Step(st, PublishDigest(year));
            && after == st.(rows := after.rows) && |after.rows| == |st.rows|
            && forall i :: 0 <= i < |st.rows| ==>
                 after.rows[i] == if st.rows[i].season == year then st.rows[i].(published := true) else st.rows[i]
  {
  }

  // ----- What is published -----

  // In the published list the days do not go back, and lines without a day come last, together with those about
  // the last day of the calendar; of two lines about one day that of an added date comes later, and of two alike in
  // that, that of a removed one.
  lemma PublishedInOrder(changes: seq<Change>, i: nat, j: nat)
    requires i < j < |Collapsed(changes)|
    ensures var a, b := Collapsed(changes)[i], Collapsed(changes)[j];
            && (a.day.Some? && b.day.Some? ==> a.day.value <= b.day.value)
            && (a.day.None? && b.day.Some? ==> b.day.value >= DATE_MAX)
            && (a.day == b.day ==> (a.added ==> b.added) && (a.added == b.added ==> (a.removed ==> b.removed)))
  {
    var rows := Sort(WrittenBefore, changes);
    var listed := NonEmpty(Digests(rows, Keys(rows)));
    SortSorts(ListedBefore, listed);
    assert ListedBefore(Collapsed(changes)[i], Collapsed(changes)[j]);
  }

  // The list the next digest job of the season publishes.
  function NextDigest(st: State, year: int): seq<Digest> {
    Collapsed(Unpublished(st.rows, year))
  }

  ghost predicate Window(st: State, events: seq<Event>, id: nat) {
    && Safe(st) && id in st.slots && id in Run(st, events).slots
    && WithinWindow(st.slots[id].year, events) && Unpublished(st.rows, st.slots[id].year) == []
  }

  lemma SpokenIsPublished(st: State, id: nat, d: Digest)
    requires Safe(st) && id in st.slots && d == WindowDigest(st, st.slots[id].year, id)
    requires || d.Moved() || d.noteChanged || d.orgsChanged
             || d.released || d.owner.Some? || d.game.Some? || d.gameUnlinked
    ensures d in Collapsed(Unpublished(st.rows, st.slots[id].year))
  {
    PublishedDigestTellsWindow(st, id);
  }

  // A date that is on another day when the window closes has a line that says from where it moved and to where.
  lemma MoveIsPublished(st: State, events: seq<Event>, id: nat)
    requires Window(st, events, id) && st.slots[id].date != Run(st, events).slots[id].date
    ensures var from_, to := st.slots[id].date, Run(st, events).slots[id].date;
            exists d :: d in NextDigest(Run(st, events), st.slots[id].year) &&
              (d.day == Some(to) && d.dateBefore == Some(from_) && d.dateAfter == Some(to))
  {
    var end, d := Run(st, events), WindowDigest(Run(st, events), st.slots[id].year, id);
    RunKeepsSafe(st, events);
    DigestRefinesState(st, events, id);
    MovesAreChained(st, events, id);
    assert WindowRows(end, st.slots[id].year, id) != [];
    SpokenIsPublished(end, id, d);
  }

  // One whose note is another has a line with the note.
  lemma NoteIsPublished(st: State, events: seq<Event>, id: nat)
    requires Window(st, events, id) && st.slots[id].note != Run(st, events).slots[id].note
    ensures var note := Run(st, events).slots[id].note;
            exists d :: d in NextDigest(Run(st, events), st.slots[id].year) && d.noteChanged && d.note == note
  {
    var end, d := Run(st, events), WindowDigest(Run(st, events), st.slots[id].year, id);
    RunKeepsSafe(st, events);
    DigestTellsFinalNote(st, events, id);
    SpokenIsPublished(end, id, d);
  }

  // One whose game is another, or that lost its game without another link, has a line that says so.
  lemma GameIsPublished(st: State, events: seq<Event>, id: nat)
    requires Window(st, events, id) && st.slots[id].game != Run(st, events).slots[id].game
    requires Run(st, events).slots[id].game.Some? || !EverLinked(st, events, id)
    ensures var game := Run(st, events).slots[id].game;
            exists d :: d in NextDigest(Run(st, events), st.slots[id].year) &&
              (if game.Some? then d.game == Some(game.value.name) && !d.gameUnlinked else d.gameUnlinked)
  {
    var end, d := Run(st, events), WindowDigest(Run(st, events), st.slots[id].year, id);
    RunKeepsSafe(st, events);
    WindowKeepsGameSays(st, events, id);
    GameToldIff(st, events, id);
    SpokenIsPublished(end, id, d);
  }

  // One whose owner is another has a line that says so, when the last edit that bears on the owner was told.
  lemma OwnerIsPublished(st: State, events: seq<Event>, id: nat)
    requires Window(st, events, id) && OwnerSettled(st, events, id)
    requires st.slots[id].owner != Run(st, events).slots[id].owner
    ensures var owner := Run(st, events).slots[id].owner;
            exists d :: d in NextDigest(Run(st, events), st.slots[id].year) &&
              (if owner.Some? then d.owner == owner && !d.released else d.released)
  {
    var end, d := Run(st, events), WindowDigest(Run(st, events), st.slots[id].year, id);
    RunKeepsSafe(st, events);
    OwnerToldIff(st, events, id);
    WindowKeepsOwnerSays(st, events, id);
    SpokenIsPublished(end, id, d);
  }

  // And so for the organizers, with those before.
  lemma OrgsArePublished(st: State, events: seq<Event>, id: nat)
    requires Window(st, events, id) && OrgsSettled(st, events, id)
    requires st.slots[id].orgs != Run(st, events).slots[id].orgs
    ensures var before, after := st.slots[id].orgs, Run(st, events).slots[id].orgs;
            exists d :: d in NextDigest(Run(st, events), st.slots[id].year) &&
              (d.orgsChanged && d.orgsBefore == before && d.orgs == after)
  {
    var end, d := Run(st, events), WindowDigest(Run(st, events), st.slots[id].year, id);
    RunKeepsSafe(st, events);
    OrgsToldIff(st, events, id);
    SpokenIsPublished(end, id, d);
  }
}
