// The interactors of the season schedule: each call reads the rows it needs, then writes the date and the
// audit row of the edit, in that order. Every call is proved to be one step of the state machine.
module SeasonService {
  import opened Common
  import opened Sorting
  import opened SeasonDigest
  import opened SeasonSchedule

  // The call did the step `ev`, and reported the error of that step if it has one.
  ghost predicate Did(before: State, ev: Event, error: Option<Error>, after: State) {
    var attempt := Attempt(before, ev);
    after == Step(before, ev) && error == if attempt.Err? then Some(attempt.error) else None
  }

  lemma RecordedTwice(st: State, season: int, slotId: Option<nat>, a: Draft, b: Draft)
    ensures Recorded(Recorded(st, season, slotId, [a]), season, slotId, [b]) == Recorded(st, season, slotId, [a, b])
  {
    var once := Recorded(st, season, slotId, [a]);
    assert once.rows + Stamped(once, season, slotId, [b]) == st.rows + Stamped(st, season, slotId, [a, b]);
  }

  lemma RecordedNothing(st: State, season: int, slotId: Option<nat>)
    ensures Recorded(st, season, slotId, []) == st
  {
  }

  class ScheduleDao {
    var seasons: set<int>
    var slots: map<nat, Slot>
    var nextSlot: nat
    var rows: seq<LogRow>
    var nextRow: nat
    var clock: int

    function Model(): State
      reads this
    {
      State(seasons, slots, nextSlot, rows, nextRow, clock)
    }

    constructor ()
      ensures Model() == EMPTY && Safe(Model())
    {
      seasons, slots, nextSlot, rows, nextRow, clock := {}, map[], 0, [], 0, 0;
    }

    // The audit row shares the transaction of the write it tells about.
    method Record(season: int, slotId: Option<nat>, kind: ChangeType, payload: Payload)
      modifies `rows, `nextRow
      ensures Model() == Recorded(old(Model()), season, slotId, [Draft(kind, payload)])
    {
      rows := rows + [LogRow(season, false, Change(nextRow, clock, slotId, kind, payload))];
      nextRow := nextRow + 1;
    }

    // A season and all its dates, in the order of the calendar; nothing is written about them.
    method PublishSeason(year: int, drafts: seq<SlotDraft>) returns (error: Option<Error>)
      modifies this
      ensures Did(old(Model()), Event.PublishSeason(year, drafts), error, Model())
    {
      if drafts == [] { return Some(EmptySeason); }
      if exists d :: d in drafts && YearOf(d.day) != year { return Some(WrongYear); }
      if year in seasons { return Some(SeasonAlreadyExists); }
      seasons := seasons + {year};
      var sorted := Sort(Earlier, drafts);
      ghost var created := Model();
      for i := 0 to |sorted|
        invariant Model() == AddedDrafts(created, year, sorted[..i])
      {
        assert sorted[..i + 1][..i] == sorted[..i];
        slots := slots[nextSlot := EmptySlot(year, sorted[i].day, sorted[i].note)];
        nextSlot := nextSlot + 1;
      }
      assert sorted[..|sorted|] == sorted;
      return None;
    }

    method AddSlot(year: int, day: Date, note: Option<string>) returns (error: Option<Error>)
      modifies this
      ensures Did(old(Model()), Event.AddSlot(year, day, note), error, Model())
    {
      if YearOf(day) != year { return Some(WrongYear); }
      if year !in seasons { return Some(SeasonNotFound); }
      var id := nextSlot;
      slots := slots[id := EmptySlot(year, day, note)];
      nextSlot := nextSlot + 1;
      Record(year, Some(id), SlotAdded, NO_PAYLOAD.(date := Some(day), note := note));
      return None;
    }

    // The season's date with that id.
    method FindSlot(year: int, id: nat) returns (error: Option<Error>)
      ensures error == if year !in seasons then Some(SeasonNotFound)
                       else if id !in slots || slots[id].year != year then Some(SlotNotFound) else None
    {
      if year !in seasons { return Some(SeasonNotFound); }
      if id !in slots || slots[id].year != year { return Some(SlotNotFound); }
      return None;
    }

    method MoveSlot(year: int, id: nat, day: Date) returns (error: Option<Error>)
      modifies this
      ensures Did(old(Model()), EditSlot(year, id, Move(day)), error, Model())
    {
      error := FindSlot(year, id);
      if error.Some? { return; }
      if YearOf(day) != year { return Some(WrongYear); }
      MoveTo(id, day);
    }

    // Moves a date that is not there yet, and records where it was and where it is.
    method MoveTo(id: nat, day: Date)
      requires id in slots
      modifies `slots, `rows, `nextRow
      ensures var (slot, drafts) := MovedTo(old(slots)[id], day);
              Model() == Recorded(old(Model()).(slots := old(slots)[id := slot]), slot.year, Some(id), drafts)
    {
      var slot := slots[id];
      if slot.date == day {
        RecordedNothing(Model(), slot.year, Some(id));
        assert slots[id := slot] == slots;
        return;
      }
      var previous := slot.date;
      slots := slots[id := slot.(date := day)];
      Record(slot.year, Some(id), SlotMoved, NO_PAYLOAD.(date := Some(day), from_ := Some(previous), to := Some(day)));
    }

    method EditSlotNote(year: int, id: nat, note: Option<string>) returns (error: Option<Error>)
      modifies this
      ensures Did(old(Model()), EditSlot(year, id, EditNote(note)), error, Model())
    {
      error := FindSlot(year, id);
      if error.Some? { return; }
      var slot := slots[id];
      slots := slots[id := slot.(note := note)];
      Record(year, Some(id), SlotNoteChanged, NO_PAYLOAD.(date := Some(slot.date), note := note));
    }

    // The rows of the date outlive it: they are detached first, and its last row points at no date.
    method RemoveSlot(year: int, id: nat) returns (error: Option<Error>)
      modifies this
      ensures Did(old(Model()), Event.RemoveSlot(year, id), error, Model())
    {
      error := FindSlot(year, id);
      if error.Some? { return; }
      var slot := slots[id];
      rows := Detached(rows, id);
      Record(year, None, SlotRemoved, NO_PAYLOAD.(date := Some(slot.date)));
      slots := slots - {id};
    }

    method TakeSlot(year: int, id: nat, author: Author, orgs: seq<string>) returns (error: Option<Error>)
      modifies this
      ensures Did(old(Model()), EditSlot(year, id, Take(author, orgs)), error, Model())
    {
      error := FindSlot(year, id);
      if error.Some? { return; }
      if author.kind == TeamAuthor && author.team.None? { return Some(SlotAuthorInvalid); }
      var slot := slots[id];
      slots := slots[id := slot.(owner := Some(DisplayedName(author)), orgs := orgs)];
      Record(year, Some(id), SlotTaken,
             NO_PAYLOAD.(date := Some(slot.date), author := Some(RecordedName(author)), orgs := orgs));
    }

    method ReleaseSlot(year: int, id: nat) returns (error: Option<Error>)
      modifies this
      ensures Did(old(Model()), EditSlot(year, id, Release), error, Model())
    {
      error := FindSlot(year, id);
      if error.Some? { return; }
      var slot := slots[id];
      if slot.game.Some? { return Some(SlotAlreadyLinked); }
      var releasedFrom := slot.owner;
      slots := slots[id := slot.(owner := None, orgs := [])];
      Record(year, Some(id), SlotReleased, NO_PAYLOAD.(date := Some(slot.date), author := releasedFrom));
    }

    method SetSlotOrgs(year: int, id: nat, orgs: seq<string>) returns (error: Option<Error>)
      modifies this
      ensures Did(old(Model()), EditSlot(year, id, SetOrgs(orgs)), error, Model())
    {
      error := FindSlot(year, id);
      if error.Some? { return; }
      var slot := slots[id];
      slots := slots[id := slot.(orgs := orgs)];
      Record(year, Some(id), SlotOrgsChanged,
             NO_PAYLOAD.(date := Some(slot.date), orgs := orgs, orgsBefore := slot.orgs));
    }

    // A free date goes to the author of the game; the date then follows the game.
    method LinkGame(year: int, id: nat, game: Game) returns (error: Option<Error>)
      modifies this
      ensures Did(old(Model()), EditSlot(year, id, Link(game)), error, Model())
    {
      error := FindSlot(year, id);
      if error.Some? { return; }
      var occupied := SlotsOfGame(slots, game.id);
      if exists other :: other in occupied && other != id { return Some(GameAlreadyInSchedule); }
      var slot := slots[id];
      if slot.game.Some? && slot.game.value.id != game.id { return Some(SlotAlreadyLinked); }
      ghost var before := Model();
      if slot.owner.None? {
        slots := slots[id := slots[id].(owner := Some(game.author))];
      }
      slots := slots[id := slots[id].(game := Some(LinkedGame(game.id, game.name)))];
      assert slots == before.slots[id := Linked(slot, game)];
      Record(year, Some(id), SlotGameLinked, NO_PAYLOAD.(date := Some(slot.date), game := Some(game.name)));
      if game.start.Some? {
        LinkThenMove(before, id, game);
        MoveTo(id, game.start.value);
      }
    }

    method UnlinkGame(year: int, id: nat) returns (error: Option<Error>)
      modifies this
      ensures Did(old(Model()), EditSlot(year, id, Unlink), error, Model())
    {
      error := FindSlot(year, id);
      if error.Some? { return; }
      var slot := slots[id];
      if slot.game.None? {
        RecordedNothing(Model(), slot.year, Some(id));
        assert slots[id := slot] == slots;
        return;
      }
      var unlinked := slot.game.value;
      slots := slots[id := slot.(game := None)];
      Record(year, Some(id), SlotGameUnlinked, NO_PAYLOAD.(date := Some(slot.date), game := Some(unlinked.name)));
    }

    // When a game gets a new start its date follows; when it loses its start the date stays.
    method FollowGame(gameId: nat, started: Option<Date>)
      requires Safe(Model())
      modifies this
      ensures Did(old(Model()), Event.FollowGame(gameId, started), None, Model())
    {
      var ids := SlotsOfGame(slots, gameId);
      if ids == {} { return; }
      ghost var before := Model();
      var id :| id in ids;
      forall other | other in ids ensures other == id { assert SameGame(slots[other], slots[id]); }
      if started.None? {
        RecordedNothing(Model(), slots[id].year, Some(id));
        assert slots[id := slots[id]] == slots;
        return;
      }
      MoveTo(id, started.value);
    }

    // All unpublished rows of the season count as told, whatever became of them.
    method PublishDigest(year: int) returns (digests: seq<Digest>)
      modifies `rows
      ensures Did(old(Model()), Event.PublishDigest(year), None, Model())
      ensures digests == Collapsed(Unpublished(old(rows), year))
    {
      digests := CollapseChanges(Unpublished(rows, year));
      rows := MarkedPublished(rows, year);
    }
  }

  lemma LinkThenMove(before: State, id: nat, game: Game)
    requires id in before.slots && game.start.Some?
    ensures var slot := before.slots[id];
            var linked := Linked(slot, game);
            var told := Draft(SlotGameLinked, NO_PAYLOAD.(date := Some(slot.date), game := Some(game.name)));
            var st := Recorded(before.(slots := before.slots[id := linked]), slot.year, Some(id), [told]);
            var (moved, drafts) := MovedTo(linked, game.start.value);
            Recorded(st.(slots := st.slots[id := moved]), slot.year, Some(id), drafts)
            == EditedState(before, id, Link(game))
  {
    var slot := before.slots[id];
    var linked := Linked(slot, game);
    var told := Draft(SlotGameLinked, NO_PAYLOAD.(date := Some(slot.date), game := Some(game.name)));
    var (moved, drafts) := MovedTo(linked, game.start.value);
    var st := before.(slots := before.slots[id := moved]);
    assert before.slots[id := linked][id := moved] == before.slots[id := moved];
    if drafts == [] {
      RecordedNothing(Recorded(st, slot.year, Some(id), [told]), slot.year, Some(id));
    } else {
      RecordedTwice(st, slot.year, Some(id), told, drafts[0]);
    }
  }
}
