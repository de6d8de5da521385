// The season schedule as a state machine: every edit of a date writes its audit rows in the same step.
// One call of an interactor is one atomic step; permission checks that only reject are left out.
module SeasonSchedule {
  import opened Common
  import opened Sorting
  import opened SeasonDigest

  datatype AuthorKind = PlayerAuthor | TeamAuthor

  // Who signs up for a date: the acting player, and the team the request names, if any.
  datatype Author = Author(kind: AuthorKind, player: string, team: Option<string>)

  // The name the schedule shows for the taker, and the name the audit row records. They differ when a
  // player signs up for themselves but names a team as well.
  function DisplayedName(a: Author): string {
    if a.kind == TeamAuthor && a.team.Some? then a.team.value else a.player
  }

  function RecordedName(a: Author): string {
    if a.team.Some? then a.team.value else a.player
  }

  datatype Game = Game(id: nat, name: string, start: Option<Date>, author: string)

  datatype LinkedGame = LinkedGame(id: nat, name: string)

  // `owner` is the name shown for the owner of a taken date.
  datatype Slot = Slot(
    year: int, date: Date, note: Option<string>,
    owner: Option<string>, orgs: seq<string>, game: Option<LinkedGame>)

  datatype LogRow = LogRow(season: int, published: bool, change: Change)

  datatype State = State(
    seasons: set<int>, slots: map<nat, Slot>, nextSlot: nat,
    rows: seq<LogRow>, nextRow: nat, clock: int)

  datatype Error =
    | SeasonNotFound | SeasonAlreadyExists | EmptySeason | WrongYear
    | SlotNotFound | SlotAuthorInvalid | SlotAlreadyLinked | GameAlreadyInSchedule

  datatype Edit =
    | Move(day: Date)
    | EditNote(note: Option<string>)
    | Take(author: Author, orgs: seq<string>)
    | Release
    | SetOrgs(orgs: seq<string>)
    | Link(game: Game)
    | Unlink
    | Follow(started: Option<Date>)

  datatype Event =
    | Wait(time: nat)
    | PublishSeason(year: int, drafts: seq<SlotDraft>)
    | AddSlot(year: int, day: Date, note: Option<string>)
    | RemoveSlot(year: int, id: nat)
    | EditSlot(year: int, id: nat, edit: Edit)
    | FollowGame(gameId: nat, started: Option<Date>)
    | PublishDigest(year: int)

  datatype SlotDraft = SlotDraft(day: Date, note: Option<string>)

  function YearOf(day: Date): int { day / YEAR_LENGTH }

  function EmptySlot(year: int, day: Date, note: Option<string>): Slot {
    Slot(year, day, note, None, [], None)
  }

  // ----- One edit of one date: what it becomes, and what is written about it -----

  datatype Draft = Draft(kind: ChangeType, payload: Payload)

  function MovedDraft(from_: Date, to: Date): Draft {
    Draft(SlotMoved, NO_PAYLOAD.(date := Some(to), from_ := Some(from_), to := Some(to)))
  }

  // A date moved to `day`; nothing is written when it is there already.
  function MovedTo(slot: Slot, day: Date): (Slot, seq<Draft>) {
    if slot.date == day then (slot, []) else (slot.(date := day), [MovedDraft(slot.date, day)])
  }

  function Followed(slot: Slot, started: Option<Date>): (Slot, seq<Draft>) {
    if started.None? then (slot, []) else MovedTo(slot, started.value)
  }

  function Linked(slot: Slot, game: Game): Slot {
    slot.(owner := if slot.owner.None? then Some(game.author) else slot.owner,
          game := Some(LinkedGame(game.id, game.name)))
  }

  function Edited(slot: Slot, edit: Edit): (Slot, seq<Draft>) {
    var here := NO_PAYLOAD.(date := Some(slot.date));
    match edit
    case Move(day) => MovedTo(slot, day)
    case EditNote(note) => (slot.(note := note), [Draft(SlotNoteChanged, here.(note := note))])
    case Take(author, orgs) =>
      (slot.(owner := Some(DisplayedName(author)), orgs := orgs),
       [Draft(SlotTaken, here.(author := Some(RecordedName(author)), orgs := orgs))])
    case Release =>
      (slot.(owner := None, orgs := []), [Draft(SlotReleased, here.(author := slot.owner))])
    case SetOrgs(orgs) =>
      (slot.(orgs := orgs), [Draft(SlotOrgsChanged, here.(orgs := orgs, orgsBefore := slot.orgs))])
    case Link(game) =>
      var (slot', moves) := Followed(Linked(slot, game), game.start);
      (slot', [Draft(SlotGameLinked, here.(game := Some(game.name)))] + moves)
    case Unlink =>
      if slot.game.None? then (slot, [])
      else (slot.(game := None), [Draft(SlotGameUnlinked, here.(game := Some(slot.game.value.name)))])
    case Follow(started) => Followed(slot, started)
  }

  // ----- The steps -----

  function Stamped(st: State, season: int, slotId: Option<nat>, drafts: seq<Draft>): (rows: seq<LogRow>)
    ensures |rows| == |drafts|
  {
    seq(|drafts|, i requires 0 <= i < |drafts| =>
      LogRow(season, false, Change(st.nextRow + i, st.clock, slotId, drafts[i].kind, drafts[i].payload)))
  }

  function Recorded(st: State, season: int, slotId: Option<nat>, drafts: seq<Draft>): State {
    st.(rows := st.rows + Stamped(st, season, slotId, drafts), nextRow := st.nextRow + |drafts|)
  }

  function Detached(rows: seq<LogRow>, id: nat): (detached: seq<LogRow>)
    ensures |detached| == |rows|
  {
    seq(|rows|, i requires 0 <= i < |rows| =>
      if rows[i].change.slotId == Some(id) then rows[i].(change := rows[i].change.(slotId := None)) else rows[i])
  }

  function MarkedPublished(rows: seq<LogRow>, season: int): (marked: seq<LogRow>)
    ensures |marked| == |rows|
  {
    seq(|rows|, i requires 0 <= i < |rows| =>
      if rows[i].season == season then rows[i].(published := true) else rows[i])
  }

  function Unpublished(rows: seq<LogRow>, season: int): seq<Change> {
    if rows == [] then []
    else
      var before := Unpublished(rows[..|rows| - 1], season);
      var last := rows[|rows| - 1];
      if last.season == season && !last.published then before + [last.change] else before
  }

  function AddedSlot(st: State, year: int, day: Date, note: Option<string>): State {
    st.(slots := st.slots[st.nextSlot := EmptySlot(year, day, note)], nextSlot := st.nextSlot + 1)
  }

  function AddedDrafts(st: State, year: int, drafts: seq<SlotDraft>): State {
    if drafts == [] then st
    else
      var last := drafts[|drafts| - 1];
      AddedSlot(AddedDrafts(st, year, drafts[..|drafts| - 1]), year, last.day, last.note)
  }

  predicate Earlier(a: SlotDraft, b: SlotDraft) { a.day <= b.day }

  predicate Holds(slot: Slot, gameId: nat) { slot.game.Some? && slot.game.value.id == gameId }

  // The dates a game sits in; there is at most one (`GameOnce` below).
  function SlotsOfGame(slots: map<nat, Slot>, gameId: nat): set<nat> {
    set id | id in slots && Holds(slots[id], gameId)
  }

  function EditError(st: State, year: int, id: nat, edit: Edit): Option<Error> {
    if year !in st.seasons then Some(SeasonNotFound)
    else if id !in st.slots || st.slots[id].year != year then Some(SlotNotFound)
    else
      match edit
      case Move(day) => if YearOf(day) != year then Some(WrongYear) else None
      case Take(author, _) =>
        if author.kind == TeamAuthor && author.team.None? then Some(SlotAuthorInvalid) else None
      case Release => if st.slots[id].game.Some? then Some(SlotAlreadyLinked) else None
      case Link(game) =>
        if exists other :: other in SlotsOfGame(st.slots, game.id) && other != id then Some(GameAlreadyInSchedule)
        else if st.slots[id].game.Some? && st.slots[id].game.value.id != game.id then Some(SlotAlreadyLinked)
        else None
      case _ => None
  }

  function EditedState(st: State, id: nat, edit: Edit): State
    requires id in st.slots
  {
    var (slot, drafts) := Edited(st.slots[id], edit);
    Recorded(st.(slots := st.slots[id := slot]), slot.year, Some(id), drafts)
  }

  function RemovedState(st: State, id: nat): State
    requires id in st.slots
  {
    var slot := st.slots[id];
    var gone := st.(rows := Detached(st.rows, id), slots := st.slots - {id});
    Recorded(gone, slot.year, None, [Draft(SlotRemoved, NO_PAYLOAD.(date := Some(slot.date)))])
  }

  ghost function Attempt(st: State, ev: Event): Result<State, Error> {
    match ev
    case Wait(time) => Ok(st.(clock := st.clock + time))
    case PublishSeason(year, drafts) =>
      if drafts == [] then Err(EmptySeason)
      else if exists d :: d in drafts && YearOf(d.day) != year then Err(WrongYear)
      else if year in st.seasons then Err(SeasonAlreadyExists)
      else Ok(AddedDrafts(st.(seasons := st.seasons + {year}), year, Sort(Earlier, drafts)))
    case AddSlot(year, day, note) =>
      if YearOf(day) != year then Err(WrongYear)
      else if year !in st.seasons then Err(SeasonNotFound)
      else Ok(Recorded(AddedSlot(st, year, day, note), year, Some(st.nextSlot),
                       [Draft(SlotAdded, NO_PAYLOAD.(date := Some(day), note := note))]))
    case RemoveSlot(year, id) =>
      if year !in st.seasons then Err(SeasonNotFound)
      else if id !in st.slots || st.slots[id].year != year then Err(SlotNotFound)
      else Ok(RemovedState(st, id))
    case EditSlot(year, id, edit) =>
      var error := EditError(st, year, id, edit);
      if error.Some? then Err(error.value) else Ok(EditedState(st, id, edit))
    case FollowGame(gameId, started) =>
      var ids := SlotsOfGame(st.slots, gameId);
      if ids == {} then Ok(st) else (var id :| id in ids; Ok(EditedState(st, id, Follow(started))))
    case PublishDigest(year) => Ok(st.(rows := MarkedPublished(st.rows, year)))
  }

  // A step that raises leaves nothing behind.
  ghost function Step(st: State, ev: Event): State {
    var attempt := Attempt(st, ev);
    if attempt.Ok? then attempt.value else st
  }

  ghost function Run(st: State, events: seq<Event>): State {
    if events == [] then st else Step(Run(st, events[..|events| - 1]), events[|events| - 1])
  }

  const EMPTY := State({}, map[], 0, [], 0, 0)

  // ----- Safety over all runs -----

  ghost predicate LinkedHasOwner(slots: map<nat, Slot>) {
    forall id :: id in slots && slots[id].game.Some? ==> slots[id].owner.Some?
  }

  predicate SameGame(a: Slot, b: Slot) {
    a.game.Some? && b.game.Some? && a.game.value.id == b.game.value.id
  }

  ghost predicate GameOnce(slots: map<nat, Slot>) {
    forall a, b :: a in slots && b in slots && SameGame(slots[a], slots[b]) ==> a == b
  }

  ghost predicate RowOrdered(rows: seq<LogRow>, nextRow: nat, clock: int) {
    && (forall i :: 0 <= i < |rows| ==> rows[i].change.id < nextRow && rows[i].change.createdAt <= clock)
    && (forall i, j :: 0 <= i < j < |rows| ==>
          rows[i].change.id < rows[j].change.id && rows[i].change.createdAt <= rows[j].change.createdAt)
  }

  ghost predicate Safe(st: State) {
    && LinkedHasOwner(st.slots)
    && GameOnce(st.slots)
    && (forall id :: id in st.slots ==> id < st.nextSlot)
    && RowOrdered(st.rows, st.nextRow, st.clock)
  }

  lemma {:induction false} AddedDraftsKeeps(st: State, year: int, drafts: seq<SlotDraft>)
    requires Safe(st)
    ensures var st' := AddedDrafts(st, year, drafts);
            && Safe(st') && st'.rows == st.rows && st'.nextRow == st.nextRow && st'.clock == st.clock
            && st'.nextSlot >= st.nextSlot
            && (forall id :: id in st.slots ==> id in st'.slots && st'.slots[id] == st.slots[id])
            && (forall id :: id in st'.slots && id !in st.slots ==> id >= st.nextSlot)
  {
    if drafts != [] { AddedDraftsKeeps(st, year, drafts[..|drafts| - 1]); }
  }

  lemma RecordedKeepsOrder(st: State, season: int, slotId: Option<nat>, drafts: seq<Draft>)
    requires RowOrdered(st.rows, st.nextRow, st.clock)
    ensures var st' := Recorded(st, season, slotId, drafts); RowOrdered(st'.rows, st'.nextRow, st'.clock)
  {
  }

  lemma EditedKeepsSlotsSafe(st: State, year: int, id: nat, edit: Edit)
    requires LinkedHasOwner(st.slots) && GameOnce(st.slots) && id in st.slots
    requires edit.Follow? || EditError(st, year, id, edit) == None
    ensures var slots := st.slots[id := Edited(st.slots[id], edit).0];
            LinkedHasOwner(slots) && GameOnce(slots)
  {
    var slot := Edited(st.slots[id], edit).0;
    assert slot.game.Some? ==> slot.owner.Some?;
    if edit.Link? {
      forall other | other in st.slots && other != id && st.slots[other].game.Some?
        ensures st.slots[other].game.value.id != edit.game.id
      {
        assert !(other in SlotsOfGame(st.slots, edit.game.id));
      }
    } else {
      assert slot.game.Some? ==> slot.game == st.slots[id].game;
    }
  }

  lemma EditedKeepsSafe(st: State, year: int, id: nat, edit: Edit)
    requires Safe(st) && id in st.slots
    requires edit.Follow? || EditError(st, year, id, edit) == None
    ensures Safe(EditedState(st, id, edit))
  {
    EditedKeepsSlotsSafe(st, year, id, edit);
    var (slot, drafts) := Edited(st.slots[id], edit);
    RecordedKeepsOrder(st.(slots := st.slots[id := slot]), slot.year, Some(id), drafts);
  }

  lemma RemovedKeepsSafe(st: State, id: nat)
    requires Safe(st) && id in st.slots
    ensures Safe(RemovedState(st, id))
  {
    var gone := st.(rows := Detached(st.rows, id), slots := st.slots - {id});
    assert RowOrdered(gone.rows, gone.nextRow, gone.clock);
    RecordedKeepsOrder(gone, st.slots[id].year, None,
                       [Draft(SlotRemoved, NO_PAYLOAD.(date := Some(st.slots[id].date)))]);
  }

  lemma StepKeepsSafe(st: State, ev: Event)
    requires Safe(st)
    ensures Safe(Step(st, ev)) && st.nextSlot <= Step(st, ev).nextSlot
  {
    if Attempt(st, ev).Ok? {
      match ev
      case Wait(time) =>
      case PublishSeason(year, drafts) =>
        AddedDraftsKeeps(st.(seasons := st.seasons + {year}), year, Sort(Earlier, drafts));
      case AddSlot(year, day, note) =>
        RecordedKeepsOrder(AddedSlot(st, year, day, note), year, Some(st.nextSlot),
                           [Draft(SlotAdded, NO_PAYLOAD.(date := Some(day), note := note))]);
      case RemoveSlot(year, id) => RemovedKeepsSafe(st, id);
      case EditSlot(year, id, edit) => EditedKeepsSafe(st, year, id, edit);
      case FollowGame(gameId, started) =>
        if SlotsOfGame(st.slots, gameId) != {} {
          var id :| id in SlotsOfGame(st.slots, gameId) && Step(st, ev) == EditedState(st, id, Follow(started));
          EditedKeepsSafe(st, 0, id, Follow(started));
        }
      case PublishDigest(year) =>
    }
  }

  // In every reachable schedule a linked date has an owner and a game sits in at most one date of all
  // the seasons; the audit rows are in the order in which they were written.
  lemma {:induction false} RunKeepsSafe(st: State, events: seq<Event>)
    requires Safe(st)
    ensures Safe(Run(st, events))
  {
    if events != [] {
      RunKeepsSafe(st, events[..|events| - 1]);
      StepKeepsSafe(Run(st, events[..|events| - 1]), events[|events| - 1]);
    }
  }

  // Linking never replaces another game, keeps an owner that was there, and leaves the date on the day
  // the game starts.
  lemma LinkIsGentle(st: State, year: int, id: nat, game: Game)
    requires Safe(st) && Attempt(st, EditSlot(year, id, Link(game))).Ok?
    ensures st.slots[id].game.Some? ==> st.slots[id].game.value.id == game.id
    ensures st.slots[id].owner.Some? ==> Step(st, EditSlot(year, id, Link(game))).slots[id].owner == st.slots[id].owner
    ensures SlotsOfGame(Step(st, EditSlot(year, id, Link(game))).slots, game.id) == {id}
    ensures game.start.Some? ==> Step(st, EditSlot(year, id, Link(game))).slots[id].date == game.start.value
  {
    var st' := Step(st, EditSlot(year, id, Link(game)));
    EditedKeepsSlotsSafe(st, year, id, Link(game));
    assert id in SlotsOfGame(st'.slots, game.id);
  }
}
