// Dates that come and go inside one window: what the digest is told about them.
module SeasonLives {
  import opened Common
  import opened Sorting
  import opened SeasonDigest
  import opened SeasonSchedule
  import opened SeasonWindow

  // ----- The rows of one date among all unpublished rows -----

  // A row that is about another date and none of these days, now and after its date is gone.
  predicate Foreign(c: Change, id: nat, days: set<Date>) {
    && c.slotId != Some(id)
    && c.payload.date.Some? && c.payload.date.value !in days
    && (c.kind == SlotMoved ==> c.payload.to == c.payload.date)
  }

  function OwnRows(rows: seq<Change>, id: nat, days: set<Date>): seq<Change> {
    if rows == [] then []
    else
      var before := OwnRows(rows[..|rows| - 1], id, days);
      if Foreign(rows[|rows| - 1], id, days) then before else before + [rows[|rows| - 1]]
  }

  function Told(st: State, year: int, id: nat, days: set<Date>): seq<Change> {
    OwnRows(Unpublished(st.rows, year), id, days)
  }

  lemma {:induction false} OwnRowsOfConcat(a: seq<Change>, b: seq<Change>, id: nat, days: set<Date>)
    ensures OwnRows(a + b, id, days) == OwnRows(a, id, days) + OwnRows(b, id, days)
  {
    if b == [] {
      assert a + b == a;
    } else {
      assert (a + b)[..|a + b| - 1] == a + b[..|b| - 1];
      OwnRowsOfConcat(a, b[..|b| - 1], id, days);
    }
  }

  lemma {:induction false} OnlyForeign(rows: seq<LogRow>, year: int, id: nat, days: set<Date>)
    requires forall row :: row in rows ==> Foreign(row.change, id, days)
    ensures OwnRows(Unpublished(rows, year), id, days) == []
  {
    if rows != [] {
      OnlyForeign(rows[..|rows| - 1], year, id, days);
      OwnRowsOfConcat(Unpublished(rows[..|rows| - 1], year), [rows[|rows| - 1].change], id, days);
      assert rows[|rows| - 1] in rows;
    }
  }

  lemma {:induction false} OnlyOwn(rows: seq<LogRow>, year: int, id: nat, days: set<Date>)
    requires forall row :: row in rows ==> row.season == year && !row.published && !Foreign(row.change, id, days)
    ensures OwnRows(Unpublished(rows, year), id, days) == ChangesOf(rows)
  {
    if rows != [] {
      var last := rows[|rows| - 1];
      OnlyOwn(rows[..|rows| - 1], year, id, days);
      assert last in rows;
      OwnRowsOfConcat(Unpublished(rows[..|rows| - 1], year), [last.change], id, days);
      assert [last.change][..0] == [];
      assert ChangesOf(rows) == ChangesOf(rows[..|rows| - 1]) + [last.change];
    }
  }

  lemma RecordedForeign(
    st: State, season: int, slotId: Option<nat>, drafts: seq<Draft>, year: int, id: nat, days: set<Date>)
    requires forall i :: 0 <= i < |drafts| ==>
               Foreign(Change(0, 0, slotId, drafts[i].kind, drafts[i].payload), id, days)
    ensures Told(Recorded(st, season, slotId, drafts), year, id, days) == Told(st, year, id, days)
  {
    var added := Stamped(st, season, slotId, drafts);
    UnpublishedOfConcat(st.rows, added, year);
    OwnRowsOfConcat(Unpublished(st.rows, year), Unpublished(added, year), id, days);
    OnlyForeign(added, year, id, days);
  }

  lemma RecordedOwnRows(st: State, year: int, slotId: Option<nat>, drafts: seq<Draft>, id: nat, days: set<Date>)
    requires forall i :: 0 <= i < |drafts| ==>
               !Foreign(Change(0, 0, slotId, drafts[i].kind, drafts[i].payload), id, days)
    ensures Told(Recorded(st, year, slotId, drafts), year, id, days)
         == Told(st, year, id, days) + ChangesOf(Stamped(st, year, slotId, drafts))
  {
    var added := Stamped(st, year, slotId, drafts);
    UnpublishedOfConcat(st.rows, added, year);
    OwnRowsOfConcat(Unpublished(st.rows, year), Unpublished(added, year), id, days);
    OnlyOwn(added, year, id, days);
  }

  function Loose(changes: seq<Change>, id: nat): (loose: seq<Change>)
    ensures |loose| == |changes|
  {
    seq(|changes|, i requires 0 <= i < |changes| =>
      if changes[i].slotId == Some(id) then changes[i].(slotId := None) else changes[i])
  }

  lemma LooseAppends(changes: seq<Change>, c: Change, id: nat)
    ensures Loose(changes + [c], id) == Loose(changes, id) + Loose([c], id)
  {
  }

  lemma {:induction false} DetachedUnpublished(rows: seq<LogRow>, other: nat, year: int)
    ensures Unpublished(Detached(rows, other), year) == Loose(Unpublished(rows, year), other)
  {
    if rows != [] {
      var before, last := rows[..|rows| - 1], rows[|rows| - 1];
      DetachedUnpublished(before, other, year);
      assert Detached(rows, other)[..|rows| - 1] == Detached(before, other);
      LooseAppends(Unpublished(before, year), last.change, other);
    }
  }

  // Another date that goes takes no row of this one with it.
  lemma {:induction false} LooseOthers(changes: seq<Change>, other: nat, id: nat, days: set<Date>)
    requires other != id && forall c :: c in OwnRows(changes, id, days) ==> c.slotId != Some(other)
    ensures OwnRows(Loose(changes, other), id, days) == OwnRows(changes, id, days)
  {
    if changes != [] {
      var before, last := changes[..|changes| - 1], changes[|changes| - 1];
      assert forall c :: c in OwnRows(before, id, days) ==> c in OwnRows(changes, id, days);
      LooseOthers(before, other, id, days);
      assert Loose(changes, other)[..|changes| - 1] == Loose(before, other);
      assert !Foreign(last, id, days) ==> last in OwnRows(changes, id, days);
    }
  }

  lemma LastOwnRow(changes: seq<Change>, id: nat, days: set<Date>)
    requires changes != []
    ensures var before, last := changes[..|changes| - 1], changes[|changes| - 1];
            && (forall c :: c in OwnRows(before, id, days) ==> c in OwnRows(changes, id, days))
            && (!Foreign(last, id, days) ==> last in OwnRows(changes, id, days))
  {
  }

  lemma LooseLast(changes: seq<Change>, id: nat)
    requires changes != []
    ensures var n := |changes| - 1;
            && Loose(changes, id)[..n] == Loose(changes[..n], id)
            && Loose(changes, id)[n] == Loose([changes[n]], id)[0]
  {
  }

  // This date goes: its rows stay, about its days.
  lemma {:induction false} LooseOwn(changes: seq<Change>, id: nat, days: set<Date>)
    requires forall c :: c in OwnRows(changes, id, days) ==> c.payload.date.Some? && c.payload.date.value in days
    ensures OwnRows(Loose(changes, id), id, days) == Loose(OwnRows(changes, id, days), id)
  {
    if changes != [] {
      var before, last := changes[..|changes| - 1], changes[|changes| - 1];
      LastOwnRow(changes, id, days);
      LooseOwn(before, id, days);
      LooseLast(changes, id);
      if Foreign(last, id, days) {
        assert OwnRows(changes, id, days) == OwnRows(before, id, days);
      } else {
        assert !Foreign(Loose([last], id)[0], id, days);
        LooseAppends(OwnRows(before, id, days), last, id);
      }
    }
  }

  // ----- The rows of a whole life -----

  predicate Ordinary(c: Change) {
    c.kind != SlotAdded && c.kind != SlotRemoved
  }

  // A row about one of the days; a move leads to it from another one.
  predicate About(c: Change, days: set<Date>) {
    && c.payload.date.Some? && c.payload.date.value in days
    && (c.kind == SlotMoved ==>
          c.payload.from_.Some? && c.payload.to == c.payload.date && c.payload.from_ != c.payload.to)
  }

  // The rows of a date that is there: its addition and its edits.
  ghost predicate Alive(told: seq<Change>, id: nat, days: set<Date>, first: Date) {
    && told != [] && told[0].kind == SlotAdded && told[0].payload.date == Some(first)
    && (forall i :: 0 <= i < |told| ==> told[i].slotId == Some(id) && About(told[i], days))
    && (forall i :: 0 < i < |told| ==> Ordinary(told[i]))
  }

  // The rows of a date that is gone: its addition, its edits and its removal.
  ghost predicate Ended(told: seq<Change>, days: set<Date>, first: Date, last: Date) {
    && |told| >= 2
    && told[0].kind == SlotAdded && told[0].payload.date == Some(first)
    && told[|told| - 1].kind == SlotRemoved && told[|told| - 1].payload.date == Some(last)
    && (forall i :: 0 <= i < |told| ==> told[i].slotId == None && About(told[i], days))
    && (forall i :: 0 < i < |told| - 1 ==> Ordinary(told[i]))
  }

  // The date began on the day or was moved to it.
  ghost predicate Reached(told: seq<Change>, first: Date, x: Date) {
    x == first || exists i :: 0 <= i < |told| && told[i].kind == SlotMoved && told[i].payload.date == Some(x)
  }

  // Later rows say all that the earlier ones say, and more.
  ghost predicate Extends(told: seq<Change>, more: seq<Change>) {
    && |told| <= |more|
    && forall i :: 0 <= i < |told| ==> more[i].kind == told[i].kind && more[i].payload == told[i].payload
  }

  lemma ReachedStays(told: seq<Change>, more: seq<Change>, first: Date, x: Date)
    requires Extends(told, more) && Reached(told, first, x)
    ensures Reached(more, first, x)
  {
    if x != first {
      var i :| 0 <= i < |told| && told[i].kind == SlotMoved && told[i].payload.date == Some(x);
      assert more[i].kind == SlotMoved && more[i].payload.date == Some(x);
    }
  }

  lemma {:induction false} GroupRowsAre(rows: seq<Change>, key: GroupKey)
    ensures forall c :: c in GroupRows(rows, key) <==> c in rows && KeyOf(c) == key
  {
    if rows != [] {
      var before, last := rows[..|rows| - 1], rows[|rows| - 1];
      GroupRowsAre(before, key);
      assert rows == before + [last];
    }
  }

  // Of the rows before the removal, those about the first day begin with the addition, and all others are edits.
  lemma {:induction false} LifeOnDay(told: seq<Change>, days: set<Date>, first: Date, last: Date, x: Date, n: nat)
    requires Ended(told, days, first, last) && 1 <= n <= |told| - 1
    ensures var g := GroupRows(told[..n], OfDate(Some(x)));
            && (x == first ==> g != [] && g[0].kind == SlotAdded && forall i :: 0 < i < |g| ==> Ordinary(g[i]))
            && (x != first ==> forall i :: 0 <= i < |g| ==> Ordinary(g[i]))
  {
    if n == 1 {
      assert told[..1] == [told[0]] && [told[0]][..0] == [];
    } else {
      LifeOnDay(told, days, first, last, x, n - 1);
      assert told[..n] == told[..n - 1] + [told[n - 1]];
      GroupRowsAppends(told[..n - 1], told[n - 1], OfDate(Some(x)));
    }
  }

  lemma {:induction false} NothingPends(rows: seq<Change>)
    requires forall i :: 0 <= i < |rows| ==> Ordinary(rows[i])
    ensures !AdditionPending(rows)
  {
    if rows != [] { NothingPends(rows[..|rows| - 1]); }
  }

  lemma {:induction false} AdditionPends(rows: seq<Change>)
    requires rows != [] && rows[0].kind == SlotAdded && forall i :: 0 < i < |rows| ==> Ordinary(rows[i])
    ensures AdditionPending(rows)
  {
    if |rows| > 1 { AdditionPends(rows[..|rows| - 1]); }
  }

  // The digest of rows about one day is about that day.
  lemma {:induction false} FoldOnDay(rows: seq<Change>, x: Date)
    requires rows != [] && forall c :: c in rows ==> About(c, {x})
    ensures Fold(rows).day == Some(x)
  {
    var before, last := rows[..|rows| - 1], rows[|rows| - 1];
    assert last in rows;
    if before != [] { FoldOnDay(before, x); }
    AppliedOnDay(Fold(before), last, x);
  }

  lemma AppliedOnDay(d: Digest, c: Change, x: Date)
    requires About(c, {x}) && (d.added ==> d.day == Some(x))
    ensures Applied(d, c).day == Some(x)
  {
    match c.kind {
      case SlotRemoved => assert AppliedRemoved(d, c.payload.date).day == Some(x);
      case SlotMoved => assert AppliedMoved(d, c.payload.from_, c.payload.to).day == c.payload.to;
      case _ => DayFollows(d, c);
    }
  }

  // A day the date was moved to, without beginning or ending on it, is told as one it was moved to.
  lemma {:induction false} FoldOfMoves(rows: seq<Change>, x: Date)
    requires forall c :: c in rows ==> About(c, {x}) && Ordinary(c)
    ensures var d := Fold(rows);
            && (d.dateBefore.Some? <==> exists c :: c in rows && c.kind == SlotMoved)
            && (d.dateBefore.Some? ==> d.dateBefore != Some(x) && d.dateAfter == Some(x))
  {
    if rows != [] {
      var before, last := rows[..|rows| - 1], rows[|rows| - 1];
      assert rows == before + [last] && last in rows;
      FoldOfMoves(before, x);
      MovesApplied(Fold(before), last);
    }
  }

  lemma MovesApplied(d: Digest, c: Change)
    requires Ordinary(c)
    ensures c.kind == SlotMoved ==> Applied(d, c) == AppliedMoved(d, c.payload.from_, c.payload.to)
    ensures c.kind != SlotMoved ==> SameMove(Applied(d, c), d)
  {
    match c.kind {
      case SlotReleased => assert SameMove(AppliedReleased(d, c.payload.date), d);
      case SlotOrgsChanged => assert SameMove(AppliedOrgsChanged(d, c.payload), d);
      case SlotGameUnlinked => assert SameMove(AppliedUnlinked(d, c.payload.date), d);
      case _ =>
    }
  }

  predicate SameMove(a: Digest, b: Digest) {
    a.dateBefore == b.dateBefore && a.dateAfter == b.dateAfter
  }

  lemma {:induction false} FoldOfRemoval(rows: seq<Change>)
    requires forall c :: c in rows ==> c.kind != SlotRemoved
    ensures !Fold(rows).removed
  {
    if rows != [] {
      var before, last := rows[..|rows| - 1], rows[|rows| - 1];
      assert rows == before + [last] && last in rows;
      FoldOfRemoval(before);
      RemovalApplied(Fold(before), last);
    }
  }

  lemma RemovalApplied(d: Digest, c: Change)
    requires c.kind != SlotRemoved
    ensures Applied(d, c).removed == d.removed
  {
    match c.kind {
      case SlotMoved => assert AppliedMoved(d, c.payload.from_, c.payload.to).removed == d.removed;
      case SlotReleased => assert AppliedReleased(d, c.payload.date).removed == d.removed;
      case SlotOrgsChanged => assert AppliedOrgsChanged(d, c.payload).removed == d.removed;
      case SlotGameUnlinked => assert AppliedUnlinked(d, c.payload.date).removed == d.removed;
      case _ =>
    }
  }

  // What the digest of a day says about a date that came and went: nothing where it both began and ended, and
  // else that a date was added, removed, or moved there.
  ghost predicate LifeLine(d: Digest, first: Date, last: Date, x: Date) {
    if x == first == last then d.IsEmpty()
    else
      && d.day == Some(x) && d.added == (x == first) && d.removed == (x == last)
      && (x != first && x != last ==> d.Moved())
  }

  lemma LifeSplits(told: seq<Change>, last: Date, x: Date)
    requires told != [] && KeyOf(told[|told| - 1]) == OfDate(Some(last))
    ensures var n := |told| - 1;
            GroupRows(told, OfDate(Some(x))) ==
            GroupRows(told[..n], OfDate(Some(x))) + if x == last then [told[n]] else []
  {
    var n := |told| - 1;
    assert told == told[..n] + [told[n]];
    GroupRowsAppends(told[..n], told[n], OfDate(Some(x)));
  }

  lemma GroupIsAbout(told: seq<Change>, days: set<Date>, x: Date)
    requires forall c :: c in told ==> c.slotId == None && About(c, days)
    ensures forall c :: c in GroupRows(told, OfDate(Some(x))) ==> About(c, {x})
  {
    GroupRowsAre(told, OfDate(Some(x)));
  }

  lemma LifeLines(told: seq<Change>, days: set<Date>, first: Date, last: Date, x: Date)
    requires Ended(told, days, first, last) && Reached(told, first, x)
    ensures LifeLine(Fold(GroupRows(told, OfDate(Some(x)))), first, last, x)
  {
    var n := |told| - 1;
    var g, all := GroupRows(told[..n], OfDate(Some(x))), GroupRows(told, OfDate(Some(x)));
    LifeOnDay(told, days, first, last, x, n);
    LifeSplits(told, last, x);
    forall c | c in told ensures c.slotId == None && About(c, days) {}
    GroupIsAbout(told, days, x);
    if x == first { AdditionPends(g); } else { NothingPends(g); }
    if x == last {
      RemovalSilentIff(g, told[n]);
      PendingIsAdded(all);
      FoldOnDay(all, x);
    } else {
      assert all == g;
      PendingIsAdded(g);
      FoldOfRemoval(g);
      if x != first { MovedThere(told, g, days, first, x); }
      FoldOnDay(g, x);
    }
  }

  lemma MovedThere(told: seq<Change>, g: seq<Change>, days: set<Date>, first: Date, x: Date)
    requires g == GroupRows(told, OfDate(Some(x))) && x != first && Reached(told, first, x)
    requires forall c :: c in told ==> c.slotId == None && About(c, days)
    requires forall c :: c in g ==> Ordinary(c)
    ensures g != [] && Fold(g).Moved()
  {
    var i :| 0 <= i < |told| && told[i].kind == SlotMoved && told[i].payload.date == Some(x);
    GroupRowsAre(told, OfDate(Some(x)));
    assert told[i] in g;
    FoldOfMoves(g, x);
  }

  // ----- Steps that leave the date alone -----

  // No other date is on one of the days.
  ghost predicate Alone(st: State, id: nat, days: set<Date>) {
    forall other :: other in st.slots && other != id ==> st.slots[other].date !in days
  }

  // Rows of an edit are about the day the date was on or the day it was moved to.
  lemma DraftsAreAbout(slot: Slot, edit: Edit)
    ensures var (slot', drafts) := Edited(slot, edit);
            && (forall i :: 0 <= i < |drafts| ==>
                  && drafts[i].payload.date in {Some(slot.date), Some(slot'.date)}
                  && drafts[i].kind != SlotAdded && drafts[i].kind != SlotRemoved
                  && (drafts[i].kind == SlotMoved ==>
                        && drafts[i].payload.to == drafts[i].payload.date == Some(slot'.date)
                        && drafts[i].payload.from_ == Some(slot.date) && slot.date != slot'.date))
            && (slot'.date != slot.date ==> drafts != [] && drafts[|drafts| - 1].kind == SlotMoved)
  {
  }

  lemma EditElsewhere(st: State, other: nat, edit: Edit, year: int, id: nat, days: set<Date>)
    requires other in st.slots && other != id && st.slots[other].date !in days
    requires EditedState(st, other, edit).slots[other].date !in days
    ensures Told(EditedState(st, other, edit), year, id, days) == Told(st, year, id, days)
  {
    var (slot, drafts) := Edited(st.slots[other], edit);
    DraftsAreAbout(st.slots[other], edit);
    RecordedForeign(st.(slots := st.slots[other := slot]), slot.year, Some(other), drafts, year, id, days);
  }

  lemma RemovedElsewhere(st: State, other: nat, year: int, id: nat, days: set<Date>)
    requires other in st.slots && other != id && st.slots[other].date !in days
    requires forall c :: c in Told(st, year, id, days) ==> c.slotId != Some(other)
    ensures Told(RemovedState(st, other), year, id, days) == Told(st, year, id, days)
  {
    var slot := st.slots[other];
    DetachedUnpublished(st.rows, other, year);
    LooseOthers(Unpublished(st.rows, year), other, id, days);
    RecordedForeign(st.(rows := Detached(st.rows, other), slots := st.slots - {other}), slot.year, None,
                    [Draft(SlotRemoved, NO_PAYLOAD.(date := Some(slot.date)))], year, id, days);
  }

  ghost predicate LeavesAlone(st: State, ev: Event, id: nat) {
    EditOf(st, ev, id).None? && (id in st.slots <==> id in Step(st, ev).slots)
  }

  lemma StepElsewhere(st: State, ev: Event, year: int, id: nat, days: set<Date>)
    requires Safe(st) && ev != PublishDigest(year) && LeavesAlone(st, ev, id)
    requires Alone(st, id, days) && Alone(Step(st, ev), id, days)
    requires forall c :: c in Told(st, year, id, days) ==> c.slotId == None || c.slotId == Some(id)
    ensures Told(Step(st, ev), year, id, days) == Told(st, year, id, days)
  {
    if Attempt(st, ev).Ok? {
      match ev
      case Wait(time) =>
      case PublishSeason(y, drafts) =>
        AddedDraftsKeeps(st.(seasons := st.seasons + {y}), y, Sort(Earlier, drafts));
      case AddSlot(y, d, note) =>
        assert Step(st, ev).slots[st.nextSlot].date == d;
        RecordedForeign(AddedSlot(st, y, d, note), y, Some(st.nextSlot),
                        [Draft(SlotAdded, NO_PAYLOAD.(date := Some(d), note := note))], year, id, days);
      case RemoveSlot(y, other) => RemovedElsewhere(st, other, year, id, days);
      case EditSlot(y, other, edit) => EditElsewhere(st, other, edit, year, id, days);
      case FollowGame(gameId, started) =>
        if SlotsOfGame(st.slots, gameId) != {} {
          var other :| other in SlotsOfGame(st.slots, gameId)
              && Step(st, ev) == EditedState(st, other, Follow(started));
          OneSlotOfGame(st.slots, gameId, other);
          EditElsewhere(st, other, Follow(started), year, id, days);
        }
      case PublishDigest(y) => MarkedStrange(st.rows, y, year);
    }
  }

  // ----- The life of one date -----

  predicate OnDays(st: State, id: nat, days: set<Date>) {
    id in st.slots && st.slots[id].date in days
  }

  ghost predicate Living(st: State, year: int, id: nat, days: set<Date>, first: Date) {
    && OnDays(st, id, days) && st.slots[id].year == year
    && Alive(Told(st, year, id, days), id, days, first)
    && Reached(Told(st, year, id, days), first, st.slots[id].date)
  }

  ghost predicate Over(st: State, year: int, id: nat, days: set<Date>, first: Date, last: Date) {
    id !in st.slots && id < st.nextSlot && Ended(Told(st, year, id, days), days, first, last)
  }

  lemma BornIsTold(st: State, year: int, days: set<Date>, day: Date, note: Option<string>)
    requires day in days && Told(st, year, st.nextSlot, days) == []
    ensures var draft := Draft(SlotAdded, NO_PAYLOAD.(date := Some(day), note := note));
            Told(Recorded(AddedSlot(st, year, day, note), year, Some(st.nextSlot), [draft]), year, st.nextSlot, days)
            == [Change(st.nextRow, st.clock, Some(st.nextSlot), SlotAdded, draft.payload)]
  {
    var draft := Draft(SlotAdded, NO_PAYLOAD.(date := Some(day), note := note));
    RecordedOwnRows(AddedSlot(st, year, day, note), year, Some(st.nextSlot), [draft], st.nextSlot, days);
  }

  lemma Born(st: State, year: int, days: set<Date>, day: Date, note: Option<string>)
    requires Safe(st) && Attempt(st, AddSlot(year, day, note)).Ok?
    requires day in days && Told(st, year, st.nextSlot, days) == []
    ensures Living(Step(st, AddSlot(year, day, note)), year, st.nextSlot, days, day)
  {
    var draft := Draft(SlotAdded, NO_PAYLOAD.(date := Some(day), note := note));
    var born := Recorded(AddedSlot(st, year, day, note), year, Some(st.nextSlot), [draft]);
    assert Step(st, AddSlot(year, day, note)) == born;
    BornIsTold(st, year, days, day, note);
    assert Alive(Told(born, year, st.nextSlot, days), st.nextSlot, days, day);
  }

  lemma AliveGrows(
    told: seq<Change>, st: State, id: nat, slot: Slot, edit: Edit, days: set<Date>, first: Date)
    requires Alive(told, id, days, first) && slot.date in days && Edited(slot, edit).0.date in days
    requires Reached(told, first, slot.date)
    ensures var (slot', drafts) := Edited(slot, edit);
            var more := told + ChangesOf(Stamped(st, slot.year, Some(id), drafts));
            Alive(more, id, days, first) && Reached(more, first, slot'.date) && Extends(told, more)
  {
    var (slot', drafts) := Edited(slot, edit);
    var added := ChangesOf(Stamped(st, slot.year, Some(id), drafts));
    var more := told + added;
    DraftsAreAbout(slot, edit);
    ReachedStays(told, more, first, slot.date);
    if slot'.date != slot.date {
      assert more[|more| - 1] == added[|drafts| - 1];
      assert more[|more| - 1].kind == SlotMoved && more[|more| - 1].payload.date == Some(slot'.date);
    }
  }

  lemma EditedLife(st: State, year: int, id: nat, edit: Edit, days: set<Date>, first: Date)
    requires Living(st, year, id, days, first) && Edited(st.slots[id], edit).0.date in days
    ensures Living(EditedState(st, id, edit), year, id, days, first)
    ensures Extends(Told(st, year, id, days), Told(EditedState(st, id, edit), year, id, days))
  {
    var slot := st.slots[id];
    var (slot', drafts) := Edited(slot, edit);
    EditKeepsYear(slot, edit);
    RecordedOwnRows(st.(slots := st.slots[id := slot']), year, Some(id), drafts, id, days);
    assert Stamped(st.(slots := st.slots[id := slot']), year, Some(id), drafts) == Stamped(st, year, Some(id), drafts);
    AliveGrows(Told(st, year, id, days), st, id, slot, edit, days, first);
  }

  lemma LivesOn(st: State, ev: Event, year: int, id: nat, days: set<Date>, first: Date)
    requires Safe(st) && Living(st, year, id, days, first) && ev != PublishDigest(year)
    requires OnDays(Step(st, ev), id, days)
    requires Alone(st, id, days) && Alone(Step(st, ev), id, days)
    ensures Living(Step(st, ev), year, id, days, first)
    ensures Extends(Told(st, year, id, days), Told(Step(st, ev), year, id, days))
  {
    StepOnSlot(st, ev, id);
    if EditOf(st, ev, id).Some? {
      StepIsEdit(st, ev, id);
      EditedLife(st, year, id, EditOf(st, ev, id).value, days, first);
    } else {
      forall c | c in Told(st, year, id, days) ensures c.slotId == Some(id) {}
      StepElsewhere(st, ev, year, id, days);
    }
  }

  lemma StepIsEdit(st: State, ev: Event, id: nat)
    requires Safe(st) && id in st.slots && EditOf(st, ev, id).Some?
    ensures Step(st, ev) == EditedState(st, id, EditOf(st, ev, id).value)
  {
  }

  lemma RemovalIsTold(st: State, year: int, id: nat, days: set<Date>) returns (removed: Change)
    requires OnDays(st, id, days) && st.slots[id].year == year
    requires forall c :: c in Told(st, year, id, days) ==> c.payload.date.Some? && c.payload.date.value in days
    ensures removed == Change(st.nextRow, st.clock, None, SlotRemoved, NO_PAYLOAD.(date := Some(st.slots[id].date)))
    ensures Told(RemovedState(st, id), year, id, days) == Loose(Told(st, year, id, days), id) + [removed]
  {
    DetachedUnpublished(st.rows, id, year);
    LooseOwn(Unpublished(st.rows, year), id, days);
    var gone := st.(rows := Detached(st.rows, id), slots := st.slots - {id});
    var draft := Draft(SlotRemoved, NO_PAYLOAD.(date := Some(st.slots[id].date)));
    RecordedOwnRows(gone, year, None, [draft], id, days);
    OneStamped(gone, year, None, draft);
    removed := Change(gone.nextRow, gone.clock, None, SlotRemoved, draft.payload);
  }

  lemma RemovalAddsRow(st: State, year: int, id: nat, removed: Change)
    requires There(st, year, id)
    requires removed == Change(st.nextRow, st.clock, None, SlotRemoved, NO_PAYLOAD.(date := Some(st.slots[id].date)))
    ensures Unpublished(Step(st, RemoveSlot(year, id)).rows, year) == Loose(Unpublished(st.rows, year), id) + [removed]
  {
    DetachedUnpublished(st.rows, id, year);
    var gone := st.(rows := Detached(st.rows, id), slots := st.slots - {id});
    var draft := Draft(SlotRemoved, NO_PAYLOAD.(date := Some(st.slots[id].date)));
    assert RemovedState(st, id) == Recorded(gone, year, None, [draft]);
    RecordedUnpublished(gone, year, None, [draft]);
    OneStamped(gone, year, None, draft);
  }

  lemma LifeEnds(told: seq<Change>, id: nat, days: set<Date>, first: Date, last: Date, removed: Change)
    requires Alive(told, id, days, first) && last in days && OneDay(removed, SlotRemoved, None, last)
    ensures Ended(Loose(told, id) + [removed], days, first, last)
    ensures Extends(told, Loose(told, id) + [removed])
  {
  }

  lemma Dies(st: State, year: int, id: nat, days: set<Date>, first: Date)
    requires Safe(st) && Living(st, year, id, days, first) && year in st.seasons
    ensures Over(Step(st, RemoveSlot(year, id)), year, id, days, first, st.slots[id].date)
    ensures Extends(Told(st, year, id, days), Told(Step(st, RemoveSlot(year, id)), year, id, days))
  {
    var told := Told(st, year, id, days);
    forall c | c in told ensures c.payload.date.Some? && c.payload.date.value in days {}
    var removed := RemovalIsTold(st, year, id, days);
    assert Step(st, RemoveSlot(year, id)) == RemovedState(st, id);
    LifeEnds(told, id, days, first, st.slots[id].date, removed);
  }

  lemma StaysOver(st: State, ev: Event, year: int, id: nat, days: set<Date>, first: Date, last: Date)
    requires Safe(st) && Over(st, year, id, days, first, last) && ev != PublishDigest(year)
    requires Alone(st, id, days) && Alone(Step(st, ev), id, days)
    ensures Over(Step(st, ev), year, id, days, first, last)
    ensures Told(Step(st, ev), year, id, days) == Told(st, year, id, days)
  {
    StepKeepsSafe(st, ev);
    NeverBack(st, ev, id);
    forall c | c in Told(st, year, id, days) ensures c.slotId == None {}
    StepElsewhere(st, ev, year, id, days);
  }

  // A date that is gone, or whose number was not given yet, does not appear but by being added.
  lemma NeverBack(st: State, ev: Event, id: nat)
    requires Safe(st) && id !in st.slots && id < st.nextSlot
    ensures id !in Step(st, ev).slots && EditOf(st, ev, id).None?
  {
    if Attempt(st, ev).Ok? && ev.PublishSeason? {
      AddedDraftsKeeps(st.(seasons := st.seasons + {ev.year}), ev.year, Sort(Earlier, ev.drafts));
    }
  }

  // ----- Windows in which one date comes and goes -----

  ghost predicate StepAt(states: seq<State>, events: seq<Event>, k: nat)
    requires k < |events| && |states| == |events| + 1
  {
    states[k + 1] == Step(states[k], events[k])
  }

  // The states of a run, one before each event and one after the last.
  ghost predicate Trace(states: seq<State>, events: seq<Event>) {
    && |states| == |events| + 1 && Safe(states[0])
    && forall k {:trigger StepAt(states, events, k)} :: 0 <= k < |events| ==> StepAt(states, events, k)
  }

  lemma {:induction false} TraceIsRun(states: seq<State>, events: seq<Event>)
    requires Trace(states, events)
    ensures states[|events|] == Run(states[0], events)
  {
    if events != [] {
      var n := |events| - 1;
      assert StepAt(states, events, n);
      var earlier, before := states[..n + 1], events[..n];
      forall k | 0 <= k < n ensures StepAt(earlier, before, k) {
        assert StepAt(states, events, k);
      }
      TraceIsRun(earlier, before);
    }
  }

  lemma {:induction false} SafeAlong(states: seq<State>, events: seq<Event>, k: nat)
    requires Trace(states, events) && k <= |events|
    ensures Safe(states[k])
  {
    if k > 0 {
      SafeAlong(states, events, k - 1);
      assert StepAt(states, events, k - 1);
      StepKeepsSafe(states[k - 1], events[k - 1]);
    }
  }

  lemma NextEvent(states: seq<State>, events: seq<Event>, k: nat)
    requires Trace(states, events) && k < |events|
    ensures states[k + 1] == Step(states[k], events[k]) && Safe(states[k]) && Safe(states[k + 1])
    ensures states[k].nextSlot <= states[k + 1].nextSlot
  {
    assert StepAt(states, events, k);
    SafeAlong(states, events, k);
    StepKeepsSafe(states[k], events[k]);
  }

  lemma {:induction false} NumbersGrow(states: seq<State>, events: seq<Event>, k: nat, n: nat)
    requires Trace(states, events) && k <= n <= |events|
    ensures states[k].nextSlot <= states[n].nextSlot
    decreases n
  {
    if k < n {
      NumbersGrow(states, events, k, n - 1);
      NextEvent(states, events, n - 1);
    }
  }

  // In a window without a digest of the season, event `a` adds the date and event `b` removes it; in between it is
  // on each of the days at some moment and on no other day, and no other date is ever on one of them.
  ghost predicate ComesAndGoes(
    states: seq<State>, events: seq<Event>, year: int, id: nat, days: set<Date>, a: nat, b: nat) {
    && Trace(states, events) && Unpublished(states[0].rows, year) == [] && WithinWindow(year, events)
    && a < b < |events|
    && events[a].AddSlot? && events[a].year == year
    && Attempt(states[a], events[a]).Ok? && id == states[a].nextSlot
    && events[b] == RemoveSlot(year, id) && Attempt(states[b], events[b]).Ok?
    && (forall k :: a < k <= b ==> OnDays(states[k], id, days))
    && (forall x {:trigger Visited(states, id, a, b, x)} :: x in days ==> Visited(states, id, a, b, x))
    && (forall k :: 0 <= k <= |events| ==> Alone(states[k], id, days))
  }

  ghost predicate Visited(states: seq<State>, id: nat, a: nat, b: nat, x: Date)
    requires b < |states|
  {
    exists k :: a < k <= b && IsOn(states[k], id, x)
  }

  predicate IsOn(st: State, id: nat, x: Date) {
    id in st.slots && st.slots[id].date == x
  }

  lemma FirstDay(states: seq<State>, events: seq<Event>, year: int, id: nat, days: set<Date>, a: nat, b: nat)
    requires ComesAndGoes(states, events, year, id, days, a, b)
    ensures events[a].day in days && IsOn(states[a + 1], id, events[a].day)
  {
    NextEvent(states, events, a);
    assert OnDays(states[a + 1], id, days);
  }

  lemma NotThere(st: State, ev: Event, id: nat)
    requires id !in st.slots
    ensures EditOf(st, ev, id).None?
  {
  }

  lemma {:induction false} UnbornTold(
    states: seq<State>, events: seq<Event>, year: int, id: nat, days: set<Date>, a: nat, b: nat, k: nat)
    requires ComesAndGoes(states, events, year, id, days, a, b) && k <= a
    ensures Told(states[k], year, id, days) == []
  {
    if k > 0 {
      var before := states[k - 1];
      UnbornTold(states, events, year, id, days, a, b, k - 1);
      NextEvent(states, events, k - 1);
      NumbersGrow(states, events, k, a);
      NotThere(before, events[k - 1], id);
      assert Alone(before, id, days) && Alone(states[k], id, days);
      StepElsewhere(before, events[k - 1], year, id, days);
    }
  }

  lemma LivingNext(
    states: seq<State>, events: seq<Event>, year: int, id: nat, days: set<Date>, a: nat, b: nat, k: nat)
    requires ComesAndGoes(states, events, year, id, days, a, b) && a < k < b
    requires Living(states[k], year, id, days, events[a].day)
    ensures Living(states[k + 1], year, id, days, events[a].day)
    ensures Extends(Told(states[k], year, id, days), Told(states[k + 1], year, id, days))
  {
    var before, after := states[k], states[k + 1];
    NextEvent(states, events, k);
    assert OnDays(after, id, days) && Alone(before, id, days) && Alone(after, id, days);
    LivesOn(before, events[k], year, id, days, events[a].day);
  }

  lemma LivingAfterAddition(
    states: seq<State>, events: seq<Event>, year: int, id: nat, days: set<Date>, a: nat, b: nat)
    requires ComesAndGoes(states, events, year, id, days, a, b)
    ensures Living(states[a + 1], year, id, days, events[a].day)
  {
    FirstDay(states, events, year, id, days, a, b);
    UnbornTold(states, events, year, id, days, a, b, a);
    NextEvent(states, events, a);
    Born(states[a], year, days, events[a].day, events[a].note);
  }

  lemma {:induction false} StaysLiving(
    states: seq<State>, events: seq<Event>, year: int, id: nat, days: set<Date>, a: nat, b: nat, k: nat)
    requires ComesAndGoes(states, events, year, id, days, a, b) && a < k <= b
    ensures Living(states[k], year, id, days, events[a].day)
  {
    if k == a + 1 {
      LivingAfterAddition(states, events, year, id, days, a, b);
    } else {
      StaysLiving(states, events, year, id, days, a, b, k - 1);
      LivingNext(states, events, year, id, days, a, b, k - 1);
    }
  }

  lemma OverNext(
    states: seq<State>, events: seq<Event>, year: int, id: nat, days: set<Date>, a: nat, b: nat, k: nat, last: Date)
    requires ComesAndGoes(states, events, year, id, days, a, b) && b < k < |events|
    requires Over(states[k], year, id, days, events[a].day, last)
    ensures Over(states[k + 1], year, id, days, events[a].day, last)
    ensures Told(states[k + 1], year, id, days) == Told(states[k], year, id, days)
  {
    var before, after := states[k], states[k + 1];
    NextEvent(states, events, k);
    assert Alone(before, id, days) && Alone(after, id, days);
    StaysOver(before, events[k], year, id, days, events[a].day, last);
  }

  lemma OverAfterRemoval(
    states: seq<State>, events: seq<Event>, year: int, id: nat, days: set<Date>, a: nat, b: nat, last: Date)
    requires ComesAndGoes(states, events, year, id, days, a, b) && IsOn(states[b], id, last)
    ensures Over(states[b + 1], year, id, days, events[a].day, last)
    ensures Extends(Told(states[b], year, id, days), Told(states[b + 1], year, id, days))
  {
    StaysLiving(states, events, year, id, days, a, b, b);
    NextEvent(states, events, b);
    Dies(states[b], year, id, days, events[a].day);
  }

  lemma {:induction false} EndsOver(
    states: seq<State>, events: seq<Event>, year: int, id: nat, days: set<Date>, a: nat, b: nat, k: nat, last: Date)
    requires ComesAndGoes(states, events, year, id, days, a, b) && IsOn(states[b], id, last)
    requires b < k <= |events|
    ensures Over(states[k], year, id, days, events[a].day, last)
  {
    if k == b + 1 {
      OverAfterRemoval(states, events, year, id, days, a, b, last);
    } else {
      EndsOver(states, events, year, id, days, a, b, k - 1, last);
      OverNext(states, events, year, id, days, a, b, k - 1, last);
    }
  }

  lemma {:induction false} ToldRests(
    states: seq<State>, events: seq<Event>, year: int, id: nat, days: set<Date>, a: nat, b: nat, k: nat, last: Date)
    requires ComesAndGoes(states, events, year, id, days, a, b) && IsOn(states[b], id, last)
    requires b < k <= |events|
    ensures Told(states[k], year, id, days) == Told(states[b + 1], year, id, days)
  {
    if k > b + 1 {
      ToldRests(states, events, year, id, days, a, b, k - 1, last);
      RestsNext(states, events, year, id, days, a, b, k - 1, last);
    }
  }

  lemma RestsNext(
    states: seq<State>, events: seq<Event>, year: int, id: nat, days: set<Date>, a: nat, b: nat, k: nat, last: Date)
    requires ComesAndGoes(states, events, year, id, days, a, b) && IsOn(states[b], id, last)
    requires b < k < |events|
    ensures Told(states[k + 1], year, id, days) == Told(states[k], year, id, days)
  {
    EndsOver(states, events, year, id, days, a, b, k, last);
    OverNext(states, events, year, id, days, a, b, k, last);
  }

  lemma ReachedNext(
    states: seq<State>, events: seq<Event>, year: int, id: nat, days: set<Date>, a: nat, b: nat, n: nat, x: Date)
    requires ComesAndGoes(states, events, year, id, days, a, b) && a < n < b
    requires Reached(Told(states[n], year, id, days), events[a].day, x)
    ensures Reached(Told(states[n + 1], year, id, days), events[a].day, x)
  {
    StaysLiving(states, events, year, id, days, a, b, n);
    LivingNext(states, events, year, id, days, a, b, n);
    ReachedStays(Told(states[n], year, id, days), Told(states[n + 1], year, id, days), events[a].day, x);
  }

  // A day the date was on by some moment is one its rows lead to ever after.
  lemma {:induction false} StaysReached(
    states: seq<State>, events: seq<Event>, year: int, id: nat, days: set<Date>, a: nat, b: nat, k: nat, n: nat)
    requires ComesAndGoes(states, events, year, id, days, a, b) && a < k <= n <= b
    ensures id in states[k].slots
    ensures Reached(Told(states[n], year, id, days), events[a].day, states[k].slots[id].date)
    decreases n
  {
    if k < n {
      StaysReached(states, events, year, id, days, a, b, k, n - 1);
      ReachedNext(states, events, year, id, days, a, b, n - 1, states[k].slots[id].date);
    } else {
      StaysLiving(states, events, year, id, days, a, b, k);
    }
  }

  lemma ReachedInTheEnd(
    states: seq<State>, events: seq<Event>, year: int, id: nat, days: set<Date>, a: nat, b: nat, last: Date, x: Date)
    requires ComesAndGoes(states, events, year, id, days, a, b) && IsOn(states[b], id, last) && x in days
    ensures Reached(Told(states[|events|], year, id, days), events[a].day, x)
  {
    assert Visited(states, id, a, b, x);
    var k :| a < k <= b && IsOn(states[k], id, x);
    StaysReached(states, events, year, id, days, a, b, k, b);
    OverAfterRemoval(states, events, year, id, days, a, b, last);
    ReachedStays(Told(states[b], year, id, days), Told(states[b + 1], year, id, days), events[a].day, x);
    ToldRests(states, events, year, id, days, a, b, |events|, last);
  }

  // ----- What is published about those days -----

  lemma {:induction false} OwnRowsAreGroup(rows: seq<Change>, id: nat, days: set<Date>, x: Date)
    requires x in days
    ensures GroupRows(rows, OfDate(Some(x))) == GroupRows(OwnRows(rows, id, days), OfDate(Some(x)))
  {
    if rows != [] {
      var before, last := rows[..|rows| - 1], rows[|rows| - 1];
      OwnRowsAreGroup(before, id, days, x);
      if !Foreign(last, id, days) { GroupRowsAppends(OwnRows(before, id, days), last, OfDate(Some(x))); }
    }
  }

  // A row that says nothing about the day.
  predicate Away(c: Change, x: Date) {
    && c.payload.date.Some? && c.payload.date != Some(x)
    && (c.kind == SlotMoved ==> c.payload.to == c.payload.date)
  }

  lemma {:induction false} OtherGroupsAway(rows: seq<Change>, id: nat, days: set<Date>, x: Date, key: GroupKey)
    requires forall c :: c in OwnRows(rows, id, days) ==> c.slotId == None && About(c, days)
    requires x in days && key != OfDate(Some(x))
    ensures forall c :: c in GroupRows(rows, key) ==> Away(c, x)
  {
    if rows != [] {
      var before, last := rows[..|rows| - 1], rows[|rows| - 1];
      LastOwnRow(rows, id, days);
      OtherGroupsAway(before, id, days, x, key);
      if KeyOf(last) == key { assert Away(last, x); }
    }
  }

  lemma {:induction false} AwayDay(rows: seq<Change>, x: Date)
    requires forall c :: c in rows ==> Away(c, x)
    ensures Fold(rows).day != Some(x)
  {
    if rows != [] {
      AwayDay(rows[..|rows| - 1], x);
      assert rows[|rows| - 1] in rows;
      AppliedAway(Fold(rows[..|rows| - 1]), rows[|rows| - 1], x);
    }
  }

  // A digest stands where it stood or where the row says.
  lemma AppliedAway(d: Digest, c: Change, x: Date)
    requires Away(c, x) && d.day != Some(x)
    ensures Applied(d, c).day != Some(x)
  {
    match c.kind {
      case SlotRemoved => assert AppliedRemoved(d, c.payload.date).day in {d.day, c.payload.date};
      case SlotMoved => assert AppliedMoved(d, c.payload.from_, c.payload.to).day == c.payload.to;
      case _ => DayFollows(d, c);
    }
  }

  lemma DayFollows(d: Digest, c: Change)
    requires c.payload.date.Some? && c.kind != SlotMoved && c.kind != SlotRemoved
    ensures Applied(d, c).day == c.payload.date
  {
    match c.kind {
      case SlotReleased => assert AppliedReleased(d, c.payload.date).day == c.payload.date;
      case SlotOrgsChanged => assert AppliedOrgsChanged(d, c.payload).day == c.payload.date;
      case SlotGameUnlinked => assert AppliedUnlinked(d, c.payload.date).day == c.payload.date;
      case _ =>
    }
  }

  // What the published list says about one of the days, `first` and `last` being the first and the last of them:
  // nothing where the date both began and ended, and else that a date was added, removed, or moved there.
  ghost predicate PublishedLife(published: seq<Digest>, first: Date, last: Date, x: Date) {
    if x == first == last then forall d :: d in published ==> d.day != Some(x)
    else exists d :: d in published && LifeLine(d, first, last, x)
  }

  // The rows of one of the days, and what the list says about it, given what the rows of the date are.
  lemma LifeIsPublished(
    rows: seq<Change>, id: nat, days: set<Date>, first: Date, last: Date, x: Date)
    requires Sort(WrittenBefore, rows) == rows && x in days
    requires Ended(OwnRows(rows, id, days), days, first, last) && Reached(OwnRows(rows, id, days), first, x)
    ensures PublishedLife(Collapsed(rows), first, last, x)
  {
    var told := OwnRows(rows, id, days);
    OwnRowsAreGroup(rows, id, days, x);
    LifeLines(told, days, first, last, x);
    if x == first == last {
      forall c | c in told ensures c.slotId == None && About(c, days) {}
      forall d | d in Collapsed(rows) ensures d.day != Some(x) {
        var key := ListedIsFold(rows, d);
        if key != OfDate(Some(x)) {
          OtherGroupsAway(rows, id, days, x, key);
          AwayDay(GroupRows(rows, key), x);
        }
      }
    } else {
      FoldIsListed(rows, OfDate(Some(x)));
    }
  }

  // A date that comes and goes inside one window, on days no other date is on: what is published about each of
  // these days.
  lemma LifeToldByDay(
    states: seq<State>, events: seq<Event>, year: int, id: nat, days: set<Date>, a: nat, b: nat, last: Date, x: Date)
    requires ComesAndGoes(states, events, year, id, days, a, b) && IsOn(states[b], id, last) && x in days
    ensures PublishedLife(Collapsed(Unpublished(Run(states[0], events).rows, year)), events[a].day, last, x)
  {
    TraceIsRun(states, events);
    EndsOver(states, events, year, id, days, a, b, |events|, last);
    ReachedInTheEnd(states, events, year, id, days, a, b, last, x);
    SafeAlong(states, events, |events|);
    var rows := Unpublished(states[|events|].rows, year);
    UnpublishedInOrder(states[|events|].rows, year);
    SortOfSorted(WrittenBefore, rows);
    LifeIsPublished(rows, id, days, events[a].day, last, x);
  }

  lemma StayedIsSilent(
    states: seq<State>, events: seq<Event>, year: int, id: nat, days: set<Date>, a: nat, b: nat, d: Digest)
    requires ComesAndGoes(states, events, year, id, days, a, b) && NeverMoves(states, id, a, b, events[a].day)
    requires d in Collapsed(Unpublished(Run(states[0], events).rows, year))
    ensures d.day.None? || d.day.value !in days
  {
    if d.day.Some? && d.day.value in days {
      var x := d.day.value;
      assert Visited(states, id, a, b, x);
      var k :| a < k <= b && IsOn(states[k], id, x);
      assert IsOn(states[k], id, events[a].day) && IsOn(states[b], id, events[a].day);
      LifeToldByDay(states, events, year, id, days, a, b, x, x);
    }
  }

  lemma MovedIsTold(
    states: seq<State>, events: seq<Event>, year: int, id: nat, days: set<Date>, a: nat, b: nat)
    requires ComesAndGoes(states, events, year, id, days, a, b) && !NeverMoves(states, id, a, b, events[a].day)
    ensures exists d :: d in Collapsed(Unpublished(Run(states[0], events).rows, year))
                        && d.day.Some? && d.day.value in days
  {
    var k :| a < k <= b && !IsOn(states[k], id, events[a].day);
    assert OnDays(states[k], id, days) && OnDays(states[b], id, days);
    LifeToldByDay(states, events, year, id, days, a, b, states[b].slots[id].date, states[k].slots[id].date);
  }

  ghost predicate NeverMoves(states: seq<State>, id: nat, a: nat, b: nat, first: Date)
    requires b < |states|
  {
    forall k :: a < k <= b ==> IsOn(states[k], id, first)
  }

  // So nothing is published about any of them exactly when the date never moved.
  lemma LifeIsSilentIff(
    states: seq<State>, events: seq<Event>, year: int, id: nat, days: set<Date>, a: nat, b: nat)
    requires ComesAndGoes(states, events, year, id, days, a, b)
    ensures (forall d :: d in Collapsed(Unpublished(Run(states[0], events).rows, year)) ==>
               d.day.None? || d.day.value !in days)
       <==> NeverMoves(states, id, a, b, events[a].day)
  {
    var published := Collapsed(Unpublished(Run(states[0], events).rows, year));
    if NeverMoves(states, id, a, b, events[a].day) {
      forall d | d in published ensures d.day.None? || d.day.value !in days {
        StayedIsSilent(states, events, year, id, days, a, b, d);
      }
    } else {
      MovedIsTold(states, events, year, id, days, a, b);
    }
  }

  // Every line of the published list is the fold of some group of rows, and not empty.
  lemma ListedIsFold(rows: seq<Change>, d: Digest) returns (key: GroupKey)
    requires Sort(WrittenBefore, rows) == rows && d in Collapsed(rows)
    ensures d == Fold(GroupRows(rows, key)) && !d.IsEmpty()
  {
    var digests := Digests(rows, Keys(rows));
    SortKeeps(ListedBefore, NonEmpty(digests));
    assert d in multiset(Collapsed(rows));
    NonEmptyKeeps(digests, d);
    var i :| 0 <= i < |digests| && digests[i] == d;
    key := Keys(rows)[i];
  }

  // The fold of a group is listed when it is not empty.
  lemma FoldIsListed(rows: seq<Change>, key: GroupKey)
    requires Sort(WrittenBefore, rows) == rows && !Fold(GroupRows(rows, key)).IsEmpty()
    ensures Fold(GroupRows(rows, key)) in Collapsed(rows)
  {
    var digests := Digests(rows, Keys(rows));
    GroupHasKey(rows, key);
    var i :| 0 <= i < |Keys(rows)| && Keys(rows)[i] == key;
    assert digests[i] in digests;
    NonEmptyKeeps(digests, digests[i]);
    SortKeeps(ListedBefore, NonEmpty(digests));
    assert digests[i] in multiset(Collapsed(rows));
  }

  // ----- Windows that are told wrongly -----

  lemma RecordedUnpublished(st: State, year: int, slotId: Option<nat>, drafts: seq<Draft>)
    ensures Unpublished(Recorded(st, year, slotId, drafts).rows, year)
         == Unpublished(st.rows, year) + ChangesOf(Stamped(st, year, slotId, drafts))
  {
    UnpublishedOfConcat(st.rows, Stamped(st, year, slotId, drafts), year);
    AllUnpublished(Stamped(st, year, slotId, drafts), year);
  }

  lemma {:induction false} AllUnpublished(rows: seq<LogRow>, year: int)
    requires forall i :: 0 <= i < |rows| ==> rows[i].season == year && !rows[i].published
    ensures Unpublished(rows, year) == ChangesOf(rows)
  {
    if rows != [] {
      AllUnpublished(rows[..|rows| - 1], year);
      assert ChangesOf(rows) == ChangesOf(rows[..|rows| - 1]) + [rows[|rows| - 1].change];
    }
  }

  lemma RunMore(st: State, events: seq<Event>, ev: Event)
    ensures Run(st, events + [ev]) == Step(Run(st, events), ev)
  {
    assert (events + [ev])[..|events|] == events;
  }

  lemma RunOfOne(st: State, ev: Event)
    ensures Run(st, [ev]) == Step(st, ev)
  {
    assert [ev][..0] == [];
  }

  lemma RunOfThree(st: State, e: Event, f: Event, g: Event)
    ensures Run(st, [e, f]) == Step(Step(st, e), f)
    ensures Run(st, [e, f, g]) == Step(Step(Step(st, e), f), g)
  {
    RunOfOne(st, e);
    RunMore(st, [e], f);
    RunMore(st, [e, f], g);
    assert [e] + [f] == [e, f] && [e, f] + [g] == [e, f, g];
  }

  lemma RunOfFour(st: State, e: Event, f: Event, g: Event, h: Event)
    ensures Run(st, [e, f, g, h]) == Step(Step(Step(Step(st, e), f), g), h)
  {
    RunOfThree(st, e, f, g);
    RunMore(st, [e, f, g], h);
    assert [e, f, g] + [h] == [e, f, g, h];
  }

  // The date is in the published season of the year.
  ghost predicate There(st: State, year: int, id: nat) {
    Safe(st) && year in st.seasons && id in st.slots && st.slots[id].year == year
  }

  predicate OneDay(c: Change, kind: ChangeType, slotId: Option<nat>, day: Date) {
    c.kind == kind && c.slotId == slotId && c.payload.date == Some(day)
  }

  predicate MoveRow(c: Change, id: nat, from_: Date, to: Date) {
    && OneDay(c, SlotMoved, Some(id), to)
    && c.payload.from_ == Some(from_) && c.payload.to == Some(to) && from_ != to
  }

  lemma OneStamped(st: State, year: int, slotId: Option<nat>, draft: Draft)
    ensures ChangesOf(Stamped(st, year, slotId, [draft]))
         == [Change(st.nextRow, st.clock, slotId, draft.kind, draft.payload)]
  {
  }

  lemma AddIsTold(st: State, year: int, day: Date) returns (added: Change)
    requires Safe(st) && year in st.seasons && Unpublished(st.rows, year) == [] && YearOf(day) == year
    ensures var s1 := Step(st, AddSlot(year, day, None));
            && There(s1, year, st.nextSlot) && s1.slots[st.nextSlot].date == day
            && OneDay(added, SlotAdded, Some(st.nextSlot), day) && Unpublished(s1.rows, year) == [added]
  {
    var draft := Draft(SlotAdded, NO_PAYLOAD.(date := Some(day), note := None));
    var blank := AddedSlot(st, year, day, None);
    StepKeepsSafe(st, AddSlot(year, day, None));
    RecordedUnpublished(blank, year, Some(st.nextSlot), [draft]);
    OneStamped(blank, year, Some(st.nextSlot), draft);
    added := Change(st.nextRow, st.clock, Some(st.nextSlot), SlotAdded, draft.payload);
  }

  // An edit that goes through.
  lemma EditGoesThrough(st: State, year: int, id: nat, edit: Edit)
    requires There(st, year, id) && EditError(st, year, id, edit).None?
    ensures Step(st, EditSlot(year, id, edit)) == EditedState(st, id, edit)
    ensures There(EditedState(st, id, edit), year, id)
    ensures EditedState(st, id, edit).slots[id] == Edited(st.slots[id], edit).0
  {
    EditKeepsYear(st.slots[id], edit);
    EditedKeepsSafe(st, year, id, edit);
  }

  lemma MoveIsTold(st: State, year: int, id: nat, to: Date) returns (moved: Change)
    requires There(st, year, id) && st.slots[id].date != to && YearOf(to) == year
    ensures var s2 := Step(st, EditSlot(year, id, Move(to)));
            && There(s2, year, id) && s2.slots[id].date == to
            && MoveRow(moved, id, st.slots[id].date, to)
            && Unpublished(s2.rows, year) == Unpublished(st.rows, year) + [moved]
  {
    var draft := MovedDraft(st.slots[id].date, to);
    var gone := st.(slots := st.slots[id := st.slots[id].(date := to)]);
    EditGoesThrough(st, year, id, Move(to));
    assert EditedState(st, id, Move(to)) == Recorded(gone, year, Some(id), [draft]);
    RecordedUnpublished(gone, year, Some(id), [draft]);
    OneStamped(gone, year, Some(id), draft);
    moved := Change(st.nextRow, st.clock, Some(id), SlotMoved, draft.payload);
  }

  lemma {:induction false} AllOwnRows(rows: seq<Change>, id: nat, days: set<Date>)
    requires forall c :: c in rows ==> !Foreign(c, id, days)
    ensures OwnRows(rows, id, days) == rows
  {
    if rows != [] {
      assert rows == rows[..|rows| - 1] + [rows[|rows| - 1]];
      AllOwnRows(rows[..|rows| - 1], id, days);
    }
  }

  lemma OwnLifeIsPublished(rows: seq<Change>, id: nat, days: set<Date>, first: Date, last: Date, x: Date)
    requires Sort(WrittenBefore, rows) == rows && x in days
    requires Ended(rows, days, first, last) && Reached(rows, first, x)
    ensures PublishedLife(Collapsed(rows), first, last, x)
  {
    forall c | c in rows ensures !Foreign(c, id, days) { assert About(c, days); }
    AllOwnRows(rows, id, days);
    LifeIsPublished(rows, id, days, first, last, x);
  }

  lemma RemovalEndsLife(st: State, year: int, id: nat, days: set<Date>, first: Date, x: Date)
    requires There(st, year, id) && OnDays(st, id, days)
    requires Alive(Unpublished(st.rows, year), id, days, first) && Reached(Unpublished(st.rows, year), first, x)
    ensures var end := RemovedState(st, id);
            && Ended(Unpublished(end.rows, year), days, first, st.slots[id].date)
            && Reached(Unpublished(end.rows, year), first, x)
  {
    var told := Unpublished(st.rows, year);
    var removed := Change(st.nextRow, st.clock, None, SlotRemoved, NO_PAYLOAD.(date := Some(st.slots[id].date)));
    RemovalAddsRow(st, year, id, removed);
    LifeEnds(told, id, days, first, st.slots[id].date, removed);
    ReachedStays(told, Loose(told, id) + [removed], first, x);
  }

  // When all there is to tell is the life of one date, its removal leaves that to be published.
  lemma RemovalPublishes(st: State, year: int, id: nat, days: set<Date>, first: Date, x: Date)
    requires There(st, year, id) && OnDays(st, id, days) && x in days
    requires Alive(Unpublished(st.rows, year), id, days, first) && Reached(Unpublished(st.rows, year), first, x)
    ensures var end := Step(st, RemoveSlot(year, id));
            && id !in end.slots
            && PublishedLife(Collapsed(Unpublished(end.rows, year)), first, st.slots[id].date, x)
  {
    var end := RemovedState(st, id);
    assert Step(st, RemoveSlot(year, id)) == end;
    RemovalEndsLife(st, year, id, days, first, x);
    RemovedKeepsSafe(st, id);
    UnpublishedInOrder(end.rows, year);
    SortOfSorted(WrittenBefore, Unpublished(end.rows, year));
    OwnLifeIsPublished(Unpublished(end.rows, year), id, days, first, st.slots[id].date, x);
  }

  // A date that was added and moved, and what is to be told of it.
  lemma AddedAndMoved(st: State, year: int, from_: Date, to: Date) returns (st': State, told: seq<Change>)
    requires Safe(st) && year in st.seasons && Unpublished(st.rows, year) == []
    requires from_ != to && YearOf(from_) == year && YearOf(to) == year
    ensures st' == Step(Step(st, AddSlot(year, from_, None)), EditSlot(year, st.nextSlot, Move(to)))
    ensures There(st', year, st.nextSlot) && st'.slots[st.nextSlot].date == to
    ensures Unpublished(st'.rows, year) == told
    ensures |told| == 2 && OneDay(told[0], SlotAdded, Some(st.nextSlot), from_)
    ensures MoveRow(told[1], st.nextSlot, from_, to)
  {
    var s1 := Step(st, AddSlot(year, from_, None));
    var added := AddIsTold(st, year, from_);
    var moved := MoveIsTold(s1, year, st.nextSlot, to);
    st', told := Step(s1, EditSlot(year, st.nextSlot, Move(to))), [added] + [moved];
  }

  lemma MovedLife(told: seq<Change>, id: nat, from_: Date, to: Date)
    requires |told| == 2 && OneDay(told[0], SlotAdded, Some(id), from_) && MoveRow(told[1], id, from_, to)
    ensures Alive(told, id, {from_, to}, from_) && Reached(told, from_, to)
  {
  }

  // A date that is added, moved and removed in one window is told twice, as added and as removed, though nothing
  // of it is left.
  lemma AddMoveRemoveToldTwice(st: State, year: int, from_: Date, to: Date)
    requires Safe(st) && year in st.seasons && Unpublished(st.rows, year) == []
    requires from_ != to && YearOf(from_) == year && YearOf(to) == year
    ensures var id := st.nextSlot;
            var end := Run(st, [AddSlot(year, from_, None), EditSlot(year, id, Move(to)), RemoveSlot(year, id)]);
            && id !in end.slots
            && (exists d :: d in Collapsed(Unpublished(end.rows, year)) && d.added && d.day == Some(from_))
            && (exists d :: d in Collapsed(Unpublished(end.rows, year)) && d.removed && d.day == Some(to))
  {
    var id := st.nextSlot;
    RunOfThree(st, AddSlot(year, from_, None), EditSlot(year, id, Move(to)), RemoveSlot(year, id));
    var moved, told := AddedAndMoved(st, year, from_, to);
    MovedLife(told, id, from_, to);
    RemovalPublishes(moved, year, id, {from_, to}, from_, from_);
    RemovalPublishes(moved, year, id, {from_, to}, from_, to);
  }

  lemma MovedBack(st: State, year: int, id: nat, home: Date, away: Date)
    requires There(st, year, id) && st.slots[id].date == away && YearOf(home) == year
    requires Alive(Unpublished(st.rows, year), id, {home, away}, home) && home != away
    requires Reached(Unpublished(st.rows, year), home, away)
    ensures var st' := Step(st, EditSlot(year, id, Move(home)));
            && There(st', year, id) && st'.slots[id].date == home
            && Alive(Unpublished(st'.rows, year), id, {home, away}, home)
            && Reached(Unpublished(st'.rows, year), home, away)
  {
    var returned := MoveIsTold(st, year, id, home);
    var told := Unpublished(st.rows, year);
    ReachedStays(told, told + [returned], home, away);
  }

  // A date that is added, moved away and back and removed in one window is told as moved, though nothing of it
  // is left.
  lemma MovedBackTold(st: State, year: int, home: Date, away: Date)
    requires Safe(st) && year in st.seasons && Unpublished(st.rows, year) == []
    requires home != away && YearOf(home) == year && YearOf(away) == year
    ensures var id := st.nextSlot;
            var end := Run(st, [AddSlot(year, home, None), EditSlot(year, id, Move(away)),
                                EditSlot(year, id, Move(home)), RemoveSlot(year, id)]);
            && id !in end.slots
            && exists d :: d in Collapsed(Unpublished(end.rows, year))
                           && d.Moved() && d.day == Some(away) && !d.added && !d.removed
  {
    var id := st.nextSlot;
    RunOfFour(st, AddSlot(year, home, None), EditSlot(year, id, Move(away)), EditSlot(year, id, Move(home)),
              RemoveSlot(year, id));
    var moved, told := AddedAndMoved(st, year, home, away);
    MovedLife(told, id, home, away);
    MovedBack(moved, year, id, home, away);
    RemovalPublishes(Step(moved, EditSlot(year, id, Move(home))), year, id, {home, away}, home, away);
  }

  // An edit that goes through, folded.
  lemma EditFolds(st: State, year: int, id: nat, edit: Edit)
    requires There(st, year, id) && EditError(st, year, id, edit).None?
    ensures var (slot, drafts) := Edited(st.slots[id], edit);
            var st' := Step(st, EditSlot(year, id, edit));
            && There(st', year, id) && st'.slots[id] == slot
            && WindowDigest(st', year, id) == AppliedDrafts(WindowDigest(st, year, id), drafts)
  {
    EditGoesThrough(st, year, id, edit);
    StepFolds(st, EditSlot(year, id, edit), id);
  }

  // What an edit that does not move the date adds to its line.
  function Worded(slot: Slot, d: Digest, edit: Edit): Digest {
    match edit
    case Take(author, _) => d.(owner := Some(RecordedName(author)), released := false)
    case Release => d.(owner := None, released := d.released || d.owner.None?)
    case SetOrgs(orgs) =>
      d.(orgsBefore := if d.orgsChanged then d.orgsBefore else slot.orgs, orgs := orgs, orgsChanged := true)
    case Link(game) => d.(game := Some(game.name), gameUnlinked := false)
    case Unlink => if slot.game.None? then d else d.(game := None, gameUnlinked := d.gameUnlinked || d.game.None?)
    case _ => d
  }

  predicate StaysPut(edit: Edit) {
    edit.Take? || edit.Release? || edit.SetOrgs? || edit.Unlink? || (edit.Link? && edit.game.start.None?)
  }

  lemma EditWords(slot: Slot, d: Digest, edit: Edit)
    requires StaysPut(edit)
    ensures AppliedDrafts(d, Edited(slot, edit).1).(day := None) == Worded(slot, d, edit).(day := None)
  {
    var drafts := Edited(slot, edit).1;
    DraftsByHand(d, drafts);
    match edit {
      case Take(author, orgs) => assert |drafts| == 1 && drafts[0].kind == SlotTaken;
      case Release => assert AppliedDraft(d, drafts[0]) == AppliedReleased(d, Some(slot.date));
      case SetOrgs(orgs) => assert AppliedDraft(d, drafts[0]) == AppliedOrgsChanged(d, drafts[0].payload);
      case Link(game) => assert |drafts| == 1 && drafts[0].kind == SlotGameLinked;
      case Unlink => assert slot.game.Some? ==> AppliedDraft(d, drafts[0]) == AppliedUnlinked(d, Some(slot.date));
      case _ =>
    }
  }

  // One edit that goes through, as the next state.
  lemma AfterEdit(st: State, year: int, id: nat, edit: Edit) returns (st': State)
    requires There(st, year, id) && EditError(st, year, id, edit).None? && StaysPut(edit)
    ensures st' == Step(st, EditSlot(year, id, edit)) && There(st', year, id)
    ensures st'.slots[id] == Edited(st.slots[id], edit).0
    ensures WindowDigest(st', year, id).(day := None)
         == Worded(st.slots[id], WindowDigest(st, year, id), edit).(day := None)
  {
    EditFolds(st, year, id, edit);
    EditWords(st.slots[id], WindowDigest(st, year, id), edit);
    st' := Step(st, EditSlot(year, id, edit));
  }

  // A date nobody holds gets a game, loses it and is given up: its line says that it was released, though it was
  // as free when the window opened.
  lemma SilentTakeToldAsRelease(st: State, year: int, id: nat, game: Game)
    requires There(st, year, id) && Unpublished(st.rows, year) == []
    requires st.slots[id].owner.None? && st.slots[id].game.None?
    requires SlotsOfGame(st.slots, game.id) == {} && game.start.None?
    ensures var end := Run(st, [EditSlot(year, id, Link(game)), EditSlot(year, id, Unlink),
                                EditSlot(year, id, Release)]);
            && id in end.slots && end.slots[id].owner.None?
            && WindowDigest(end, year, id).released
            && WindowDigest(end, year, id) in Collapsed(Unpublished(end.rows, year))
  {
    RunOfThree(st, EditSlot(year, id, Link(game)), EditSlot(year, id, Unlink), EditSlot(year, id, Release));
    var s2 := LinkedAndUnlinked(st, year, id, game);
    var s3 := AfterEdit(s2, year, id, Release);
    PublishedDigestTellsWindow(s3, id);
  }

  lemma LinkedAndUnlinked(st: State, year: int, id: nat, game: Game) returns (st': State)
    requires There(st, year, id) && st.slots[id].game.None? && SlotsOfGame(st.slots, game.id) == {}
    requires game.start.None?
    ensures st' == Step(Step(st, EditSlot(year, id, Link(game))), EditSlot(year, id, Unlink))
    ensures There(st', year, id) && st'.slots[id].game.None?
    ensures WindowDigest(st', year, id).(day := None)
         == WindowDigest(st, year, id).(game := None, gameUnlinked := false, day := None)
  {
    var s1 := AfterEdit(st, year, id, Link(game));
    st' := AfterEdit(s1, year, id, Unlink);
  }

  // A player who signs up and names a team as well is shown, but announced as the team.
  lemma SignUpToldUnderTeam(st: State, year: int, id: nat, player: string, team: string, orgs: seq<string>)
    requires There(st, year, id) && player != team
    ensures var end := Run(st, [EditSlot(year, id, Take(Author(PlayerAuthor, player, Some(team)), orgs))]);
            && id in end.slots && end.slots[id].owner == Some(player)
            && WindowDigest(end, year, id).owner == Some(team)
            && WindowDigest(end, year, id) in Collapsed(Unpublished(end.rows, year))
  {
    var take := Take(Author(PlayerAuthor, player, Some(team)), orgs);
    RunOfOne(st, EditSlot(year, id, take));
    var end := AfterEdit(st, year, id, take);
    PublishedDigestTellsWindow(end, id);
  }

  // Organizers that were set are announced although a sign-up has replaced them since.
  lemma ReplacedOrgsTold(st: State, year: int, id: nat, orgs: seq<string>, author: Author, others: seq<string>)
    requires There(st, year, id) && orgs != others && (author.kind == TeamAuthor ==> author.team.Some?)
    ensures var end := Run(st, [EditSlot(year, id, SetOrgs(orgs)), EditSlot(year, id, Take(author, others))]);
            && id in end.slots && end.slots[id].orgs == others
            && WindowDigest(end, year, id).orgsChanged && WindowDigest(end, year, id).orgs == orgs
            && WindowDigest(end, year, id) in Collapsed(Unpublished(end.rows, year))
  {
    var change, take := EditSlot(year, id, SetOrgs(orgs)), EditSlot(year, id, Take(author, others));
    RunOfThree(st, change, take, take);
    var s1 := AfterEdit(st, year, id, SetOrgs(orgs));
    var s2 := AfterEdit(s1, year, id, Take(author, others));
    PublishedDigestTellsWindow(s2, id);
  }

  lemma NothingUnpublished(st: State, year: int, id: nat)
    requires Unpublished(st.rows, year) == []
    ensures WindowDigest(st, year, id) == FRESH
  {
  }

  // A date that is held, taken over and released in one window is free at its end, and no line says so.
  lemma TakeoverHidesRelease(st: State, year: int, id: nat, author: Author, orgs: seq<string>)
    requires There(st, year, id) && Unpublished(st.rows, year) == []
    requires st.slots[id].owner.Some? && st.slots[id].game.None? && (author.kind == TeamAuthor ==> author.team.Some?)
    ensures var end := Run(st, [EditSlot(year, id, Take(author, orgs)), EditSlot(year, id, Release)]);
            id in end.slots && end.slots[id].owner.None? && WindowDigest(end, year, id).IsEmpty()
  {
    var take, release := EditSlot(year, id, Take(author, orgs)), EditSlot(year, id, Release);
    RunOfThree(st, take, release, release);
    NothingUnpublished(st, year, id);
    var s1 := AfterEdit(st, year, id, Take(author, orgs));
    var s2 := AfterEdit(s1, year, id, Release);
  }

  lemma UnlinkAddsNoGame(st: State, id: nat, gameId: nat)
    requires id in st.slots && SlotsOfGame(st.slots, gameId) == {}
    ensures SlotsOfGame(EditedState(st, id, Unlink).slots, gameId) == {}
  {
    var after := EditedState(st, id, Unlink).slots;
    forall other | other in after ensures !SeasonSchedule.Holds(after[other], gameId) {
      assert other !in SlotsOfGame(st.slots, gameId);
    }
  }

  // A date that loses its game, gets another and loses that too in one window has none at its end, and no line
  // says so.
  lemma OtherGameHidesLoss(st: State, year: int, id: nat, game: Game)
    requires There(st, year, id) && Unpublished(st.rows, year) == [] && st.slots[id].game.Some?
    requires SlotsOfGame(st.slots, game.id) == {} && game.start.None?
    ensures var end := Run(st, [EditSlot(year, id, Unlink), EditSlot(year, id, Link(game)),
                                EditSlot(year, id, Unlink)]);
            id in end.slots && end.slots[id].game.None? && WindowDigest(end, year, id).IsEmpty()
  {
    RunOfThree(st, EditSlot(year, id, Unlink), EditSlot(year, id, Link(game)), EditSlot(year, id, Unlink));
    NothingUnpublished(st, year, id);
    var s1 := AfterEdit(st, year, id, Unlink);
    UnlinkAddsNoGame(st, id, game.id);
    var s3 := LinkedAndUnlinked(s1, year, id, game);
  }
}
