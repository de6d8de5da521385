// The daily digest of a season: change rows are grouped by the date they belong to and folded, in the
// order they were written, into the net effect on that date. Dates and instants are integers.
module SeasonDigest {
  import opened Common
  import opened Sorting

  type Date = int

  const YEAR_LENGTH: int := 366
  const DATE_MAX: Date := 9999 * YEAR_LENGTH + 365

  datatype ChangeType =
    | SlotAdded | SlotMoved | SlotRemoved | SlotTaken | SlotReleased
    | SlotOrgsChanged | SlotNoteChanged | SlotGameLinked | SlotGameUnlinked

  // What a row carries. A key the payload does not have, or that is not a date where one is expected, is None.
  datatype Payload = Payload(
    date: Option<Date>, from_: Option<Date>, to: Option<Date>,
    author: Option<string>, orgs: seq<string>, orgsBefore: seq<string>,
    note: Option<string>, game: Option<string>)

  const NO_PAYLOAD := Payload(None, None, None, None, [], [], None, None)

  datatype Change = Change(id: nat, createdAt: int, slotId: Option<nat>, kind: ChangeType, payload: Payload)

  // The fields of a digest, as a value.
  datatype Digest = Digest(
    day: Option<Date>, added: bool, removed: bool,
    dateBefore: Option<Date>, dateAfter: Option<Date>,
    note: Option<string>, noteChanged: bool,
    owner: Option<string>, released: bool,
    orgs: seq<string>, orgsBefore: seq<string>, orgsChanged: bool,
    game: Option<string>, gameUnlinked: bool)
  {
    predicate Moved() {
      dateBefore.Some? && dateAfter.Some? && dateBefore != dateAfter
    }

    predicate IsEmpty() {
      && !added && !removed && !Moved() && !noteChanged && !orgsChanged
      && !released && owner.None? && game.None? && !gameUnlinked
    }
  }

  const FRESH := Digest(None, false, false, None, None, None, false, None, false, [], [], false, None, false)

  function OrElse<T>(a: Option<T>, b: Option<T>): Option<T> {
    if a.Some? then a else b
  }

  // What remains of a digest when the date it is about turns out never to have been announced.
  function Forgotten(d: Digest): Digest {
    Digest(d.day, d.added, d.removed, None, None, None, false, None, false, [], [], false, None, false)
  }

  function AppliedRemoved(d: Digest, date: Option<Date>): Digest {
    if d.added then Forgotten(d).(removed := false, added := false)
    else d.(removed := true, day := OrElse(date, d.day))
  }

  function AppliedMoved(d: Digest, from_: Option<Date>, to: Option<Date>): Digest {
    d.(dateBefore := OrElse(d.dateBefore, from_), dateAfter := to, day := OrElse(to, d.day))
  }

  function AppliedReleased(d: Digest, date: Option<Date>): Digest {
    d.(owner := None, released := d.released || d.owner.None?, day := OrElse(date, d.day))
  }

  function AppliedOrgsChanged(d: Digest, p: Payload): Digest {
    d.(orgsBefore := if d.orgsChanged then d.orgsBefore else p.orgsBefore,
       orgs := p.orgs, orgsChanged := true, day := OrElse(p.date, d.day))
  }

  function AppliedUnlinked(d: Digest, date: Option<Date>): Digest {
    d.(game := None, gameUnlinked := d.gameUnlinked || d.game.None?, day := OrElse(date, d.day))
  }

  function Applied(d: Digest, c: Change): Digest {
    var p := c.payload;
    match c.kind
    case SlotAdded => d.(added := true, day := OrElse(p.date, d.day))
    case SlotRemoved => AppliedRemoved(d, p.date)
    case SlotMoved => AppliedMoved(d, p.from_, p.to)
    case SlotTaken => d.(owner := p.author, released := false, day := OrElse(p.date, d.day))
    case SlotReleased => AppliedReleased(d, p.date)
    case SlotOrgsChanged => AppliedOrgsChanged(d, p)
    case SlotNoteChanged => d.(note := p.note, noteChanged := true, day := OrElse(p.date, d.day))
    case SlotGameLinked => d.(game := p.game, gameUnlinked := false, day := OrElse(p.date, d.day))
    case SlotGameUnlinked => AppliedUnlinked(d, p.date)
  }

  // A digest is filled in place, one row at a time.
  class SlotDigest {
    var day: Option<Date>
    var added: bool
    var removed: bool
    var dateBefore: Option<Date>
    var dateAfter: Option<Date>
    var note: Option<string>
    var noteChanged: bool
    var owner: Option<string>
    var released: bool
    var orgs: seq<string>
    var orgsBefore: seq<string>
    var orgsChanged: bool
    var game: Option<string>
    var gameUnlinked: bool

    function Value(): Digest
      reads this
    {
      Digest(day, added, removed, dateBefore, dateAfter, note, noteChanged, owner, released,
             orgs, orgsBefore, orgsChanged, game, gameUnlinked)
    }

    constructor ()
      ensures Value() == FRESH
    {
      day, added, removed, dateBefore, dateAfter := None, false, false, None, None;
      note, noteChanged, owner, released := None, false, None, false;
      orgs, orgsBefore, orgsChanged, game, gameUnlinked := [], [], false, None, false;
    }

    // The date is gone: only its day and the two flags remain.
    method Reset()
      modifies `dateBefore, `dateAfter, `owner, `released, `orgs, `orgsBefore, `orgsChanged,
               `note, `noteChanged, `game, `gameUnlinked
      ensures dateBefore == None && dateAfter == None && owner == None && !released
      ensures orgs == [] && orgsBefore == [] && !orgsChanged && note == None && !noteChanged
      ensures game == None && !gameUnlinked
    {
      dateBefore, dateAfter, owner, released := None, None, None, false;
      orgs, orgsBefore, orgsChanged := [], [], false;
      note, noteChanged, game, gameUnlinked := None, false, None, false;
    }

    method ApplyRemoved(date: Option<Date>)
      modifies this
      ensures Value() == AppliedRemoved(old(Value()), date)
    {
      if added {
        // nobody has heard of the date yet, so nobody hears of its end
        Reset();
        removed := false;
        added := false;
        return;
      }
      removed := true;
      day := OrElse(date, day);
    }

    method ApplyMoved(from_: Option<Date>, to: Option<Date>)
      modifies `dateBefore, `dateAfter, `day
      ensures Value() == AppliedMoved(old(Value()), from_, to)
    {
      if dateBefore.None? {
        dateBefore := from_;
      }
      dateAfter := to;
      day := OrElse(dateAfter, day);
    }

    method ApplyReleased(date: Option<Date>)
      modifies `owner, `released, `day
      ensures Value() == AppliedReleased(old(Value()), date)
    {
      if owner.Some? {
        // the sign-up was not announced yet, so it is dropped
        owner := None;
      } else {
        released := true;
      }
      day := OrElse(date, day);
    }

    method ApplyOrgsChanged(p: Payload)
      modifies `orgs, `orgsBefore, `orgsChanged, `day
      ensures Value() == AppliedOrgsChanged(old(Value()), p)
    {
      if !orgsChanged {
        orgsBefore := p.orgsBefore;
      }
      orgs := p.orgs;
      orgsChanged := true;
      day := OrElse(p.date, day);
    }

    method ApplyUnlinked(date: Option<Date>)
      modifies `game, `gameUnlinked, `day
      ensures Value() == AppliedUnlinked(old(Value()), date)
    {
      if game.Some? {
        game := None;
      } else {
        gameUnlinked := true;
      }
      day := OrElse(date, day);
    }

    method Apply(c: Change)
      modifies this
      ensures Value() == Applied(old(Value()), c)
    {
      var payload := c.payload;
      match c.kind {
        case SlotAdded =>
          added := true;
          day := OrElse(payload.date, day);
        case SlotRemoved => ApplyRemoved(payload.date);
        case SlotMoved => ApplyMoved(payload.from_, payload.to);
        case SlotTaken =>
          owner := payload.author;
          released := false;
          day := OrElse(payload.date, day);
        case SlotReleased => ApplyReleased(payload.date);
        case SlotOrgsChanged => ApplyOrgsChanged(payload);
        case SlotNoteChanged =>
          note := payload.note;
          noteChanged := true;
          day := OrElse(payload.date, day);
        case SlotGameLinked =>
          game := payload.game;
          gameUnlinked := false;
          day := OrElse(payload.date, day);
        case SlotGameUnlinked => ApplyUnlinked(payload.date);
      }
    }
  }

  // ----- Grouping -----

  datatype GroupKey = OfSlot(id: nat) | OfDate(date: Option<Date>)

  function KeyOf(c: Change): GroupKey {
    if c.slotId.Some? then OfSlot(c.slotId.value) else OfDate(OrElse(c.payload.date, c.payload.from_))
  }

  predicate WrittenBefore(a: Change, b: Change) {
    a.createdAt < b.createdAt || (a.createdAt == b.createdAt && a.id <= b.id)
  }

  function GroupRows(rows: seq<Change>, key: GroupKey): seq<Change> {
    if rows == [] then []
    else
      var before := GroupRows(rows[..|rows| - 1], key);
      if KeyOf(rows[|rows| - 1]) == key then before + [rows[|rows| - 1]] else before
  }

  function Fold(rows: seq<Change>): Digest {
    if rows == [] then FRESH else Applied(Fold(rows[..|rows| - 1]), rows[|rows| - 1])
  }

  // The groups in the order in which they first appear.
  function Keys(rows: seq<Change>): (keys: seq<GroupKey>)
    ensures forall i, j :: 0 <= i < j < |keys| ==> keys[i] != keys[j]
  {
    if rows == [] then []
    else
      var before := Keys(rows[..|rows| - 1]);
      var key := KeyOf(rows[|rows| - 1]);
      if key in before then before else before + [key]
  }

  // A group is listed exactly when some row belongs to it.
  lemma {:induction false} KeysAreOfRows(rows: seq<Change>, key: GroupKey)
    ensures key in Keys(rows) <==> exists c :: c in rows && KeyOf(c) == key
  {
    if rows != [] {
      var rest := rows[..|rows| - 1];
      KeysAreOfRows(rest, key);
      assert forall c :: c in rows <==> c in rest || c == rows[|rows| - 1];
    }
  }

  // One digest for each group, folded from the rows of that group alone.
  function Digests(rows: seq<Change>, keys: seq<GroupKey>): (digests: seq<Digest>)
    ensures |digests| == |keys|
    ensures forall i :: 0 <= i < |keys| ==> digests[i] == Fold(GroupRows(rows, keys[i]))
  {
    seq(|keys|, i requires 0 <= i < |keys| => Fold(GroupRows(rows, keys[i])))
  }

  function NonEmpty(digests: seq<Digest>): seq<Digest> {
    if digests == [] then []
    else
      var before := NonEmpty(digests[..|digests| - 1]);
      if digests[|digests| - 1].IsEmpty() then before else before + [digests[|digests| - 1]]
  }

  function DayOrMax(d: Digest): Date { if d.day.Some? then d.day.value else DATE_MAX }

  function Flag(b: bool): int { if b then 1 else 0 }

  predicate ListedBefore(a: Digest, b: Digest) {
    || DayOrMax(a) < DayOrMax(b)
    || (DayOrMax(a) == DayOrMax(b) &&
        (Flag(a.added) < Flag(b.added) || (Flag(a.added) == Flag(b.added) && Flag(a.removed) <= Flag(b.removed))))
  }

  function Collapsed(changes: seq<Change>): seq<Digest> {
    var rows := Sort(WrittenBefore, changes);
    Sort(ListedBefore, NonEmpty(Digests(rows, Keys(rows))))
  }

  // The dictionary of digests holds one object for each of the groups, no object twice, and in each the fold
  // of the group's own rows.
  ghost predicate Holds(
    digests: map<GroupKey, SlotDigest>, groups: seq<GroupKey>, rows: seq<Change>, objects: set<SlotDigest>)
    reads objects
  {
    && (forall key :: key in digests <==> key in groups)
    && (forall key :: key in digests ==> digests[key] in objects)
    && (forall key, other :: key in digests && other in digests && key != other ==> digests[key] != digests[other])
    && (forall key :: key in digests ==> digests[key].Value() == Fold(GroupRows(rows, key)))
  }

  ghost predicate FilledWith(digests: map<GroupKey, SlotDigest>, rows: seq<Change>, objects: set<SlotDigest>)
    reads objects
  {
    Holds(digests, Keys(rows), rows, objects)
  }

  // The digest of a group, made and listed if the group is new.
  method EnsureGroup(
    digests: map<GroupKey, SlotDigest>, order: seq<GroupKey>, ghost rows: seq<Change>, ghost objects: set<SlotDigest>,
    key: GroupKey)
    returns (filled: map<GroupKey, SlotDigest>, listed: seq<GroupKey>, ghost grown: set<SlotDigest>)
    requires FilledWith(digests, rows, objects) && order == Keys(rows)
    ensures listed == order + if key in order then [] else [key]
    ensures Holds(filled, listed, rows, grown) && key in filled
    ensures objects <= grown && fresh(grown - objects)
  {
    filled, listed, grown := digests, order, objects;
    if key !in digests {
      var digest := new SlotDigest();
      NoRowsOfUnseenGroup(rows, key);
      filled := filled[key := digest];
      listed := listed + [key];
      grown := grown + {digest};
    }
  }

  // One row goes to the digest of its group; no other digest changes.
  method ApplyToGroup(
    digests: map<GroupKey, SlotDigest>, order: seq<GroupKey>, ghost rows: seq<Change>, ghost objects: set<SlotDigest>,
    c: Change)
    returns (filled: map<GroupKey, SlotDigest>, listed: seq<GroupKey>, ghost grown: set<SlotDigest>)
    requires FilledWith(digests, rows, objects) && order == Keys(rows)
    modifies objects
    ensures FilledWith(filled, rows + [c], grown) && fresh(grown - objects)
    ensures listed == Keys(rows + [c])
  {
    KeysAppend(rows, c);
    var key := KeyOf(c);
    filled, listed, grown := EnsureGroup(digests, order, rows, objects, key);
    filled[key].Apply(c);
    forall other | other in filled ensures filled[other].Value() == Fold(GroupRows(rows + [c], other)) {
      GroupFolds(rows, c, other);
    }
  }

  // The digests are filled side by side, each row going to the digest of its group.
  method FillDigests(rows: seq<Change>)
    returns (digests: map<GroupKey, SlotDigest>, order: seq<GroupKey>, ghost objects: set<SlotDigest>)
    ensures FilledWith(digests, rows, objects)
    ensures order == Keys(rows)
  {
    digests, order, objects := map[], [], {};
    for i := 0 to |rows|
      invariant order == Keys(rows[..i])
      invariant FilledWith(digests, rows[..i], objects) && fresh(objects)
    {
      PrefixGrows(rows, i);
      digests, order, objects := ApplyToGroup(digests, order, rows[..i], objects, rows[i]);
    }
    assert rows[..|rows|] == rows;
  }

  lemma KeysAppend(rows: seq<Change>, c: Change)
    ensures Keys(rows + [c]) == Keys(rows) + if KeyOf(c) in Keys(rows) then [] else [KeyOf(c)]
  {
    assert (rows + [c])[..|rows|] == rows;
  }

  // The result is as if every group had been folded on its own.
  method CollapseChanges(changes: seq<Change>) returns (result: seq<Digest>)
    ensures result == Collapsed(changes)
  {
    var rows := Sort(WrittenBefore, changes);
    ghost var objects;
    var digests, order;
    digests, order, objects := FillDigests(rows);
    ghost var all := Digests(rows, order);
    result := [];
    for i := 0 to |order|
      invariant result == NonEmpty(all[..i])
    {
      var digest := digests[order[i]].Value();
      assert all[..i + 1][..i] == all[..i];
      if !digest.IsEmpty() {
        result := result + [digest];
      }
    }
    assert all[..|order|] == all;
    result := Sort(ListedBefore, result);
  }

  lemma {:induction false} NoRowsOfUnseenGroup(rows: seq<Change>, key: GroupKey)
    requires key !in Keys(rows)
    ensures GroupRows(rows, key) == []
  {
    if rows != [] {
      NoRowsOfUnseenGroup(rows[..|rows| - 1], key);
    }
  }

  lemma FoldAppends(rows: seq<Change>, c: Change)
    ensures Fold(rows + [c]) == Applied(Fold(rows), c)
  {
    assert (rows + [c])[..|rows|] == rows;
  }

  // A row changes the fold of its own group and no other.
  lemma GroupFolds(rows: seq<Change>, c: Change, key: GroupKey)
    ensures Fold(GroupRows(rows + [c], key)) ==
              if KeyOf(c) == key then Applied(Fold(GroupRows(rows, key)), c) else Fold(GroupRows(rows, key))
  {
    GroupRowsAppends(rows, c, key);
    FoldAppends(GroupRows(rows, key), c);
    assert GroupRows(rows, key) + [] == GroupRows(rows, key);
  }

  lemma GroupRowsAppends(rows: seq<Change>, c: Change, key: GroupKey)
    ensures GroupRows(rows + [c], key) == GroupRows(rows, key) + if KeyOf(c) == key then [c] else []
  {
    assert (rows + [c])[..|rows|] == rows;
  }

  // ----- Independence of the order and of the other groups -----

  ghost predicate DistinctIds(changes: seq<Change>) {
    forall i, j :: 0 <= i < j < |changes| ==> changes[i].id != changes[j].id
  }

  lemma WrittenBeforeOrders()
    ensures TotalPreorder(WrittenBefore)
  {
  }

  lemma DistinctIdsDetermine(changes: seq<Change>, x: Change, y: Change)
    requires DistinctIds(changes) && x in changes && y in changes && x.id == y.id
    ensures x == y
  {
    var i :| 0 <= i < |changes| && changes[i] == x;
    var j :| 0 <= j < |changes| && changes[j] == y;
    assert !(i < j) && !(j < i);
  }

  // However the rows arrive, they collapse to the same digests.
  lemma CollapseIgnoresArrivalOrder(a: seq<Change>, b: seq<Change>)
    requires multiset(a) == multiset(b) && DistinctIds(a)
    ensures Collapsed(a) == Collapsed(b)
  {
    WrittenBeforeOrders();
    SortSorts(WrittenBefore, a);
    SortSorts(WrittenBefore, b);
    SortKeeps(WrittenBefore, a);
    SortKeeps(WrittenBefore, b);
    var sorted := Sort(WrittenBefore, a);
    forall x, y | x in sorted && y in sorted && WrittenBefore(x, y) && WrittenBefore(y, x) ensures x == y {
      assert x in multiset(sorted) && y in multiset(sorted);
      DistinctIdsDetermine(a, x, y);
    }
    SortedUnique(WrittenBefore, sorted, Sort(WrittenBefore, b));
  }

  lemma {:induction false} GroupRowsOfConcat(a: seq<Change>, b: seq<Change>, key: GroupKey)
    ensures GroupRows(a + b, key) == GroupRows(a, key) + GroupRows(b, key)
  {
    if b == [] {
      assert a + b == a;
    } else {
      var last := |b| - 1;
      assert (a + b)[..|a + b| - 1] == a + b[..last];
      GroupRowsOfConcat(a, b[..last], key);
    }
  }

  // Whatever rows of other dates lie between the rows of one date, its digest does not see them.
  lemma StrangersDoNotMatter(before: seq<Change>, strangers: seq<Change>, after: seq<Change>, key: GroupKey)
    requires forall c :: c in strangers ==> KeyOf(c) != key
    ensures Fold(GroupRows(before + strangers + after, key)) == Fold(GroupRows(before + after, key))
  {
    GroupRowsOfConcat(before + strangers, after, key);
    GroupRowsOfConcat(before, strangers, key);
    GroupRowsOfConcat(before, after, key);
    OnlyStrangers(strangers, key);
    assert GroupRows(before, key) + [] == GroupRows(before, key);
  }

  lemma {:induction false} OnlyStrangers(strangers: seq<Change>, key: GroupKey)
    requires forall c :: c in strangers ==> KeyOf(c) != key
    ensures GroupRows(strangers, key) == []
  {
    if strangers != [] {
      assert strangers[|strangers| - 1] in strangers;
      OnlyStrangers(strangers[..|strangers| - 1], key);
    }
  }

  // ----- What is left of dates that were removed again -----

  // Whether an addition is still waiting to be told when these rows are over.
  predicate AdditionPending(rows: seq<Change>) {
    if rows == [] then false
    else
      match rows[|rows| - 1].kind
      case SlotAdded => true
      case SlotRemoved => false
      case _ => AdditionPending(rows[..|rows| - 1])
  }

  lemma AppliedAdded(d: Digest, c: Change)
    ensures Applied(d, c).added == (c.kind == SlotAdded || (d.added && c.kind != SlotRemoved))
  {
  }

  lemma {:induction false} PendingIsAdded(rows: seq<Change>)
    ensures AdditionPending(rows) == Fold(rows).added
  {
    if rows != [] {
      var before := rows[..|rows| - 1];
      PendingIsAdded(before);
      AppliedAdded(Fold(before), rows[|rows| - 1]);
    }
  }

  // A group that ends with a removal says nothing exactly when the last addition or removal before it
  // was an addition. Otherwise it says that a date was removed.
  lemma {:induction false} RemovalSilentIff(rows: seq<Change>, removal: Change)
    requires removal.kind == SlotRemoved
    ensures Fold(rows + [removal]).IsEmpty() <==> AdditionPending(rows)
    ensures !AdditionPending(rows) ==> Fold(rows + [removal]).removed
  {
    FoldAppends(rows, removal);
    PendingIsAdded(rows);
  }

  // The life of a date inside one window: added, edited in any way, removed.
  ghost predicate Lifecycle(rows: seq<Change>) {
    && |rows| >= 2
    && rows[0].kind == SlotAdded && rows[|rows| - 1].kind == SlotRemoved
    && forall i :: 0 < i < |rows| - 1 ==> rows[i].kind != SlotAdded && rows[i].kind != SlotRemoved
  }

  lemma {:induction false} PendingUntilRemoved(before: seq<Change>, life: seq<Change>, n: nat)
    requires Lifecycle(life) && 1 <= n <= |life| - 1
    ensures AdditionPending(before + life[..n])
  {
    var rows := before + life[..n];
    assert rows[|rows| - 1] == life[n - 1];
    if n > 1 {
      PendingUntilRemoved(before, life, n - 1);
      assert rows[..|rows| - 1] == before + life[..n - 1];
    }
  }

  // However many dates came and went one after another on one day, and whatever was said about that
  // day before them, nothing is announced.
  lemma LifecycleIsSilent(before: seq<Change>, life: seq<Change>)
    requires Lifecycle(life)
    ensures Fold(before + life).IsEmpty()
  {
    PendingUntilRemoved(before, life, |life| - 1);
    assert before + life == before + life[..|life| - 1] + [life[|life| - 1]];
    RemovalSilentIff(before + life[..|life| - 1], life[|life| - 1]);
  }

  function RowOn(kind: ChangeType, date: Date): Change {
    Change(0, 0, None, kind, NO_PAYLOAD.(date := Some(date)))
  }

  // So a removal that had to be told is lost when a new date comes and goes on the same day ...
  lemma RealRemovalForgotten(date: Date)
    ensures Fold([RowOn(SlotRemoved, date)]).removed
    ensures Fold([RowOn(SlotRemoved, date), RowOn(SlotAdded, date), RowOn(SlotRemoved, date)]).IsEmpty()
  {
    var removed, added := RowOn(SlotRemoved, date), RowOn(SlotAdded, date);
    FoldAppends([], removed);
    assert [] + [removed] == [removed];
    assert Lifecycle([added, removed]);
    LifecycleIsSilent([removed], [added, removed]);
    assert [removed] + [added, removed] == [removed, added, removed];
  }

  // ... and two dates that came and went on one day at the same time are announced as a removal.
  lemma InterleavedLifecyclesReported(date: Date)
    ensures Fold([RowOn(SlotAdded, date), RowOn(SlotAdded, date),
                  RowOn(SlotRemoved, date), RowOn(SlotRemoved, date)]).removed
  {
    var removed, added := RowOn(SlotRemoved, date), RowOn(SlotAdded, date);
    var rows := [added, added, removed];
    assert !AdditionPending(rows);
    RemovalSilentIff(rows, removed);
    assert rows + [removed] == [added, added, removed, removed];
  }

  // Rows of a date that was added, moved to another day and removed in one window are about two days: one
  // line says that a date was added, the other that a date was removed.
  lemma AddMoveRemoveSplits(added: Change, moved: Change, removed: Change)
    requires added.kind == SlotAdded && moved.kind == SlotMoved && removed.kind == SlotRemoved
    requires KeyOf(added) != KeyOf(moved) && KeyOf(moved) == KeyOf(removed)
    ensures var rows := [added, moved, removed];
            && GroupRows(rows, KeyOf(added)) == [added] && Fold([added]).added
            && GroupRows(rows, KeyOf(removed)) == [moved, removed] && Fold([moved, removed]).removed
  {
    var rows := [added, moved, removed];
    assert rows[..2] == [added, moved] && rows[..2][..1] == [added] && [added][..0] == [];
    assert GroupRows(rows[..2][..1], KeyOf(added)) == [added] && GroupRows(rows[..2][..1], KeyOf(removed)) == [];
    assert [moved, removed][..1] == [moved] && [moved][..0] == [];
    assert !AdditionPending([moved]);
    RemovalSilentIff([moved], removed);
    assert [moved] + [removed] == [moved, removed];
  }
}
