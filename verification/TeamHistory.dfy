// Merging the team histories of two players. Histories are checked only between neighbours, timelines are
// checked only item by item; what that says about every instant is proved here. Instants are integers (seconds).
module TeamHistory {
  import opened Common
  import opened Sorting

  const HOUR: int := 3600
  const DAY: int := 24 * HOUR
  const SUNDAY: int := 6
  const EPOCH_WEEKDAY: int := 3
  const WAIVER_POINT_BEFORE_GAME: int := HOUR
  const WAIVER_POINT_AFTER_GAME: int := 48 * HOUR

  // A membership of a team from `joined` up to, and not including, `left`.
  datatype Membership = Membership(playerId: nat, teamId: nat, joined: int, left: Option<int>)

  // `knownPermissions` is whether every permission named is one; the last two, whether the instants carry a time
  // zone.
  datatype TimelineItem = TimelineItem(
    teamId: nat, joined: int, left: Option<int>, knownPermissions: bool, joinedAware: bool, leftAware: bool)

  datatype WaiverPoint = WaiverPoint(teamId: nat, since: int, until: int)

  datatype Error =
    | IncompatibleHistories | NoSecondaryHistory
    | EmptyTimeline | MixedInstants | NaiveInstant | EndsBeforeStart | UnknownPermission | Overlap
    | ViolatesWaiver(point: WaiverPoint)

  // ----- Intervals -----

  datatype Interval = Interval(joined: int, left: Option<int>)

  predicate Contains(i: Interval, t: int) {
    i.joined <= t && (i.left.None? || t < i.left.value)
  }

  predicate Proper(i: Interval) {
    i.left.None? || i.joined < i.left.value
  }

  // The check made between neighbours: the earlier one is closed by the time the later one begins.
  predicate Follows(a: Interval, b: Interval) {
    a.left.Some? && a.left.value <= b.joined
  }

  predicate NeighboursFollow(intervals: seq<Interval>) {
    forall k :: 0 <= k < |intervals| - 1 ==> Follows(intervals[k], intervals[k + 1])
  }

  lemma NeighboursExtend(intervals: seq<Interval>, k: nat)
    requires k + 1 < |intervals| && NeighboursFollow(intervals[..k + 1])
    requires Follows(intervals[k], intervals[k + 1])
    ensures NeighboursFollow(intervals[..k + 2])
  {
    var before, after := intervals[..k + 1], intervals[..k + 2];
    forall i: nat | i < |after| - 1 ensures Follows(after[i], after[i + 1]) {
      if i < k { assert Follows(before[i], before[i + 1]); }
    }
  }

  predicate InOrder(intervals: seq<Interval>) {
    forall i, j :: 0 <= i < j < |intervals| ==> intervals[i].joined <= intervals[j].joined
  }

  // No instant lies in two of them, and only the last may be open.
  ghost predicate Unambiguous(intervals: seq<Interval>) {
    && (forall i, j, t {:trigger Contains(intervals[i], t), Contains(intervals[j], t)} ::
          0 <= i < j < |intervals| ==> !(Contains(intervals[i], t) && Contains(intervals[j], t)))
    && (forall i :: 0 <= i < |intervals| - 1 ==> intervals[i].left.Some?)
  }

  lemma FarApartFollow(intervals: seq<Interval>, i: nat, j: nat)
    requires InOrder(intervals) && NeighboursFollow(intervals) && i < j < |intervals|
    ensures Follows(intervals[i], intervals[j])
  {
    assert Follows(intervals[i], intervals[i + 1]);
    assert i + 1 < j ==> intervals[i + 1].joined <= intervals[j].joined;
  }

  // Of intervals in order, what holds between neighbours holds between all.
  lemma NeighboursSuffice(intervals: seq<Interval>)
    requires InOrder(intervals) && NeighboursFollow(intervals)
    ensures Unambiguous(intervals)
  {
    forall i, j, t | 0 <= i < j < |intervals| ensures !(Contains(intervals[i], t) && Contains(intervals[j], t)) {
      FarApartFollow(intervals, i, j);
    }
    forall i | 0 <= i < |intervals| - 1 ensures intervals[i].left.Some? {
      assert Follows(intervals[i], intervals[i + 1]);
    }
  }

  // And the check refuses nothing else, as long as no interval ends before it starts.
  lemma NeighboursNecessary(intervals: seq<Interval>)
    requires InOrder(intervals) && Unambiguous(intervals)
    requires forall i :: 0 <= i < |intervals| ==> Proper(intervals[i])
    ensures NeighboursFollow(intervals)
  {
    forall k | 0 <= k < |intervals| - 1 ensures Follows(intervals[k], intervals[k + 1]) {
      var meeting := intervals[k + 1].joined;
      assert intervals[k].joined <= meeting;
      assert Contains(intervals[k + 1], meeting) && intervals[k].left.Some?;
      assert !Contains(intervals[k], meeting);
    }
  }

  // ----- Merging two histories -----

  function MembershipInterval(m: Membership): Interval { Interval(m.joined, m.left) }

  function Intervals(history: seq<Membership>): (intervals: seq<Interval>)
    ensures |intervals| == |history|
  {
    seq(|history|, i requires 0 <= i < |history| => MembershipInterval(history[i]))
  }

  predicate JoinedFirst(a: Membership, b: Membership) { a.joined <= b.joined }

  // The only membership of the primary is taken to be the one the secondary's history ends with.
  predicate SameMembership(primary: seq<Membership>, secondary: seq<Membership>)
    requires |primary| == 1 ==> secondary != []
  {
    && |primary| == 1
    && secondary[|secondary| - 1].teamId == primary[0].teamId
    && primary[0].joined > secondary[0].joined
  }

  function Joint(primary: seq<Membership>, secondary: seq<Membership>): seq<Membership>
    requires |primary| == 1 ==> secondary != []
  {
    if SameMembership(primary, secondary) then secondary else Sort(JoinedFirst, primary + secondary)
  }

  function OwnedBy(history: seq<Membership>, playerId: nat): (owned: seq<Membership>)
    ensures |owned| == |history|
  {
    seq(|history|, i requires 0 <= i < |history| => history[i].(playerId := playerId))
  }

  // With a single membership on one side and none on the other the code looks at the last of no memberships.
  function Merged(playerId: nat, primary: seq<Membership>, secondary: seq<Membership>): Result<seq<Membership>, Error> {
    if |primary| == 1 && secondary == [] then Err(NoSecondaryHistory)
    else if !NeighboursFollow(Intervals(Joint(primary, secondary))) then Err(IncompatibleHistories)
    else Ok(OwnedBy(Joint(primary, secondary), playerId))
  }

  lemma JointInOrder(primary: seq<Membership>, secondary: seq<Membership>)
    requires |primary| == 1 ==> secondary != []
    requires InOrder(Intervals(secondary))
    ensures InOrder(Intervals(Joint(primary, secondary)))
  {
    if !SameMembership(primary, secondary) {
      var joint := Joint(primary, secondary);
      SortSorts(JoinedFirst, primary + secondary);
      forall i, j | 0 <= i < j < |joint| ensures Intervals(joint)[i].joined <= Intervals(joint)[j].joined {
        assert JoinedFirst(joint[i], joint[j]);
      }
    }
  }

  // A merge that succeeds writes a history in order in which no instant has two teams and only the last
  // membership may be open, and all of it belongs to the primary. Histories come from storage in order.
  lemma MergeUnambiguous(playerId: nat, primary: seq<Membership>, secondary: seq<Membership>)
    requires InOrder(Intervals(secondary)) && Merged(playerId, primary, secondary).Ok?
    ensures var merged := Merged(playerId, primary, secondary).value;
            && InOrder(Intervals(merged)) && Unambiguous(Intervals(merged))
            && forall m :: m in merged ==> m.playerId == playerId
  {
    var joint := Joint(primary, secondary);
    JointInOrder(primary, secondary);
    NeighboursSuffice(Intervals(joint));
    assert Intervals(OwnedBy(joint, playerId)) == Intervals(joint);
  }

  // What a membership says, whoever it belongs to.
  datatype Stay = Stay(teamId: nat, joined: int, left: Option<int>)

  function Stays(history: seq<Membership>): (stays: seq<Stay>)
    ensures |stays| == |history|
  {
    seq(|history|, i requires 0 <= i < |history| => Stay(history[i].teamId, history[i].joined, history[i].left))
  }

  // The primary's only membership is dropped: it is of the team the secondary's history ends with, and began after
  // that history did.
  predicate Dropped(primary: seq<Membership>, secondary: seq<Membership>) {
    && |primary| == 1 && |secondary| > 0
    && secondary[|secondary| - 1].teamId == primary[0].teamId
    && primary[0].joined > secondary[0].joined
  }

  lemma {:induction false} InsertKeepsStays(m: Membership, history: seq<Membership>)
    ensures multiset(Stays(Insert(JoinedFirst, m, history)))
         == multiset(Stays(history)) + multiset{Stay(m.teamId, m.joined, m.left)}
  {
    var inserted := Insert(JoinedFirst, m, history);
    assert Stays(inserted) == [Stays(inserted)[0]] + Stays(inserted[1..]);
    if history == [] || JoinedFirst(m, history[0]) {
      assert inserted[1..] == history;
    } else {
      InsertKeepsStays(m, history[1..]);
      assert Stays(history) == [Stays(history)[0]] + Stays(history[1..]);
      assert inserted[1..] == Insert(JoinedFirst, m, history[1..]);
    }
  }

  lemma {:induction false} SortKeepsStays(history: seq<Membership>)
    ensures multiset(Stays(Sort(JoinedFirst, history))) == multiset(Stays(history))
  {
    if history != [] {
      SortKeepsStays(history[1..]);
      InsertKeepsStays(history[0], Sort(JoinedFirst, history[1..]));
      assert Stays(history) == [Stays(history)[0]] + Stays(history[1..]);
    }
  }

  // The history is the player's, and says what the secondary's says, in its order, when the primary's membership
  // is dropped, and else all that both say.
  ghost predicate Keeps(
    playerId: nat, primary: seq<Membership>, secondary: seq<Membership>, merged: seq<Membership>) {
    && (forall m :: m in merged ==> m.playerId == playerId)
    && (Dropped(primary, secondary) ==> Stays(merged) == Stays(secondary))
    && (!Dropped(primary, secondary) ==>
          multiset(Stays(merged)) == multiset(Stays(primary)) + multiset(Stays(secondary)))
  }

  // What a merge that succeeds writes: the secondary's memberships in their order when the primary's is dropped,
  // else all of both.
  lemma MergeKeepsStays(playerId: nat, primary: seq<Membership>, secondary: seq<Membership>)
    requires Merged(playerId, primary, secondary).Ok?
    ensures Keeps(playerId, primary, secondary, Merged(playerId, primary, secondary).value)
  {
    var joint := Joint(primary, secondary);
    assert Stays(OwnedBy(joint, playerId)) == Stays(joint);
    if !Dropped(primary, secondary) {
      SortKeepsStays(primary + secondary);
      assert Stays(primary + secondary) == Stays(primary) + Stays(secondary);
    }
  }

  // How many memberships hold at an instant.
  function HeldAt(history: seq<Membership>, t: int): nat {
    if history == [] then 0
    else (if Contains(MembershipInterval(history[0]), t) then 1 else 0) + HeldAt(history[1..], t)
  }

  lemma {:induction false} HeldByInsert(m: Membership, history: seq<Membership>, t: int)
    ensures HeldAt(Insert(JoinedFirst, m, history), t) == HeldAt([m], t) + HeldAt(history, t)
  {
    var inserted := Insert(JoinedFirst, m, history);
    if history == [] || JoinedFirst(m, history[0]) {
      assert inserted[1..] == history && [m][1..] == [];
    } else {
      HeldByInsert(m, history[1..], t);
      assert inserted[1..] == Insert(JoinedFirst, m, history[1..]);
    }
  }

  lemma {:induction false} HeldBySort(history: seq<Membership>, t: int)
    ensures HeldAt(Sort(JoinedFirst, history), t) == HeldAt(history, t)
  {
    if history != [] {
      HeldBySort(history[1..], t);
      HeldByInsert(history[0], Sort(JoinedFirst, history[1..]), t);
      assert [history[0]][1..] == [];
    }
  }

  lemma {:induction false} HeldOnce(history: seq<Membership>, t: int, i: nat)
    requires i < |history| && Contains(MembershipInterval(history[i]), t)
    ensures HeldAt(history, t) >= 1
  {
    if i > 0 { HeldOnce(history[1..], t, i - 1); }
  }

  lemma {:induction false} HeldTwice(history: seq<Membership>, t: int, i: nat, j: nat)
    requires i < j < |history|
    requires Contains(MembershipInterval(history[i]), t) && Contains(MembershipInterval(history[j]), t)
    ensures HeldAt(history, t) >= 2
  {
    if i == 0 { HeldOnce(history[1..], t, j - 1); } else { HeldTwice(history[1..], t, i - 1, j - 1); }
  }

  lemma {:induction false} HeldByOne(history: seq<Membership>, t: int)
    requires Unambiguous(Intervals(history))
    ensures HeldAt(history, t) <= 1
  {
    if history != [] {
      var rest := history[1..];
      forall i, j, u | 0 <= i < j < |rest|
        ensures !(Contains(Intervals(rest)[i], u) && Contains(Intervals(rest)[j], u))
      {
        assert Intervals(rest)[i] == Intervals(history)[i + 1] && Intervals(rest)[j] == Intervals(history)[j + 1];
      }
      forall i | 0 <= i < |rest| - 1 ensures Intervals(rest)[i].left.Some? {
        assert Intervals(rest)[i] == Intervals(history)[i + 1];
      }
      HeldByOne(rest, t);
      if Contains(Intervals(history)[0], t) { HeldByNone(history, t); }
    }
  }

  lemma HeldByNone(history: seq<Membership>, t: int)
    requires history != [] && Unambiguous(Intervals(history)) && Contains(Intervals(history)[0], t)
    ensures HeldAt(history[1..], t) == 0
  {
    forall m | m in history[1..] ensures !Contains(MembershipInterval(m), t) {
      var i :| 0 <= i < |history[1..]| && history[1..][i] == m;
      assert Contains(Intervals(history)[0], t) && MembershipInterval(m) == Intervals(history)[i + 1];
    }
    NobodyHolds(history[1..], t);
  }

  lemma {:induction false} NobodyHolds(history: seq<Membership>, t: int)
    requires forall m :: m in history ==> !Contains(MembershipInterval(m), t)
    ensures HeldAt(history, t) == 0
  {
    if history != [] {
      assert history == [history[0]] + history[1..];
      NobodyHolds(history[1..], t);
    }
  }

  // No instant has two of the memberships.
  ghost predicate AtMostOne(history: seq<Membership>) {
    forall t :: HeldAt(history, t) <= 1
  }

  lemma TwoAreSeen(history: seq<Membership>, i: nat, j: nat, t: int)
    requires AtMostOne(history) && i < j < |history|
    ensures !(Contains(MembershipInterval(history[i]), t) && Contains(MembershipInterval(history[j]), t))
  {
    assert HeldAt(history, t) <= 1;
    if Contains(MembershipInterval(history[i]), t) && Contains(MembershipInterval(history[j]), t) {
      HeldTwice(history, t, i, j);
    }
  }

  lemma AloneIsUnambiguous(history: seq<Membership>)
    requires InOrder(Intervals(history)) && forall m :: m in history ==> Proper(MembershipInterval(m))
    requires AtMostOne(history)
    ensures Unambiguous(Intervals(history))
  {
    var intervals := Intervals(history);
    forall i, j, t | 0 <= i < j < |history| ensures !(Contains(intervals[i], t) && Contains(intervals[j], t)) {
      TwoAreSeen(history, i, j, t);
    }
    forall i | 0 <= i < |history| - 1 ensures intervals[i].left.Some? {
      var t := history[i + 1].joined;
      assert Proper(MembershipInterval(history[i + 1])) && intervals[i].joined <= intervals[i + 1].joined;
      TwoAreSeen(history, i, i + 1, t);
    }
  }

  // Of memberships in order that end after they start, no instant has two exactly if they are unambiguous.
  lemma AloneIff(history: seq<Membership>)
    requires InOrder(Intervals(history)) && forall m :: m in history ==> Proper(MembershipInterval(m))
    ensures Unambiguous(Intervals(history)) <==> AtMostOne(history)
  {
    if Unambiguous(Intervals(history)) {
      forall t ensures HeldAt(history, t) <= 1 { HeldByOne(history, t); }
    }
    if AtMostOne(history) { AloneIsUnambiguous(history); }
  }

  // The memberships to be written.
  function Given(primary: seq<Membership>, secondary: seq<Membership>): seq<Membership> {
    if Dropped(primary, secondary) then secondary else primary + secondary
  }

  lemma JointIsGiven(primary: seq<Membership>, secondary: seq<Membership>)
    requires |primary| == 1 ==> secondary != []
    ensures multiset(Joint(primary, secondary)) == multiset(Given(primary, secondary))
    ensures AtMostOne(Joint(primary, secondary)) <==> AtMostOne(Given(primary, secondary))
  {
    if !Dropped(primary, secondary) {
      SortKeeps(JoinedFirst, primary + secondary);
      forall t ensures HeldAt(Joint(primary, secondary), t) == HeldAt(primary + secondary, t) {
        HeldBySort(primary + secondary, t);
      }
    }
  }

  // A merge of two histories whose memberships all end after they start is refused exactly when some instant
  // would have two of the memberships to be written, or when there is nothing to merge into a single one.
  lemma MergeRefusedIff(playerId: nat, primary: seq<Membership>, secondary: seq<Membership>)
    requires InOrder(Intervals(secondary))
    requires forall m :: m in primary + secondary ==> Proper(MembershipInterval(m))
    ensures Merged(playerId, primary, secondary).Ok? <==>
              (|primary| == 1 ==> secondary != []) && AtMostOne(Given(primary, secondary))
  {
    if |primary| == 1 ==> secondary != [] {
      var joint := Joint(primary, secondary);
      ClashesAreSeen(playerId, primary, secondary);
      JointInOrder(primary, secondary);
      JointIsGiven(primary, secondary);
      forall m | m in joint ensures Proper(MembershipInterval(m)) {
        assert m in multiset(joint) && m in primary + secondary;
      }
      AloneIff(joint);
    }
  }

  lemma ClashesAreSeen(playerId: nat, primary: seq<Membership>, secondary: seq<Membership>)
    requires |primary| == 1 ==> secondary != []
    requires InOrder(Intervals(secondary))
    requires forall m :: m in primary + secondary ==> Proper(MembershipInterval(m))
    ensures Merged(playerId, primary, secondary).Ok? <==> Unambiguous(Intervals(Joint(primary, secondary)))
    ensures !SameMembership(primary, secondary) ==>
              multiset(Joint(primary, secondary)) == multiset(primary) + multiset(secondary)
  {
    var joint := Joint(primary, secondary);
    JointInOrder(primary, secondary);
    if !SameMembership(primary, secondary) { SortKeeps(JoinedFirst, primary + secondary); }
    forall i | 0 <= i < |joint| ensures Proper(Intervals(joint)[i]) {
      if !SameMembership(primary, secondary) {
        assert joint[i] in multiset(joint);
        assert joint[i] in primary + secondary;
      } else {
        assert secondary[i] in primary + secondary;
      }
    }
    if Unambiguous(Intervals(joint)) { NeighboursNecessary(Intervals(joint)); }
    if NeighboursFollow(Intervals(joint)) { NeighboursSuffice(Intervals(joint)); }
  }

  ghost predicate Covered(i: Interval, intervals: seq<Interval>) {
    forall t :: Contains(i, t) ==> exists k :: 0 <= k < |intervals| && Contains(intervals[k], t)
  }

  ghost predicate CoveredFrom(p: Interval, from_: int, intervals: seq<Interval>) {
    forall t :: from_ <= t && Contains(p, t) ==> exists k :: 0 <= k < |intervals| && Contains(intervals[k], t)
  }

  // Nobody leaves before joining; leaving at once is possible.
  predicate Forward(i: Interval) {
    i.left.Some? ==> i.joined <= i.left.value
  }

  // From interval `i` on the others follow without a gap until `p` is over.
  predicate UnbrokenFrom(p: Interval, intervals: seq<Interval>, i: nat)
    requires i < |intervals|
    decreases |intervals| - i
  {
    var left := intervals[i].left;
    || left.None?
    || (p.left.Some? && p.left.value <= left.value)
    || (i + 1 < |intervals| && intervals[i + 1].joined == left.value && UnbrokenFrom(p, intervals, i + 1))
  }

  // The instant an interval ends at is covered only by the next one, and only if that begins then.
  lemma NextCovers(intervals: seq<Interval>, i: nat, k: nat, s: int)
    requires InOrder(intervals) && NeighboursFollow(intervals) && i < |intervals| && k < |intervals|
    requires intervals[i].left.Some? && intervals[i].joined <= s <= intervals[i].left.value
    requires Contains(intervals[k], intervals[i].left.value)
    ensures i + 1 < |intervals| && intervals[i + 1].joined == intervals[i].left.value
  {
    if k < i {
      FarApartFollow(intervals, k, i);
      assert false;
    } else {
      assert i < k;
      FarApartFollow(intervals, i, k);
      assert Follows(intervals[i], intervals[i + 1]) && (i + 1 < k ==> intervals[i + 1].joined <= intervals[k].joined);
    }
  }

  lemma {:induction false} RestCoveredIff(p: Interval, intervals: seq<Interval>, i: nat, s: int)
    requires InOrder(intervals) && NeighboursFollow(intervals)
    requires forall k :: 0 <= k < |intervals| ==> Forward(intervals[k])
    requires i < |intervals| && Contains(p, s)
    requires intervals[i].joined <= s && (intervals[i].left.Some? ==> s <= intervals[i].left.value)
    ensures CoveredFrom(p, s, intervals) <==> UnbrokenFrom(p, intervals, i)
    decreases |intervals| - i
  {
    var left := intervals[i].left;
    if left.None? || (p.left.Some? && p.left.value <= left.value) {
      forall t | s <= t && Contains(p, t) ensures exists k :: 0 <= k < |intervals| && Contains(intervals[k], t) {
        assert Contains(intervals[i], t);
      }
    } else if i + 1 < |intervals| && intervals[i + 1].joined == left.value {
      assert Forward(intervals[i + 1]);
      RestCoveredIff(p, intervals, i + 1, left.value);
      forall t | s <= t < left.value && Contains(p, t)
        ensures exists k :: 0 <= k < |intervals| && Contains(intervals[k], t)
      {
        assert Contains(intervals[i], t);
      }
    } else {
      assert Contains(p, left.value);
      forall k | 0 <= k < |intervals| ensures !Contains(intervals[k], left.value) {
        if Contains(intervals[k], left.value) { NextCovers(intervals, i, k, s); }
      }
    }
  }

  lemma CoveredIff(p: Interval, intervals: seq<Interval>)
    requires InOrder(intervals) && NeighboursFollow(intervals)
    requires forall k :: 0 <= k < |intervals| ==> Forward(intervals[k])
    ensures Covered(p, intervals) <==>
              || !Contains(p, p.joined)
              || exists i :: 0 <= i < |intervals| && Contains(intervals[i], p.joined) && UnbrokenFrom(p, intervals, i)
  {
    if Contains(p, p.joined) {
      forall i | 0 <= i < |intervals| && Contains(intervals[i], p.joined)
        ensures Covered(p, intervals) <==> UnbrokenFrom(p, intervals, i)
      {
        RestCoveredIff(p, intervals, i, p.joined);
      }
    }
  }

  predicate InTeamAt(m: Membership, teamId: nat, t: int) {
    m.teamId == teamId && Contains(MembershipInterval(m), t)
  }

  // At every instant of the membership the history has its team.
  ghost predicate Kept(m: Membership, history: seq<Membership>) {
    forall t :: Contains(MembershipInterval(m), t) ==>
      exists k :: 0 <= k < |history| && InTeamAt(history[k], m.teamId, t)
  }

  // Two intervals meet exactly if the later of their beginnings lies in both.
  predicate Meets(a: Interval, b: Interval) {
    var begin := if a.joined <= b.joined then b.joined else a.joined;
    Contains(a, begin) && Contains(b, begin)
  }

  predicate OneTeam(m: Membership, history: seq<Membership>) {
    forall k :: 0 <= k < |history| && Meets(MembershipInterval(m), MembershipInterval(history[k])) ==>
      history[k].teamId == m.teamId
  }

  // A history has the team of a membership throughout exactly when it leaves no instant of it without a team
  // and everything in it that meets the membership is of that team.
  lemma KeptIff(m: Membership, history: seq<Membership>)
    requires Unambiguous(Intervals(history))
    ensures Kept(m, history) <==> Covered(MembershipInterval(m), Intervals(history)) && OneTeam(m, history)
  {
    var p, intervals := MembershipInterval(m), Intervals(history);
    if Kept(m, history) {
      forall t | Contains(p, t) ensures exists k :: 0 <= k < |intervals| && Contains(intervals[k], t) {
        var k :| 0 <= k < |history| && InTeamAt(history[k], m.teamId, t);
        assert Contains(intervals[k], t);
      }
      forall k | 0 <= k < |history| && Meets(p, MembershipInterval(history[k])) ensures history[k].teamId == m.teamId {
        var begin := if p.joined <= history[k].joined then history[k].joined else p.joined;
        var i :| 0 <= i < |history| && InTeamAt(history[i], m.teamId, begin);
        assert Contains(intervals[i], begin) && Contains(intervals[k], begin);
      }
    }
    if Covered(p, intervals) && OneTeam(m, history) {
      forall t | Contains(p, t) ensures exists k :: 0 <= k < |history| && InTeamAt(history[k], m.teamId, t) {
        var k :| 0 <= k < |intervals| && Contains(intervals[k], t);
        assert Meets(p, MembershipInterval(history[k]));
        assert InTeamAt(history[k], m.teamId, t);
      }
    }
  }

  // When the primary's only membership is dropped as the one the secondary's history ends with, the merged
  // history has its team at every instant of it exactly if it is empty, or some membership of the secondary
  // holds when it begins, from that one on each begins where the one before ended until it is over, and all
  // that meet it are of its team.
  lemma DroppedTimeKeptIff(playerId: nat, primary: seq<Membership>, secondary: seq<Membership>)
    requires secondary != [] && SameMembership(primary, secondary)
    requires InOrder(Intervals(secondary)) && Merged(playerId, primary, secondary).Ok?
    requires forall m :: m in secondary ==> Forward(MembershipInterval(m))
    ensures var p, intervals := MembershipInterval(primary[0]), Intervals(secondary);
            Kept(primary[0], Merged(playerId, primary, secondary).value) <==>
              || !Contains(p, p.joined)
              || (&& (exists i :: 0 <= i < |intervals| && Contains(intervals[i], p.joined)
                                  && UnbrokenFrom(p, intervals, i))
                  && OneTeam(primary[0], secondary))
  {
    var p, merged := MembershipInterval(primary[0]), Merged(playerId, primary, secondary).value;
    assert Intervals(merged) == Intervals(secondary);
    assert forall k :: 0 <= k < |secondary| ==> secondary[k] in secondary;
    NeighboursSuffice(Intervals(secondary));
    CoveredIff(p, Intervals(secondary));
    KeptIff(primary[0], merged);
    assert OneTeam(primary[0], merged) <==> OneTeam(primary[0], secondary) by {
      assert forall k :: 0 <= k < |merged| ==>
        merged[k].teamId == secondary[k].teamId && MembershipInterval(merged[k]) == MembershipInterval(secondary[k]);
    }
  }

  // A merge that drops the primary's membership succeeds exactly when the secondary's history is free of
  // clashes, so the lemma above speaks of every such merge.
  lemma DroppingMergeSucceedsIff(playerId: nat, primary: seq<Membership>, secondary: seq<Membership>)
    requires secondary != [] && SameMembership(primary, secondary)
    ensures Merged(playerId, primary, secondary).Ok? <==> NeighboursFollow(Intervals(secondary))
  {
  }

  lemma NotKeptAt(m: Membership, history: seq<Membership>, t: int)
    requires Contains(MembershipInterval(m), t)
    requires forall k :: 0 <= k < |history| ==> !InTeamAt(history[k], m.teamId, t)
    ensures !Kept(m, history)
  {
  }

  // For instance: somebody back in their old team loses the time they are there again.
  lemma ReturnIsLost(team: nat, joined: int, left: int, again: int)
    requires joined < left < again
    ensures var merged := Merged(1, [Membership(1, team, again, None)], [Membership(2, team, joined, Some(left))]);
            && merged == Ok([Membership(1, team, joined, Some(left))])
            && !Kept(Membership(1, team, again, None), merged.value)
  {
    var secondary := [Membership(2, team, joined, Some(left))];
    assert OwnedBy(secondary, 1) == [Membership(1, team, joined, Some(left))];
    NotKeptAt(Membership(1, team, again, None), OwnedBy(secondary, 1), again);
  }

  // And somebody who the secondary's history says was back later loses the time until then, although the
  // membership it ends with lasts for ever.
  lemma GapIsLost(team: nat, other: nat, left: int, back: int, again: int)
    requires 0 < left <= back < again
    ensures var secondary := [Membership(2, other, 0, Some(left)), Membership(2, team, again, None)];
            var merged := Merged(1, [Membership(1, team, back, None)], secondary);
            merged.Ok? && !Kept(Membership(1, team, back, None), merged.value)
  {
    var secondary := [Membership(2, other, 0, Some(left)), Membership(2, team, again, None)];
    DroppingMergeSucceedsIff(1, [Membership(1, team, back, None)], secondary);
    NotKeptAt(Membership(1, team, back, None), OwnedBy(secondary, 1), back);
  }

  // And two histories that clash are merged without an error: the other team takes the time.
  lemma OtherTeamTakesTime(team: nat, other: nat, back: int, again: int)
    requires 0 < back < again && team != other
    ensures var secondary := [Membership(2, other, 0, Some(again)), Membership(2, team, again, None)];
            var merged := Merged(1, [Membership(1, team, back, None)], secondary);
            && merged.Ok?
            && Covered(MembershipInterval(Membership(1, team, back, None)), Intervals(merged.value))
            && !Kept(Membership(1, team, back, None), merged.value)
  {
    var secondary := [Membership(2, other, 0, Some(again)), Membership(2, team, again, None)];
    DroppingMergeSucceedsIff(1, [Membership(1, team, back, None)], secondary);
    var merged := OwnedBy(secondary, 1);
    var intervals := Intervals(merged);
    forall t | Contains(MembershipInterval(Membership(1, team, back, None)), t)
      ensures exists k :: 0 <= k < |intervals| && Contains(intervals[k], t)
    {
      assert if t < again then Contains(intervals[0], t) else Contains(intervals[1], t);
    }
    NotKeptAt(Membership(1, team, back, None), merged, back);
  }

  // ----- A timeline given by hand -----

  function ItemInterval(item: TimelineItem): Interval { Interval(item.joined, item.left) }

  function ItemIntervals(items: seq<TimelineItem>): (intervals: seq<Interval>)
    ensures |intervals| == |items|
  {
    seq(|items|, i requires 0 <= i < |items| => ItemInterval(items[i]))
  }

  predicate ItemFirst(a: TimelineItem, b: TimelineItem) { a.joined <= b.joined }

  function ItemError(item: TimelineItem): Option<Error> {
    if !item.joinedAware || (item.left.Some? && !item.leftAware) then Some(NaiveInstant)
    else if item.left.Some? && item.left.value <= item.joined then Some(EndsBeforeStart)
    else if !item.knownPermissions then Some(UnknownPermission)
    else None
  }

  function FirstItemError(items: seq<TimelineItem>): (error: Option<Error>)
    ensures error == None <==> forall item :: item in items ==> ItemError(item) == None
  {
    if items == [] then None
    else
      var before := FirstItemError(items[..|items| - 1]);
      assert items == items[..|items| - 1] + [items[|items| - 1]];
      if before.Some? then before else ItemError(items[|items| - 1])
  }

  // Instants with and without a time zone cannot be compared, so sorting them fails.
  predicate Mixed(timeline: seq<TimelineItem>) {
    && (exists i :: 0 <= i < |timeline| && timeline[i].joinedAware)
    && (exists i :: 0 <= i < |timeline| && !timeline[i].joinedAware)
  }

  function Normalized(timeline: seq<TimelineItem>): Result<seq<TimelineItem>, Error> {
    if timeline == [] then Err(EmptyTimeline)
    else if Mixed(timeline) then Err(MixedInstants)
    else
      var items := Sort(ItemFirst, timeline);
      var error := FirstItemError(items);
      if error.Some? then Err(error.value)
      else if !NeighboursFollow(ItemIntervals(items)) then Err(Overlap)
      else Ok(items)
  }

  // A timeline that passes is in order, no instant has two teams, every item ends after it starts, and
  // nothing was added or lost.
  lemma NormalizedUnambiguous(timeline: seq<TimelineItem>)
    requires Normalized(timeline).Ok?
    ensures var items := Normalized(timeline).value;
            && multiset(items) == multiset(timeline)
            && InOrder(ItemIntervals(items)) && NeighboursFollow(ItemIntervals(items))
            && Unambiguous(ItemIntervals(items))
            && forall i :: 0 <= i < |items| ==> Proper(ItemIntervals(items)[i])
  {
    var items := Sort(ItemFirst, timeline);
    SortSorts(ItemFirst, timeline);
    SortKeeps(ItemFirst, timeline);
    forall i, j | 0 <= i < j < |items| ensures ItemIntervals(items)[i].joined <= ItemIntervals(items)[j].joined {
      assert ItemFirst(items[i], items[j]);
    }
    NeighboursSuffice(ItemIntervals(items));
    forall i | 0 <= i < |items| ensures Proper(ItemIntervals(items)[i]) {
      assert items[i] in items && ItemError(items[i]) == None;
    }
  }

  // An item whose instants carry a time zone, that ends after it starts and names known permissions only.
  predicate Fine(item: TimelineItem) {
    && item.joinedAware && item.knownPermissions
    && (item.left.Some? ==> item.leftAware && item.joined < item.left.value)
  }

  lemma {:induction false} InsertedStays(item: TimelineItem, items: seq<TimelineItem>, p: nat)
    ensures FromTimeline(Insert(ItemFirst, item, items), p)
         == Insert(JoinedFirst, Membership(p, item.teamId, item.joined, item.left), FromTimeline(items, p))
  {
    if items != [] && !ItemFirst(item, items[0]) {
      InsertedStays(item, items[1..], p);
      assert FromTimeline(items, p)[1..] == FromTimeline(items[1..], p);
    }
  }

  lemma {:induction false} SortedStays(items: seq<TimelineItem>, p: nat)
    ensures FromTimeline(Sort(ItemFirst, items), p) == Sort(JoinedFirst, FromTimeline(items, p))
  {
    if items != [] {
      SortedStays(items[1..], p);
      InsertedStays(items[0], Sort(ItemFirst, items[1..]), p);
      assert FromTimeline(items, p)[1..] == FromTimeline(items[1..], p);
    }
  }

  lemma {:induction false} ErrorIsOfAnItem(items: seq<TimelineItem>)
    requires FirstItemError(items).Some?
    ensures exists item :: item in items && ItemError(item) == FirstItemError(items)
  {
    var before, last := items[..|items| - 1], items[|items| - 1];
    assert items == before + [last];
    if FirstItemError(before).Some? {
      ErrorIsOfAnItem(before);
    } else {
      assert last in items && ItemError(last) == FirstItemError(items);
    }
  }

  // A timeline is accepted exactly when it is not empty, every item is fine, and no instant has two of them.
  lemma NormalizedAcceptsIff(timeline: seq<TimelineItem>)
    ensures Normalized(timeline).Ok? <==>
              && timeline != [] && (forall item :: item in timeline ==> Fine(item))
              && AtMostOne(FromTimeline(timeline, 0))
  {
    var items := Sort(ItemFirst, timeline);
    SortKeeps(ItemFirst, timeline);
    assert forall item :: item in timeline <==> item in multiset(items);
    if Mixed(timeline) {
      var i :| 0 <= i < |timeline| && !timeline[i].joinedAware;
      assert timeline[i] in timeline;
    }
    if forall item :: item in timeline ==> Fine(item) { FineIsAccepted(timeline, items); }
    assert forall item :: ItemError(item) == None <==> Fine(item);
  }

  lemma FineIsAccepted(timeline: seq<TimelineItem>, items: seq<TimelineItem>)
    requires items == Sort(ItemFirst, timeline) && forall item :: item in items ==> Fine(item)
    ensures NeighboursFollow(ItemIntervals(items)) <==> AtMostOne(FromTimeline(timeline, 0))
  {
    var history := FromTimeline(items, 0);
    SortedStays(timeline, 0);
    SortSorts(ItemFirst, timeline);
    forall t ensures HeldAt(history, t) == HeldAt(FromTimeline(timeline, 0), t) {
      HeldBySort(FromTimeline(timeline, 0), t);
    }
    assert Intervals(history) == ItemIntervals(items);
    forall i, j | 0 <= i < j < |items| ensures Intervals(history)[i].joined <= Intervals(history)[j].joined {
      assert ItemFirst(items[i], items[j]);
    }
    forall m | m in history ensures Proper(MembershipInterval(m)) {
      var i :| 0 <= i < |items| && history[i] == m;
      assert Fine(items[i]);
    }
    AloneIff(history);
    FollowIffAlone(history);
  }

  lemma FollowIffAlone(history: seq<Membership>)
    requires InOrder(Intervals(history)) && forall m :: m in history ==> Proper(MembershipInterval(m))
    ensures NeighboursFollow(Intervals(history)) <==> Unambiguous(Intervals(history))
  {
    forall i | 0 <= i < |history| ensures Proper(Intervals(history)[i]) { assert history[i] in history; }
    if NeighboursFollow(Intervals(history)) { NeighboursSuffice(Intervals(history)); }
    if Unambiguous(Intervals(history)) { NeighboursNecessary(Intervals(history)); }
  }

  // What a refusal says is so: nothing was given, the beginnings mix instants with and without a time zone, some
  // item has the fault named, or every item is fine and two of them overlap.
  lemma RefusalIsRight(timeline: seq<TimelineItem>)
    requires Normalized(timeline).Err?
    ensures match Normalized(timeline).error
            case EmptyTimeline => timeline == []
            case MixedInstants => (exists item :: item in timeline && item.joinedAware)
                                  && exists item :: item in timeline && !item.joinedAware
            case NaiveInstant => exists item :: item in timeline
                                   && (!item.joinedAware || (item.left.Some? && !item.leftAware))
            case EndsBeforeStart => exists item :: item in timeline && item.left.Some? && item.left.value <= item.joined
            case UnknownPermission => exists item :: item in timeline && !item.knownPermissions
            case Overlap => (forall item :: item in timeline ==> Fine(item)) && !AtMostOne(FromTimeline(timeline, 0))
            case _ => false
  {
    var items := Sort(ItemFirst, timeline);
    SortKeeps(ItemFirst, timeline);
    NormalizedAcceptsIff(timeline);
    assert forall item :: item in timeline <==> item in multiset(items);
    if Mixed(timeline) {
      var i, j :| 0 <= i < |timeline| && timeline[i].joinedAware && 0 <= j < |timeline| && !timeline[j].joinedAware;
      assert timeline[i] in timeline && timeline[j] in timeline;
    } else if timeline != [] && FirstItemError(items).Some? {
      ErrorIsOfAnItem(items);
    } else {
      assert forall item :: ItemError(item) == None <==> Fine(item);
    }
  }

  // One item holds for the whole window.
  predicate Spans(item: TimelineItem, point: WaiverPoint) {
    && item.teamId == point.teamId
    && item.joined <= point.since
    && (item.left.None? || item.left.value >= point.until)
  }

  predicate Matches(items: seq<TimelineItem>, point: WaiverPoint) {
    exists i :: 0 <= i < |items| && Spans(items[i], point)
  }

  // The first waiver the timeline violates, if any.
  function PointsError(items: seq<TimelineItem>, points: seq<WaiverPoint>): (error: Option<Error>)
    ensures error == None <==> forall p :: p in points ==> Matches(items, p)
  {
    if points == [] then None
    else
      var before := PointsError(items, points[..|points| - 1]);
      var last := points[|points| - 1];
      assert points == points[..|points| - 1] + [last];
      if before.Some? then before
      else if Matches(items, last) then None
      else Some(ViolatesWaiver(last))
  }

  predicate InWindow(point: WaiverPoint, t: int) { point.since <= t < point.until }

  // At every instant of the window the timeline has exactly one team, and it is the waiver's.
  ghost predicate RightTeamThroughout(items: seq<TimelineItem>, point: WaiverPoint) {
    forall t :: InWindow(point, t) ==>
      && (exists i :: 0 <= i < |items| && Contains(ItemInterval(items[i]), t))
      && (forall i :: 0 <= i < |items| && Contains(ItemInterval(items[i]), t) ==> items[i].teamId == point.teamId)
  }

  lemma MatchingIsRight(items: seq<TimelineItem>, point: WaiverPoint)
    requires Unambiguous(ItemIntervals(items)) && Matches(items, point)
    ensures RightTeamThroughout(items, point)
  {
    var i :| 0 <= i < |items| && Spans(items[i], point);
    forall t | InWindow(point, t)
      ensures exists k :: 0 <= k < |items| && Contains(ItemInterval(items[k]), t)
      ensures forall k :: 0 <= k < |items| && Contains(ItemInterval(items[k]), t) ==> items[k].teamId == point.teamId
    {
      assert Contains(ItemInterval(items[i]), t) && Contains(ItemIntervals(items)[i], t);
      forall k | 0 <= k < |items| && Contains(ItemInterval(items[k]), t) ensures k == i {
        assert Contains(ItemIntervals(items)[k], t);
      }
    }
  }

  // With a timeline that passes both checks, at every instant of every waiver window the player is in
  // the team the waiver asks for, and in no other.
  lemma AcceptedTimelineKeepsWaivers(timeline: seq<TimelineItem>, points: seq<WaiverPoint>)
    requires Normalized(timeline).Ok? && PointsError(Normalized(timeline).value, points) == None
    ensures forall p :: p in points ==> RightTeamThroughout(Normalized(timeline).value, p)
  {
    NormalizedUnambiguous(timeline);
    forall p | p in points ensures RightTeamThroughout(Normalized(timeline).value, p) {
      MatchingIsRight(Normalized(timeline).value, p);
    }
  }

  lemma NotBothRight(items: seq<TimelineItem>, p: WaiverPoint, q: WaiverPoint, t: int)
    requires p.teamId != q.teamId && InWindow(p, t) && InWindow(q, t)
    ensures !(RightTeamThroughout(items, p) && RightTeamThroughout(items, q))
  {
    if RightTeamThroughout(items, p) {
      var i :| 0 <= i < |items| && Contains(ItemInterval(items[i]), t);
      assert items[i].teamId == p.teamId;
    }
  }

  // Two waivers for different teams at one time cannot both be kept: every timeline is refused.
  lemma ClashingWaiversRefused(
    timeline: seq<TimelineItem>, points: seq<WaiverPoint>, p: WaiverPoint, q: WaiverPoint, t: int)
    requires p in points && q in points && p.teamId != q.teamId && InWindow(p, t) && InWindow(q, t)
    ensures Normalized(timeline).Ok? ==> PointsError(Normalized(timeline).value, points).Some?
  {
    if Normalized(timeline).Ok? {
      NotBothRight(Normalized(timeline).value, p, q, t);
      if PointsError(Normalized(timeline).value, points) == None {
        AcceptedTimelineKeepsWaivers(timeline, points);
      }
    }
  }

  // The check asks for more than the right team at every instant: the item that holds when the window
  // opens has to hold until it closes.
  lemma MatchesIff(items: seq<TimelineItem>, point: WaiverPoint, i: nat)
    requires Unambiguous(ItemIntervals(items)) && point.since < point.until
    requires i < |items| && Contains(ItemInterval(items[i]), point.since)
    ensures Matches(items, point) <==>
              items[i].teamId == point.teamId && (items[i].left.None? || items[i].left.value >= point.until)
  {
    assert Contains(ItemIntervals(items)[i], point.since);
    if Matches(items, point) {
      var k :| 0 <= k < |items| && Spans(items[k], point);
      assert Contains(ItemIntervals(items)[k], point.since);
    } else {
      assert !Spans(items[i], point);
    }
  }

  // And a window at whose opening no item holds does not pass.
  lemma NobodyMatches(items: seq<TimelineItem>, point: WaiverPoint)
    requires point.since < point.until
    requires forall i :: 0 <= i < |items| ==> !Contains(ItemInterval(items[i]), point.since)
    ensures !Matches(items, point)
  {
    if Matches(items, point) {
      var k :| 0 <= k < |items| && Spans(items[k], point);
      assert Contains(ItemInterval(items[k]), point.since);
    }
  }

  // So a membership written as two, one straight after the other, is refused though the team is right throughout.
  lemma SplitMembershipRefused(team: nat, since: int, middle: int, until: int)
    requires since < middle < until
    ensures var items :=
              [TimelineItem(team, since, Some(middle), true, true, true),
               TimelineItem(team, middle, None, true, true, true)];
            var point := WaiverPoint(team, since, until);
            && Normalized(items) == Ok(items)
            && RightTeamThroughout(items, point)
            && PointsError(items, [point]) == Some(ViolatesWaiver(point))
  {
    var items := [TimelineItem(team, since, Some(middle), true, true, true),
                  TimelineItem(team, middle, None, true, true, true)];
    var point := WaiverPoint(team, since, until);
    SortOfSorted(ItemFirst, items);
    assert !Matches(items, point);
    assert PointsError(items, [point][..0]) == None;
    forall t | InWindow(point, t)
      ensures exists i :: 0 <= i < |items| && Contains(ItemInterval(items[i]), t)
    {
      assert Contains(ItemInterval(items[if t < middle then 0 else 1]), t);
    }
  }

  // ----- The windows of waivers -----

  datatype Waiver = Waiver(teamId: nat, canPlay: bool, startAt: Option<int>, gettingWaivers: bool)

  function LocalDay(now: int, tz: int): int { (now + tz) / DAY }

  function Weekday(day: int): int { (day + EPOCH_WEEKDAY) % 7 }

  function Midnight(day: int, tz: int): int { day * DAY - tz }

  // The week a game that is not planned yet is expected in; on a Sunday also the week to come.
  function PendingGameInterval(now: int, tz: int): (int, int) {
    var today := LocalDay(now, tz);
    if Weekday(today) == SUNDAY then (Midnight(today, tz), Midnight(today + 8, tz))
    else
      var monday := today - Weekday(today);
      (Midnight(monday, tz), Midnight(monday + 7, tz))
  }

  function PointOf(w: Waiver, now: int, tz: int): WaiverPoint
    requires w.startAt.Some? || w.gettingWaivers
  {
    if w.startAt.Some? then
      WaiverPoint(w.teamId, w.startAt.value - WAIVER_POINT_BEFORE_GAME, w.startAt.value + WAIVER_POINT_AFTER_GAME)
    else
      var (since, until) := PendingGameInterval(now, tz);
      WaiverPoint(w.teamId, since, until)
  }

  // A window is never empty. That of a planned game begins an hour before its start and ends two days after it.
  // That of a pending one holds the moment it is worked out, and ends with the end of a Sunday still to come; it
  // begins with the Monday of that week, or on a Sunday with the day itself.
  lemma WindowsMakeSense(w: Waiver, now: int, tz: int)
    requires w.startAt.Some? || w.gettingWaivers
    ensures var p := PointOf(w, now, tz);
            && p.since < p.until
            && p.teamId == w.teamId
            && (w.startAt.Some? ==> p.since == w.startAt.value - 3600 && p.until == w.startAt.value + 172800)
            && (w.startAt.None? ==> InWindow(p, now))
            && (w.startAt.None? ==> exists sunday: int ::
                  && Weekday(sunday) == SUNDAY && p.until == Midnight(sunday + 1, tz)
                  && LocalDay(now, tz) <= sunday <= LocalDay(now, tz) + 7
                  && (Weekday(LocalDay(now, tz)) == SUNDAY ==>
                        sunday == LocalDay(now, tz) + 7 && p.since == Midnight(LocalDay(now, tz), tz))
                  && (Weekday(LocalDay(now, tz)) != SUNDAY ==> p.since == Midnight(sunday - 6, tz)))
  {
    if w.startAt.None? {
      var today := LocalDay(now, tz);
      var sunday := if Weekday(today) == SUNDAY then today + 7 else today - Weekday(today) + 6;
      NowIsToday(now, tz);
      ComingSunday(today);
      assert PointOf(w, now, tz).until == Midnight(sunday + 1, tz);
    }
  }

  lemma NowIsToday(now: int, tz: int)
    ensures Midnight(LocalDay(now, tz), tz) <= now < Midnight(LocalDay(now, tz) + 1, tz)
  {
    var shifted, rest := (now + tz) / DAY, (now + tz) % DAY;
    assert now + tz == shifted * DAY + rest;
  }

  lemma ComingSunday(today: int)
    ensures 0 <= Weekday(today) <= SUNDAY
    ensures Weekday(if Weekday(today) == SUNDAY then today + 7 else today - Weekday(today) + 6) == SUNDAY
  {
  }

  predicate PointFirst(a: WaiverPoint, b: WaiverPoint) { a.since <= b.since }

  predicate Counts(w: Waiver) { w.canPlay && (w.startAt.Some? || w.gettingWaivers) }

  function PointsOf(waivers: seq<Waiver>, now: int, tz: int): seq<WaiverPoint> {
    if waivers == [] then []
    else
      var before := PointsOf(waivers[..|waivers| - 1], now, tz);
      var last := waivers[|waivers| - 1];
      if Counts(last) then before + [PointOf(last, now, tz)] else before
  }

  function WaiverPoints(waivers: seq<Waiver>, now: int, tz: int): seq<WaiverPoint> {
    Sort(PointFirst, PointsOf(waivers, now, tz))
  }

  // Every waiver that counts is checked, and nothing else is, in the order in which their windows begin.
  lemma {:induction false} PointsAreOfWaivers(waivers: seq<Waiver>, now: int, tz: int, p: WaiverPoint)
    ensures forall i, j :: 0 <= i < j < |WaiverPoints(waivers, now, tz)| ==>
              WaiverPoints(waivers, now, tz)[i].since <= WaiverPoints(waivers, now, tz)[j].since
    ensures p in WaiverPoints(waivers, now, tz) <==>
              exists i :: 0 <= i < |waivers| && Counts(waivers[i]) && PointOf(waivers[i], now, tz) == p
  {
    SortKeeps(PointFirst, PointsOf(waivers, now, tz));
    SortSorts(PointFirst, PointsOf(waivers, now, tz));
    assert forall a, b :: PointFirst(a, b) <==> a.since <= b.since;
    assert p in multiset(WaiverPoints(waivers, now, tz)) <==> p in multiset(PointsOf(waivers, now, tz));
    CollectedPoints(waivers, now, tz, p);
  }

  lemma {:induction false} CollectedPoints(waivers: seq<Waiver>, now: int, tz: int, p: WaiverPoint)
    ensures p in PointsOf(waivers, now, tz) <==>
              exists i :: 0 <= i < |waivers| && Counts(waivers[i]) && PointOf(waivers[i], now, tz) == p
  {
    if waivers != [] {
      var before := waivers[..|waivers| - 1];
      CollectedPoints(before, now, tz, p);
      if i :| 0 <= i < |before| && Counts(before[i]) && PointOf(before[i], now, tz) == p {
        assert Counts(waivers[i]) && PointOf(waivers[i], now, tz) == p;
      }
    }
  }

  // ----- The interactor's steps -----

  class HistoryDao {
    var histories: map<nat, seq<Membership>>

    function HistoryOf(playerId: nat): seq<Membership>
      reads this
    {
      if playerId in histories then histories[playerId] else []
    }

    // Walks the neighbours; stops at the first two that clash.
    method CheckNeighbours(intervals: seq<Interval>) returns (ok: bool)
      ensures ok <==> NeighboursFollow(intervals)
    {
      var k := 0;
      while k + 1 < |intervals|
        invariant 0 <= k && (|intervals| > 0 ==> k < |intervals| && NeighboursFollow(intervals[..k + 1]))
      {
        if intervals[k].left.None? || intervals[k].left.value > intervals[k + 1].joined {
          assert !Follows(intervals[k], intervals[k + 1]);
          return false;
        }
        NeighboursExtend(intervals, k);
        k := k + 1;
      }
      assert |intervals| > 0 ==> intervals[..k + 1] == intervals;
      return true;
    }

    // Every membership goes to the player.
    method Own(history: seq<Membership>, playerId: nat) returns (owned: seq<Membership>)
      ensures owned == OwnedBy(history, playerId)
    {
      owned := history;
      for i := 0 to |history|
        invariant |owned| == |history|
        invariant owned[..i] == OwnedBy(history, playerId)[..i] && owned[i..] == history[i..]
      {
        owned := owned[i := owned[i].(playerId := playerId)];
      }
      assert owned[..|history|] == owned && OwnedBy(history, playerId)[..|history|] == OwnedBy(history, playerId);
    }

    method Merge(playerId: nat, primary: seq<Membership>, secondary: seq<Membership>)
      returns (r: Result<seq<Membership>, Error>)
      ensures r == Merged(playerId, primary, secondary)
    {
      if |primary| == 1 && secondary == [] { return Err(NoSecondaryHistory); }
      var merged: seq<Membership> := [];
      if SameMembership(primary, secondary) {
        merged := secondary;
      }
      if merged == [] {
        merged := Sort(JoinedFirst, primary + secondary);
      }
      var compatible := CheckNeighbours(Intervals(merged));
      if !compatible { return Err(IncompatibleHistories); }
      merged := Own(merged, playerId);
      return Ok(merged);
    }

    // Both histories are replaced by the merged one, or nothing changes.
    method MergeTeamHistory(primary: nat, secondary: nat) returns (error: Option<Error>)
      requires primary != secondary
      modifies this
      ensures var merged := Merged(primary, old(HistoryOf(primary)), old(HistoryOf(secondary)));
              match merged
              case Ok(history) =>
                error == None && histories == old(histories)[primary := history][secondary := []]
              case Err(e) => error == Some(e) && histories == old(histories)
      ensures error == None ==>
                && HistoryOf(secondary) == []
                && Keeps(primary, old(HistoryOf(primary)), old(HistoryOf(secondary)), HistoryOf(primary))
    {
      var primaryHistory := HistoryOf(primary);
      var secondaryHistory := HistoryOf(secondary);
      var merged := Merge(primary, primaryHistory, secondaryHistory);
      if merged.Err? { return Some(merged.error); }
      MergeKeepsStays(primary, primaryHistory, secondaryHistory);
      histories := histories[primary := []];
      histories := histories[secondary := []];
      histories := histories[primary := merged.value];
      return None;
    }

    // The items in order, or the first thing wrong with them.
    method NormalizeTimeline(timeline: seq<TimelineItem>) returns (r: Result<seq<TimelineItem>, Error>)
      ensures r == Normalized(timeline)
    {
      if timeline == [] { return Err(EmptyTimeline); }
      if Mixed(timeline) { return Err(MixedInstants); }
      var items := Sort(ItemFirst, timeline);
      for i := 0 to |items|
        invariant FirstItemError(items[..i]) == None
      {
        assert items[..i + 1][..i] == items[..i];
        var error := ItemError(items[i]);
        if error.Some? {
          ErrorStays(items, i + 1);
          return Err(error.value);
        }
      }
      assert items[..|items|] == items;
      var ok := CheckNeighbours(ItemIntervals(items));
      return if ok then Ok(items) else Err(Overlap);
    }

    method CheckTimelineMatchesPoints(items: seq<TimelineItem>, points: seq<WaiverPoint>) returns (error: Option<Error>)
      ensures error == PointsError(items, points)
      ensures error == None ==> forall p :: p in points ==> Matches(items, p)
      ensures error.Some? ==> exists k :: 0 <= k < |points| && error == Some(ViolatesWaiver(points[k]))
                                          && !Matches(items, points[k])
                                          && forall j :: 0 <= j < k ==> Matches(items, points[j])
    {
      for i := 0 to |points|
        invariant PointsError(items, points[..i]) == None
        invariant forall j :: 0 <= j < i ==> Matches(items, points[j])
      {
        assert points[..i + 1][..i] == points[..i];
        if !Matches(items, points[i]) {
          PointsErrorStays(items, points, i + 1);
          return Some(ViolatesWaiver(points[i]));
        }
      }
      assert points[..|points|] == points;
      return None;
    }

    // The timeline becomes the history of the primary.
    method SetMergedTeamHistory(primary: nat, secondary: nat, items: seq<TimelineItem>)
      requires primary != secondary
      modifies this
      ensures histories == old(histories)[primary := FromTimeline(items, primary)][secondary := []]
      ensures |HistoryOf(primary)| == |items| && forall i :: 0 <= i < |items| ==>
                HistoryOf(primary)[i] == Membership(primary, items[i].teamId, items[i].joined, items[i].left)
    {
      var merged: seq<Membership> := [];
      for i := 0 to |items|
        invariant merged == FromTimeline(items, primary)[..i]
      {
        merged := merged + [Membership(primary, items[i].teamId, items[i].joined, items[i].left)];
      }
      assert FromTimeline(items, primary)[..|items|] == FromTimeline(items, primary);
      histories := histories[primary := []];
      histories := histories[secondary := []];
      histories := histories[primary := merged];
    }
  }

  function FromTimeline(items: seq<TimelineItem>, playerId: nat): (history: seq<Membership>)
    ensures |history| == |items|
  {
    seq(|items|, i requires 0 <= i < |items| => Membership(playerId, items[i].teamId, items[i].joined, items[i].left))
  }

  // What is written says the same as the timeline that was checked.
  lemma WrittenTimelineUnambiguous(timeline: seq<TimelineItem>, playerId: nat)
    requires Normalized(timeline).Ok?
    ensures var history := FromTimeline(Normalized(timeline).value, playerId);
            InOrder(Intervals(history)) && Unambiguous(Intervals(history))
  {
    NormalizedUnambiguous(timeline);
    var items := Normalized(timeline).value;
    assert Intervals(FromTimeline(items, playerId)) == ItemIntervals(items);
  }

  lemma {:induction false} ErrorStays(items: seq<TimelineItem>, n: nat)
    requires n <= |items| && FirstItemError(items[..n]).Some?
    ensures FirstItemError(items) == FirstItemError(items[..n])
    decreases |items|
  {
    if n < |items| {
      var before := items[..|items| - 1];
      assert before[..n] == items[..n];
      ErrorStays(before, n);
    } else {
      assert items[..n] == items;
    }
  }

  lemma {:induction false} PointsErrorStays(items: seq<TimelineItem>, points: seq<WaiverPoint>, n: nat)
    requires n <= |points| && PointsError(items, points[..n]).Some?
    ensures PointsError(items, points) == PointsError(items, points[..n])
    decreases |points|
  {
    if n < |points| {
      var before := points[..|points| - 1];
      assert before[..n] == points[..n];
      PointsErrorStays(items, before, n);
    } else {
      assert points[..n] == points;
    }
  }
}
