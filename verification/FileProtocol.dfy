// Uploads, deletions and garbage collections of files, interleaved step by step. An upload writes its content
// before its row is committed; a collector takes its snapshot of paths, lists the storage, commits and only
// then deletes contents. Instants are integers (seconds).
module FileProtocol {
  const DAY: int := 86400

  datatype Upload = Upload(guid: string, path: string, putAt: int)

  // A collector on its way: the metas it will delete, then the paths still alive, then the garbage it found.
  datatype Collector =
    | Found(orphans: set<string>)
    | Snapped(orphans: set<string>, alive: set<string>, at: int)
    | Listed(orphans: set<string>, garbage: set<string>)
    | Committed(garbage: set<string>)

  // `metas` are the committed rows: guid to path; `stored` the contents, with the time they were written;
  // `used` every path that ever was in use.
  datatype State = State(
    metas: map<string, string>, stored: map<string, int>, used: set<string>,
    uploads: map<nat, Upload>, collectors: map<nat, Collector>, deletions: map<nat, string>, clock: int)

  datatype Event =
    | Wait(time: nat)
    | Put(id: nat, guid: string, path: string)
    | CommitUpload(id: nat)
    | AbandonUpload(id: nat)
    | FindOrphans(id: nat, orphans: set<string>)
    | SnapshotPaths(id: nat)
    | ListStorage(id: nat)
    | CommitCollection(id: nat)
    | CollectContent(id: nat, path: string)
    | DeleteMeta(id: nat, guid: string)
    | DeleteContent(id: nat)

  function PathsOf(metas: map<string, string>): set<string> {
    set g | g in metas :: metas[g]
  }

  function Garbage(stored: map<string, int>, alive: set<string>, now: int): set<string> {
    set p | p in stored && p !in alive && stored[p] < now - DAY
  }

  // An upload commits within `uploadMax` of writing its content, a collector lists the storage within
  // `delayMax` of its snapshot; the path of an upload is new, being made of a new guid.
  predicate Enabled(uploadMax: nat, delayMax: nat, st: State, ev: Event) {
    match ev
    case Wait(_) => true
    case Put(id, guid, path) => id !in st.uploads && path !in st.used
    case CommitUpload(id) => id in st.uploads && st.clock - st.uploads[id].putAt <= uploadMax
    case AbandonUpload(id) => id in st.uploads
    case FindOrphans(id, orphans) => id !in st.collectors
    case SnapshotPaths(id) => id in st.collectors && st.collectors[id].Found?
    case ListStorage(id) =>
      id in st.collectors && st.collectors[id].Snapped? && st.clock - st.collectors[id].at <= delayMax
    case CommitCollection(id) => id in st.collectors && st.collectors[id].Listed?
    case CollectContent(id, path) =>
      id in st.collectors && st.collectors[id].Committed? && path in st.collectors[id].garbage
    case DeleteMeta(id, guid) => id !in st.deletions && guid in st.metas
    case DeleteContent(id) => id in st.deletions
  }

  function Step(uploadMax: nat, delayMax: nat, st: State, ev: Event): State
    requires Enabled(uploadMax, delayMax, st, ev)
  {
    match ev
    case Wait(time) => st.(clock := st.clock + time)
    case Put(id, guid, path) =>
      st.(stored := st.stored[path := st.clock], used := st.used + {path},
          uploads := st.uploads[id := Upload(guid, path, st.clock)])
    case CommitUpload(id) =>
      st.(metas := st.metas[st.uploads[id].guid := st.uploads[id].path], uploads := st.uploads - {id})
    case AbandonUpload(id) => st.(uploads := st.uploads - {id})
    case FindOrphans(id, orphans) => st.(collectors := st.collectors[id := Found(orphans)])
    case SnapshotPaths(id) =>
      var orphans := st.collectors[id].orphans;
      st.(collectors := st.collectors[id := Snapped(orphans, PathsOf(st.metas - orphans), st.clock)])
    case ListStorage(id) =>
      var c := st.collectors[id];
      st.(collectors := st.collectors[id := Listed(c.orphans, Garbage(st.stored, c.alive, st.clock))])
    case CommitCollection(id) =>
      var c := st.collectors[id];
      st.(metas := st.metas - c.orphans, collectors := st.collectors[id := Committed(c.garbage)])
    case CollectContent(id, path) => st.(stored := st.stored - {path})
    case DeleteMeta(id, guid) =>
      var path := st.metas[guid];
      var left := st.metas - {guid};
      st.(metas := left,
          deletions := if path in PathsOf(left) then st.deletions else st.deletions[id := path])
    case DeleteContent(id) =>
      st.(stored := st.stored - {st.deletions[id]}, deletions := st.deletions - {id})
  }

  // Every committed meta has its content.
  ghost predicate NoDangling(st: State) {
    forall g :: g in st.metas ==> st.metas[g] in st.stored
  }

  // Nothing is under way. Metas may share paths.
  ghost predicate Quiet(st: State) {
    && st.uploads == map[] && st.collectors == map[] && st.deletions == map[]
    && NoDangling(st) && st.stored.Keys <= st.used
  }

  ghost predicate IsRun(uploadMax: nat, delayMax: nat, states: seq<State>, events: seq<Event>) {
    && |states| == |events| + 1
    && Quiet(states[0])
    && forall i {:trigger events[i]} :: 0 <= i < |events| ==>
         && Enabled(uploadMax, delayMax, states[i], events[i])
         && states[i + 1] == Step(uploadMax, delayMax, states[i], events[i])
  }

  // ----- The invariant -----

  ghost predicate MetaOk(st: State, g: string)
    requires g in st.metas
  {
    st.metas[g] in st.stored && st.metas[g] in st.used
  }

  // An upload under way owns its path: no meta, no other upload and no deletion has it.
  ghost predicate UploadOk(uploadMax: nat, st: State, id: nat)
    requires id in st.uploads
  {
    var u := st.uploads[id];
    && u.path in st.used && u.putAt <= st.clock
    && u.path !in PathsOf(st.metas)
    && (forall other :: other in st.uploads && other != id ==> st.uploads[other].path != u.path)
    && (st.clock - u.putAt <= uploadMax ==> u.path in st.stored && st.stored[u.path] == u.putAt)
  }

  ghost predicate DeletionOk(st: State, id: nat)
    requires id in st.deletions
  {
    var path := st.deletions[id];
    && path in st.used && path !in PathsOf(st.metas)
    && forall u :: u in st.uploads ==> st.uploads[u].path != path
  }

  // No meta and no upload that may still commit needs a path a collector is about to delete.
  ghost predicate GarbageOk(uploadMax: nat, st: State, garbage: set<string>, orphans: set<string>) {
    && garbage <= st.used
    && (forall g :: g in st.metas && st.metas[g] in garbage ==> g in orphans)
    && (forall u :: u in st.uploads && st.uploads[u].path in garbage ==> st.clock - st.uploads[u].putAt > uploadMax)
  }

  ghost predicate CollectorOk(uploadMax: nat, st: State, c: Collector) {
    match c
    case Found(_) => true
    case Snapped(orphans, alive, at) =>
      && at <= st.clock
      && forall g :: g in st.metas && g !in orphans && st.metas[g] !in alive && st.metas[g] in st.stored ==>
           st.stored[st.metas[g]] >= at - uploadMax
    case Listed(orphans, garbage) => GarbageOk(uploadMax, st, garbage, orphans)
    case Committed(garbage) => GarbageOk(uploadMax, st, garbage, {})
  }

  ghost predicate Inv(uploadMax: nat, st: State) {
    && st.stored.Keys <= st.used
    && (forall g {:trigger MetaOk(st, g)} :: g in st.metas ==> MetaOk(st, g))
    && (forall id {:trigger UploadOk(uploadMax, st, id)} :: id in st.uploads ==> UploadOk(uploadMax, st, id))
    && (forall id {:trigger DeletionOk(st, id)} :: id in st.deletions ==> DeletionOk(st, id))
    && (forall id {:trigger CollectorOk(uploadMax, st, st.collectors[id])} ::
          id in st.collectors ==> CollectorOk(uploadMax, st, st.collectors[id]))
  }

  lemma QuietIsInv(uploadMax: nat, st: State)
    requires Quiet(st)
    ensures Inv(uploadMax, st)
  {
  }

  // ----- Each step keeps it -----

  // Steps that do not touch a component leave what is said of it as it was; these say it once for all.

  lemma MetasShrink(metas: map<string, string>, less: map<string, string>)
    requires forall g :: g in less ==> g in metas && metas[g] == less[g]
    ensures PathsOf(less) <= PathsOf(metas)
  {
    forall p | p in PathsOf(less) ensures p in PathsOf(metas) {
      var g :| g in less && less[g] == p;
      assert g in metas && metas[g] == p;
    }
  }

  // Fewer metas, fewer uploads, a later clock: nothing that held before is broken by that alone.
  ghost predicate Less(st: State, st': State) {
    && (forall g :: g in st'.metas ==> g in st.metas && st.metas[g] == st'.metas[g])
    && (forall u :: u in st'.uploads ==> u in st.uploads && st.uploads[u] == st'.uploads[u])
    && st'.used == st.used && st'.clock >= st.clock
  }

  lemma LessKeepsGarbage(uploadMax: nat, st: State, st': State, garbage: set<string>, orphans: set<string>)
    requires Less(st, st') && GarbageOk(uploadMax, st, garbage, orphans)
    ensures GarbageOk(uploadMax, st', garbage, orphans)
  {
  }

  lemma LessKeepsCollector(uploadMax: nat, st: State, st': State, c: Collector)
    requires Less(st, st') && st'.stored == st.stored && CollectorOk(uploadMax, st, c)
    ensures CollectorOk(uploadMax, st', c)
  {
    match c
    case Found(_) =>
    case Snapped(_, _, _) =>
    case Listed(orphans, garbage) => LessKeepsGarbage(uploadMax, st, st', garbage, orphans);
    case Committed(garbage) => LessKeepsGarbage(uploadMax, st, st', garbage, {});
  }

  lemma LessKeepsUpload(uploadMax: nat, st: State, st': State, id: nat)
    requires Less(st, st') && st'.stored == st.stored && id in st'.uploads && id in st.uploads
        && UploadOk(uploadMax, st, id)
    ensures UploadOk(uploadMax, st', id)
  {
    MetasShrink(st.metas, st'.metas);
  }

  lemma LessKeepsDeletion(st: State, st': State, id: nat)
    requires Less(st, st') && id in st.deletions && id in st'.deletions && st.deletions[id] == st'.deletions[id]
    requires DeletionOk(st, id)
    ensures DeletionOk(st', id)
  {
    MetasShrink(st.metas, st'.metas);
  }

  // A step that only takes away metas or uploads, or lets time pass, keeps the invariant, if what it
  // changes of the deletions and the collectors is right.
  lemma LessKeepsInv(uploadMax: nat, st: State, st': State)
    requires Inv(uploadMax, st) && Less(st, st') && st'.stored == st.stored
    requires forall id :: id in st'.deletions ==>
               DeletionOk(st', id) || (id in st.deletions && st.deletions[id] == st'.deletions[id])
    requires forall id :: id in st'.collectors ==>
               CollectorOk(uploadMax, st', st'.collectors[id])
               || (id in st.collectors && st.collectors[id] == st'.collectors[id])
    ensures Inv(uploadMax, st')
  {
    forall g | g in st'.metas ensures MetaOk(st', g) { assert MetaOk(st, g); }
    forall id | id in st'.uploads ensures UploadOk(uploadMax, st', id) {
      assert UploadOk(uploadMax, st, id);
      LessKeepsUpload(uploadMax, st, st', id);
    }
    forall id | id in st'.deletions ensures DeletionOk(st', id) {
      if !DeletionOk(st', id) {
        assert DeletionOk(st, id);
        LessKeepsDeletion(st, st', id);
      }
    }
    forall id | id in st'.collectors ensures CollectorOk(uploadMax, st', st'.collectors[id]) {
      if !CollectorOk(uploadMax, st', st'.collectors[id]) {
        assert CollectorOk(uploadMax, st, st.collectors[id]);
        LessKeepsCollector(uploadMax, st, st', st'.collectors[id]);
      }
    }
  }

  lemma PutKeepsInv(uploadMax: nat, delayMax: nat, st: State, id: nat, guid: string, path: string)
    requires Inv(uploadMax, st) && Enabled(uploadMax, delayMax, st, Put(id, guid, path))
    ensures Inv(uploadMax, Step(uploadMax, delayMax, st, Put(id, guid, path)))
  {
    var st' := Step(uploadMax, delayMax, st, Put(id, guid, path));
    forall g | g in st'.metas ensures MetaOk(st', g) { assert MetaOk(st, g); }
    forall p | p in PathsOf(st.metas) ensures p in st.used {
      var g :| g in st.metas && st.metas[g] == p;
      assert MetaOk(st, g);
    }
    forall u | u in st'.uploads ensures UploadOk(uploadMax, st', u) {
      if u != id { assert UploadOk(uploadMax, st, u); }
      forall other | other in st'.uploads && other != u ensures st'.uploads[other].path != st'.uploads[u].path {
        if other != id { assert UploadOk(uploadMax, st, other); }
      }
    }
    forall d | d in st'.deletions ensures DeletionOk(st', d) { assert DeletionOk(st, d); }
    forall c | c in st'.collectors ensures CollectorOk(uploadMax, st', st'.collectors[c]) {
      assert CollectorOk(uploadMax, st, st.collectors[c]);
      forall g | g in st.metas ensures st.metas[g] != path { assert MetaOk(st, g); }
    }
  }

  lemma CommitUploadKeepsInv(uploadMax: nat, delayMax: nat, st: State, id: nat)
    requires Inv(uploadMax, st) && Enabled(uploadMax, delayMax, st, CommitUpload(id))
    ensures Inv(uploadMax, Step(uploadMax, delayMax, st, CommitUpload(id)))
  {
    var st' := Step(uploadMax, delayMax, st, CommitUpload(id));
    var upload := st.uploads[id];
    assert UploadOk(uploadMax, st, id);
    forall g | g in st'.metas ensures MetaOk(st', g) { if g != upload.guid { assert MetaOk(st, g); } }
    NewMetaPaths(st.metas, upload.guid, upload.path);
    forall u | u in st'.uploads ensures UploadOk(uploadMax, st', u) { assert UploadOk(uploadMax, st, u); }
    forall d | d in st'.deletions ensures DeletionOk(st', d) { assert DeletionOk(st, d); }
    forall c | c in st'.collectors ensures CollectorOk(uploadMax, st', st'.collectors[c]) {
      assert CollectorOk(uploadMax, st, st.collectors[c]);
    }
  }

  lemma NewMetaPaths(metas: map<string, string>, guid: string, path: string)
    ensures PathsOf(metas[guid := path]) <= PathsOf(metas) + {path}
  {
    forall p | p in PathsOf(metas[guid := path]) ensures p in PathsOf(metas) + {path} {
      var g :| g in metas[guid := path] && metas[guid := path][g] == p;
      if g != guid { assert g in metas && metas[g] == p; }
    }
  }

  // The heart of it: what is listed as garbage has no meta, but for those about to be deleted, and no
  // upload that may still commit. A content old enough to be listed was written too long before the
  // snapshot for its row to have been committed after it.
  lemma ListedGarbageOk(uploadMax: nat, delayMax: nat, st: State, id: nat)
    requires uploadMax + delayMax <= DAY
    requires Inv(uploadMax, st) && Enabled(uploadMax, delayMax, st, ListStorage(id))
    ensures GarbageOk(uploadMax, st, Garbage(st.stored, st.collectors[id].alive, st.clock), st.collectors[id].orphans)
  {
    var c := st.collectors[id];
    var garbage := Garbage(st.stored, c.alive, st.clock);
    assert CollectorOk(uploadMax, st, c);
    forall g | g in st.metas && st.metas[g] in garbage ensures g in c.orphans { assert MetaOk(st, g); }
    forall u | u in st.uploads && st.uploads[u].path in garbage ensures st.clock - st.uploads[u].putAt > uploadMax {
      assert UploadOk(uploadMax, st, u);
    }
  }

  lemma CollectorStepKeepsInv(uploadMax: nat, st: State, st': State, id: nat)
    requires Inv(uploadMax, st) && id in st'.collectors
    requires st' == st.(collectors := st.collectors[id := st'.collectors[id]])
    requires CollectorOk(uploadMax, st, st'.collectors[id])
    ensures Inv(uploadMax, st')
  {
    LessKeepsCollector(uploadMax, st, st', st'.collectors[id]);
    LessKeepsInv(uploadMax, st, st');
  }

  lemma SnapshotOk(uploadMax: nat, st: State, orphans: set<string>)
    ensures CollectorOk(uploadMax, st, Snapped(orphans, PathsOf(st.metas - orphans), st.clock))
  {
    forall g | g in st.metas && g !in orphans ensures st.metas[g] in PathsOf(st.metas - orphans) {
      assert g in st.metas - orphans && (st.metas - orphans)[g] == st.metas[g];
    }
  }

  lemma CommitCollectionKeepsInv(uploadMax: nat, delayMax: nat, st: State, id: nat)
    requires Inv(uploadMax, st) && Enabled(uploadMax, delayMax, st, CommitCollection(id))
    ensures Inv(uploadMax, Step(uploadMax, delayMax, st, CommitCollection(id)))
  {
    var st' := Step(uploadMax, delayMax, st, CommitCollection(id));
    assert CollectorOk(uploadMax, st, st.collectors[id]);
    assert Less(st, st');
    assert CollectorOk(uploadMax, st', st'.collectors[id]);
    LessKeepsInv(uploadMax, st, st');
  }

  // Content nobody needs is taken away.
  lemma TakeAwayKeepsInv(uploadMax: nat, st: State, st': State, path: string)
    requires Inv(uploadMax, st) && st' == st.(stored := st.stored - {path}, deletions := st'.deletions)
    requires forall d :: d in st'.deletions ==> d in st.deletions && st.deletions[d] == st'.deletions[d]
    requires path !in PathsOf(st.metas)
    requires forall u :: u in st.uploads && st.uploads[u].path == path ==> st.clock - st.uploads[u].putAt > uploadMax
    ensures Inv(uploadMax, st')
  {
    forall g | g in st'.metas ensures MetaOk(st', g) { assert MetaOk(st, g); assert st.metas[g] in PathsOf(st.metas); }
    forall u | u in st'.uploads ensures UploadOk(uploadMax, st', u) { assert UploadOk(uploadMax, st, u); }
    forall d | d in st'.deletions ensures DeletionOk(st', d) { assert DeletionOk(st, d); }
    forall c | c in st'.collectors ensures CollectorOk(uploadMax, st', st'.collectors[c]) {
      assert CollectorOk(uploadMax, st, st.collectors[c]);
    }
  }

  lemma CollectContentKeepsInv(uploadMax: nat, delayMax: nat, st: State, id: nat, path: string)
    requires Inv(uploadMax, st) && Enabled(uploadMax, delayMax, st, CollectContent(id, path))
    ensures Inv(uploadMax, Step(uploadMax, delayMax, st, CollectContent(id, path)))
  {
    assert CollectorOk(uploadMax, st, st.collectors[id]);
    TakeAwayKeepsInv(uploadMax, st, Step(uploadMax, delayMax, st, CollectContent(id, path)), path);
  }

  lemma DeleteMetaKeepsInv(uploadMax: nat, delayMax: nat, st: State, id: nat, guid: string)
    requires Inv(uploadMax, st) && Enabled(uploadMax, delayMax, st, DeleteMeta(id, guid))
    ensures Inv(uploadMax, Step(uploadMax, delayMax, st, DeleteMeta(id, guid)))
  {
    var st' := Step(uploadMax, delayMax, st, DeleteMeta(id, guid));
    var path := st.metas[guid];
    assert MetaOk(st, guid) && path in PathsOf(st.metas);
    if id in st'.deletions {
      forall u | u in st.uploads ensures st.uploads[u].path != path { assert UploadOk(uploadMax, st, u); }
      assert DeletionOk(st', id);
    }
    LessKeepsInv(uploadMax, st, st');
  }

  lemma DeleteContentKeepsInv(uploadMax: nat, delayMax: nat, st: State, id: nat)
    requires Inv(uploadMax, st) && Enabled(uploadMax, delayMax, st, DeleteContent(id))
    ensures Inv(uploadMax, Step(uploadMax, delayMax, st, DeleteContent(id)))
  {
    assert DeletionOk(st, id);
    TakeAwayKeepsInv(uploadMax, st, Step(uploadMax, delayMax, st, DeleteContent(id)), st.deletions[id]);
  }

  lemma StepKeepsInv(uploadMax: nat, delayMax: nat, st: State, ev: Event)
    requires uploadMax + delayMax <= DAY
    requires Inv(uploadMax, st) && Enabled(uploadMax, delayMax, st, ev)
    ensures Inv(uploadMax, Step(uploadMax, delayMax, st, ev))
  {
    var st' := Step(uploadMax, delayMax, st, ev);
    match ev
    case Wait(_) => LessKeepsInv(uploadMax, st, st');
    case Put(id, guid, path) => PutKeepsInv(uploadMax, delayMax, st, id, guid, path);
    case CommitUpload(id) => CommitUploadKeepsInv(uploadMax, delayMax, st, id);
    case AbandonUpload(id) => LessKeepsInv(uploadMax, st, st');
    case FindOrphans(id, orphans) => CollectorStepKeepsInv(uploadMax, st, st', id);
    case SnapshotPaths(id) =>
      SnapshotOk(uploadMax, st, st.collectors[id].orphans);
      CollectorStepKeepsInv(uploadMax, st, st', id);
    case ListStorage(id) =>
      ListedGarbageOk(uploadMax, delayMax, st, id);
      CollectorStepKeepsInv(uploadMax, st, st', id);
    case CommitCollection(id) => CommitCollectionKeepsInv(uploadMax, delayMax, st, id);
    case CollectContent(id, path) => CollectContentKeepsInv(uploadMax, delayMax, st, id, path);
    case DeleteMeta(id, guid) => DeleteMetaKeepsInv(uploadMax, delayMax, st, id, guid);
    case DeleteContent(id) => DeleteContentKeepsInv(uploadMax, delayMax, st, id);
  }

  lemma {:induction false} RunKeepsInv(
    uploadMax: nat, delayMax: nat, states: seq<State>, events: seq<Event>, i: nat)
    requires uploadMax + delayMax <= DAY && IsRun(uploadMax, delayMax, states, events) && i < |states|
    ensures Inv(uploadMax, states[i])
  {
    if i == 0 {
      QuietIsInv(uploadMax, states[0]);
    } else {
      RunKeepsInv(uploadMax, delayMax, states, events, i - 1);
      var ev := events[i - 1];
      StepKeepsInv(uploadMax, delayMax, states[i - 1], ev);
    }
  }

  // ----- The bound is exactly one day -----

  ghost predicate AlwaysSafe(uploadMax: nat, delayMax: nat) {
    forall states: seq<State>, events: seq<Event>, i: nat ::
      IsRun(uploadMax, delayMax, states, events) && i < |states| ==> NoDangling(states[i])
  }

  const NOTHING := State(map[], map[], {}, map[], map[], map[], 0)

  // An upload as slow and a collector as late as allowed: first the row of the upload is committed just
  // after the snapshot, ...
  function SlowUpload(uploadMax: nat): seq<Event> {
    [Put(0, "g", "p"), Wait(uploadMax), FindOrphans(0, {}), SnapshotPaths(0), CommitUpload(0)]
  }

  // ... then the collector comes to the storage, where the content is by then older than a day.
  function LateCollection(delayMax: nat): seq<Event> {
    [Wait(delayMax), ListStorage(0), CommitCollection(0), CollectContent(0, "p")]
  }

  function AfterSlowUpload(uploadMax: nat): State {
    State(map["g" := "p"], map["p" := 0], {"p"}, map[], map[0 := Snapped({}, {}, uploadMax)], map[], uploadMax)
  }

  lemma SlowUploadRuns(uploadMax: nat, delayMax: nat) returns (states: seq<State>)
    ensures IsRun(uploadMax, delayMax, states, SlowUpload(uploadMax))
    ensures states[|states| - 1] == AfterSlowUpload(uploadMax)
  {
    var events := SlowUpload(uploadMax);
    var s1 := Step(uploadMax, delayMax, NOTHING, events[0]);
    var s2 := Step(uploadMax, delayMax, s1, events[1]);
    var s3 := Step(uploadMax, delayMax, s2, events[2]);
    var s4 := Step(uploadMax, delayMax, s3, events[3]);
    var s5 := Step(uploadMax, delayMax, s4, events[4]);
    states := [NOTHING, s1, s2, s3, s4, s5];
    assert PathsOf(map[] - {}) == {};
    assert s5 == AfterSlowUpload(uploadMax);
  }

  lemma LateCollectionDangles(uploadMax: nat, delayMax: nat) returns (states: seq<State>)
    requires uploadMax + delayMax > DAY
    ensures |states| == 5 && states[0] == AfterSlowUpload(uploadMax)
    ensures forall i {:trigger LateCollection(delayMax)[i]} :: 0 <= i < 4 ==>
              && Enabled(uploadMax, delayMax, states[i], LateCollection(delayMax)[i])
              && states[i + 1] == Step(uploadMax, delayMax, states[i], LateCollection(delayMax)[i])
    ensures !NoDangling(states[4])
  {
    var events := LateCollection(delayMax);
    var s0 := AfterSlowUpload(uploadMax);
    var s1 := Step(uploadMax, delayMax, s0, events[0]);
    var s2 := Step(uploadMax, delayMax, s1, events[1]);
    assert "p" in s2.collectors[0].garbage;
    var s3 := Step(uploadMax, delayMax, s2, events[2]);
    var s4 := Step(uploadMax, delayMax, s3, events[3]);
    states := [s0, s1, s2, s3, s4];
    assert s4.metas["g"] == "p" && "p" !in s4.stored;
  }

  lemma RunContinues(
    uploadMax: nat, delayMax: nat, states: seq<State>, events: seq<Event>, later: seq<State>, more: seq<Event>)
    requires IsRun(uploadMax, delayMax, states, events)
    requires |later| == |more| + 1 && later[0] == states[|states| - 1]
    requires forall i {:trigger more[i]} :: 0 <= i < |more| ==>
               && Enabled(uploadMax, delayMax, later[i], more[i])
               && later[i + 1] == Step(uploadMax, delayMax, later[i], more[i])
    ensures IsRun(uploadMax, delayMax, states + later[1..], events + more)
  {
    var allStates, allEvents := states + later[1..], events + more;
    forall i {:trigger allEvents[i]} | 0 <= i < |allEvents|
      ensures Enabled(uploadMax, delayMax, allStates[i], allEvents[i])
              && allStates[i + 1] == Step(uploadMax, delayMax, allStates[i], allEvents[i])
    {
      if i < |events| { assert allEvents[i] == events[i]; } else { assert allEvents[i] == more[i - |events|]; }
    }
  }

  lemma SlowRunDangles(uploadMax: nat, delayMax: nat) returns (states: seq<State>, events: seq<Event>)
    requires uploadMax + delayMax > DAY
    ensures IsRun(uploadMax, delayMax, states, events) && !NoDangling(states[|states| - 1])
  {
    var first := SlowUploadRuns(uploadMax, delayMax);
    var later := LateCollectionDangles(uploadMax, delayMax);
    RunContinues(uploadMax, delayMax, first, SlowUpload(uploadMax), later, LateCollection(delayMax));
    states, events := first + later[1..], SlowUpload(uploadMax) + LateCollection(delayMax);
  }

  // No committed meta dangles in any interleaving of uploads, deletions and collections exactly when the
  // longest upload and the longest delay of a collector are at most one day together.
  lemma SafeIffWithinDay(uploadMax: nat, delayMax: nat)
    ensures AlwaysSafe(uploadMax, delayMax) <==> uploadMax + delayMax <= DAY
  {
    if uploadMax + delayMax <= DAY {
      forall states: seq<State>, events: seq<Event>, i: nat | IsRun(uploadMax, delayMax, states, events) && i < |states|
        ensures NoDangling(states[i])
      {
        RunKeepsInv(uploadMax, delayMax, states, events, i);
        forall g | g in states[i].metas ensures states[i].metas[g] in states[i].stored { assert MetaOk(states[i], g); }
      }
    } else {
      var states, events := SlowRunDangles(uploadMax, delayMax);
      assert !NoDangling(states[|states| - 1]);
    }
  }
}
