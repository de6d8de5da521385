// The garbage collection of files and the deletion of one file, over the links, metas and releases that decide
// what is garbage. The row of a file and its guid determine each other, so files go by guid.
module FileCollector {
  import opened Common
  import opened FileProtocol

  datatype Link = Link(gameId: nat, guid: string)

  datatype LevelFile = LevelFile(gameId: nat, levelId: nat, guid: string)

  datatype Db = Db(
    links: map<nat, Link>, levelFiles: set<LevelFile>,
    metas: map<string, string>, releases: map<nat, set<string>>)

  datatype Report = Report(links: set<nat>, guids: set<string>, stored: set<string>)

  predicate UsedByLevelOf(db: Db, gameId: nat, guid: string) {
    exists f :: f in db.levelFiles && f.gameId == gameId && f.guid == guid
  }

  predicate InReleaseOf(db: Db, gameId: nat, guid: string) {
    gameId in db.releases && guid in db.releases[gameId]
  }

  predicate Released(db: Db, guid: string) {
    exists gameId :: gameId in db.releases && guid in db.releases[gameId]
  }

  // Links of a game to a file that neither a level nor the release of that game refers to.
  function UnusedLinks(db: Db): set<nat> {
    set id | id in db.links && !UsedByLevelOf(db, db.links[id].gameId, db.links[id].guid)
  }

  function GarbageLinks(db: Db): set<nat> {
    set id | id in UnusedLinks(db) && !InReleaseOf(db, db.links[id].gameId, db.links[id].guid)
  }

  // A link other than the ignored ones, or a level, refers to the file.
  predicate Linked(db: Db, ignored: set<nat>, guid: string) {
    || (exists id :: id in db.links && id !in ignored && db.links[id].guid == guid)
    || (exists f :: f in db.levelFiles && f.guid == guid)
  }

  function Orphans(db: Db, ignored: set<nat>): set<string> {
    set g | g in db.metas && !Linked(db, ignored, g) && !Released(db, g)
  }

  // A dry run works everything out from the rows as they are.
  function DryReport(db: Db, stored: map<string, int>, now: int): Report {
    var links := GarbageLinks(db);
    var guids := Orphans(db, links);
    Report(links, guids, Garbage(stored, PathsOf(db.metas - guids), now))
  }

  function WithoutLinks(db: Db): Db {
    db.(links := db.links - GarbageLinks(db))
  }

  // A real run asks the rows it has already changed.
  function RealReport(db: Db, stored: map<string, int>, now: int): Report {
    var links := GarbageLinks(db);
    var unlinked := WithoutLinks(db);
    var guids := Orphans(unlinked, links);
    var left := unlinked.(metas := unlinked.metas - guids);
    Report(links, guids, Garbage(stored, PathsOf(left.metas - guids), now))
  }

  function CollectedDb(db: Db): Db {
    var left := WithoutLinks(db);
    left.(metas := left.metas - Orphans(left, GarbageLinks(db)))
  }

  function CollectedStore(db: Db, stored: map<string, int>, now: int): map<string, int> {
    stored - RealReport(db, stored, now).stored
  }

  lemma OrphansUnchanged(db: Db)
    ensures Orphans(WithoutLinks(db), GarbageLinks(db)) == Orphans(db, GarbageLinks(db))
  {
    var links := GarbageLinks(db);
    var left := WithoutLinks(db);
    forall g | g in db.metas ensures Linked(left, links, g) == Linked(db, links, g) {
      if id :| id in db.links && id !in links && db.links[id].guid == g {
        assert id in left.links && left.links[id].guid == g;
      }
    }
    forall g ensures Released(left, g) == Released(db, g) {}
  }

  // From the same rows, contents and clock both modes report the same.
  lemma DryRunPredicts(db: Db, stored: map<string, int>, now: int)
    ensures RealReport(db, stored, now) == DryReport(db, stored, now)
  {
    OrphansUnchanged(db);
    var guids := Orphans(db, GarbageLinks(db));
    assert db.metas - guids - guids == db.metas - guids;
  }

  // Nothing that is still referred to is collected: no link a level or the game's release needs, no file
  // that has a needed link, is used by a level or is released anywhere, no content of a meta that stays, and
  // no content written within the last day.
  lemma CollectsOnlyGarbage(db: Db, stored: map<string, int>, now: int)
    ensures var report := DryReport(db, stored, now);
            && (forall id :: id in report.links ==>
                  && id in db.links
                  && !UsedByLevelOf(db, db.links[id].gameId, db.links[id].guid)
                  && !InReleaseOf(db, db.links[id].gameId, db.links[id].guid))
            && (forall g :: g in report.guids ==>
                  && !Released(db, g)
                  && (forall f :: f in db.levelFiles ==> f.guid != g)
                  && (forall id :: id in db.links && db.links[id].guid == g ==> id in report.links))
            && (forall g :: g in db.metas && g !in report.guids ==> db.metas[g] !in report.stored)
            && (forall p :: p in report.stored ==> p in stored && stored[p] < now - DAY)
  {
    var report := DryReport(db, stored, now);
    forall g | g in report.guids
      ensures !Released(db, g) && (forall f :: f in db.levelFiles ==> f.guid != g)
      ensures forall id :: id in db.links && db.links[id].guid == g ==> id in report.links
    {
      assert !Linked(db, report.links, g);
    }
    forall g | g in db.metas && g !in report.guids ensures db.metas[g] !in report.stored {
      assert g in db.metas - report.guids && (db.metas - report.guids)[g] == db.metas[g];
    }
  }

  // A level of the link's game, or the release of that game, refers to the link's file.
  ghost predicate Needed(db: Db, link: Link) {
    || (exists f :: f in db.levelFiles && f.gameId == link.gameId && f.guid == link.guid)
    || (link.gameId in db.releases && link.guid in db.releases[link.gameId])
  }

  // A needed link of any game, a level or a release refers to the file.
  ghost predicate Referred(db: Db, guid: string) {
    || (exists id :: id in db.links && db.links[id].guid == guid && Needed(db, db.links[id]))
    || (exists f :: f in db.levelFiles && f.guid == guid)
    || (exists gameId :: gameId in db.releases && guid in db.releases[gameId])
  }

  // Exactly what is not referred to is collected: the links nothing needs, the metas nothing refers to once these
  // links are gone, and the contents older than a day that no remaining meta has.
  lemma CollectsExactlyGarbage(db: Db, stored: map<string, int>, now: int)
    ensures var report := DryReport(db, stored, now);
            && (forall id :: id in report.links <==> id in db.links && !Needed(db, db.links[id]))
            && (forall g :: g in report.guids <==> g in db.metas && !Referred(db, g))
            && (forall p :: p in report.stored <==>
                  p in stored && stored[p] < now - 86400
                  && forall g :: g in db.metas && Referred(db, g) ==> db.metas[g] != p)
  {
    var report := DryReport(db, stored, now);
    forall g ensures g in report.guids <==> g in db.metas && !Referred(db, g) { OrphanIff(db, g); }
    forall p ensures p in PathsOf(db.metas - report.guids) <==>
                       exists g :: g in db.metas && Referred(db, g) && db.metas[g] == p
    {
      if g :| g in db.metas && Referred(db, g) && db.metas[g] == p {
        assert g in db.metas - report.guids && (db.metas - report.guids)[g] == p;
      }
    }
  }

  lemma OrphanIff(db: Db, g: string)
    ensures g in Orphans(db, GarbageLinks(db)) <==> g in db.metas && !Referred(db, g)
  {
    forall id | id in db.links ensures id !in GarbageLinks(db) <==> Needed(db, db.links[id]) {}
    assert Linked(db, GarbageLinks(db), g) || Released(db, g) <==> Referred(db, g);
  }

  // And everything that is not is: what a run leaves behind a second run, with nothing in between and the
  // clock unmoved, finds nothing in.
  lemma OnePassSuffices(db: Db, stored: map<string, int>, now: int)
    ensures DryReport(CollectedDb(db), CollectedStore(db, stored, now), now) == Report({}, {}, {})
  {
    var links := GarbageLinks(db);
    var guids := Orphans(db, links);
    OrphansUnchanged(db);
    DryRunPredicts(db, stored, now);
    var left := CollectedDb(db);
    forall id | id in left.links ensures id !in GarbageLinks(left) { LinkStaysUseful(db, id); }
    assert GarbageLinks(left) == {};
    forall g | g in left.metas ensures g !in Orphans(left, {}) { MetaStaysUseful(db, g); }
    assert Orphans(left, {}) == {};
    assert left.metas - {} == left.metas == db.metas - guids;
    assert Garbage(CollectedStore(db, stored, now), PathsOf(left.metas), now) == {};
  }

  lemma LinkStaysUseful(db: Db, id: nat)
    requires id in db.links && id !in GarbageLinks(db)
    ensures id !in GarbageLinks(CollectedDb(db))
  {
    var left := CollectedDb(db);
    assert UsedByLevelOf(left, db.links[id].gameId, db.links[id].guid)
        == UsedByLevelOf(db, db.links[id].gameId, db.links[id].guid);
  }

  lemma MetaStaysUseful(db: Db, g: string)
    requires g in CollectedDb(db).metas
    ensures g !in Orphans(CollectedDb(db), {})
  {
    var links := GarbageLinks(db);
    var left := CollectedDb(db);
    OrphansUnchanged(db);
    assert Linked(db, links, g) || Released(db, g);
    if id :| id in db.links && id !in links && db.links[id].guid == g {
      assert id in left.links && left.links[id].guid == g;
      assert Linked(left, {}, g);
    } else if Released(db, g) {
      var gameId :| gameId in db.releases && g in db.releases[gameId];
      assert Released(left, g);
    } else {
      assert Linked(left, {}, g);
    }
  }

  // Rows and contents that agree still agree after a collection.
  lemma CollectionKeepsContents(db: Db, stored: map<string, int>, now: int)
    requires forall g :: g in db.metas ==> db.metas[g] in stored
    ensures forall g :: g in CollectedDb(db).metas ==>
              CollectedDb(db).metas[g] in CollectedStore(db, stored, now)
  {
    OrphansUnchanged(db);
    DryRunPredicts(db, stored, now);
    CollectsOnlyGarbage(db, stored, now);
  }

  // A collection nobody interferes with is a run of the protocol of interleaved steps: it commits the same
  // rows and sets out to delete the same contents as were reported.
  lemma CollectionFollowsProtocol(db: Db, st: State, uploadMax: nat, delayMax: nat, id: nat)
    requires st.metas == db.metas && id !in st.collectors
    ensures var orphans := Orphans(db, GarbageLinks(db));
            var found := Step(uploadMax, delayMax, st, FindOrphans(id, orphans));
            var snapped := Step(uploadMax, delayMax, found, SnapshotPaths(id));
            var listed := Step(uploadMax, delayMax, snapped, ListStorage(id));
            var committed := Step(uploadMax, delayMax, listed, CommitCollection(id));
            && committed.metas == CollectedDb(db).metas
            && committed.collectors[id] == Committed(DryReport(db, st.stored, st.clock).stored)
  {
    OrphansUnchanged(db);
  }

  // ----- Deletions and uploads nobody interferes with, as runs of that protocol -----

  lemma UploadFollowsProtocol(st: State, uploadMax: nat, delayMax: nat, id: nat, guid: string, path: string)
    requires id !in st.uploads && path !in st.used
    ensures var put := Step(uploadMax, delayMax, st, Put(id, guid, path));
            var committed := Step(uploadMax, delayMax, put, CommitUpload(id));
            && committed.metas == st.metas[guid := path] && committed.stored == st.stored[path := st.clock]
            && committed.uploads == st.uploads && committed.collectors == st.collectors
            && committed.deletions == st.deletions
  {
    assert st.uploads[id := Upload(guid, path, st.clock)] - {id} == st.uploads;
  }

  // A meta goes at once; its content goes with it unless another meta has the path.
  lemma DeletionFollowsProtocol(st: State, uploadMax: nat, delayMax: nat, id: nat, guid: string)
    requires id !in st.deletions && guid in st.metas
    ensures var gone := Step(uploadMax, delayMax, st, DeleteMeta(id, guid));
            && gone.metas == st.metas - {guid} && gone.stored == st.stored
            && if exists g :: g in st.metas && g != guid && st.metas[g] == st.metas[guid]
               then gone.deletions == st.deletions
               else
                 var done := Step(uploadMax, delayMax, gone, DeleteContent(id));
                 done.metas == gone.metas && done.stored == st.stored - {st.metas[guid]}
                 && done.deletions == st.deletions
  {
    var left := st.metas - {guid};
    if g :| g in st.metas && g != guid && st.metas[g] == st.metas[guid] {
      assert g in left && left[g] == st.metas[guid];
    } else {
      assert st.metas[guid] !in PathsOf(left);
      assert st.deletions[id := st.metas[guid]] - {id} == st.deletions;
    }
  }

  // ----- Deleting one file of a game -----

  datatype Error = FileNotFound | FileIsUsed

  function LinksOf(db: Db, gameId: nat, guid: string): set<nat> {
    set id | id in db.links && db.links[id] == Link(gameId, guid)
  }

  function DeleteError(db: Db, gameId: nat, guid: string): Option<Error> {
    if guid !in db.metas || LinksOf(db, gameId, guid) == {} then Some(FileNotFound)
    else if InReleaseOf(db, gameId, guid) || UsedByLevelOf(db, gameId, guid) then Some(FileIsUsed)
    else None
  }

  function Unlinked(db: Db, gameId: nat, guid: string): Db {
    db.(links := db.links - LinksOf(db, gameId, guid))
  }

  // The meta goes with the last thing that refers to the file, its content with the last meta of the path.
  function DeletedDb(db: Db, gameId: nat, guid: string): Db {
    var left := Unlinked(db, gameId, guid);
    if Linked(left, {}, guid) || Released(left, guid) then left else left.(metas := left.metas - {guid})
  }

  function DeletedStore(db: Db, stored: map<string, int>, gameId: nat, guid: string): map<string, int>
    requires guid in db.metas
  {
    var left := DeletedDb(db, gameId, guid);
    if guid in left.metas || db.metas[guid] in PathsOf(left.metas) then stored else stored - {db.metas[guid]}
  }

  // After a deletion no content is missing, and the file is there exactly if something still refers to it.
  lemma DeletionKeepsContents(db: Db, stored: map<string, int>, gameId: nat, guid: string)
    requires DeleteError(db, gameId, guid) == None
    requires forall g :: g in db.metas ==> db.metas[g] in stored
    ensures var left := DeletedDb(db, gameId, guid);
            && (forall g :: g in left.metas ==> left.metas[g] in DeletedStore(db, stored, gameId, guid))
            && (guid in left.metas <==> Linked(left, {}, guid) || Released(left, guid))
            && LinksOf(left, gameId, guid) == {}
            && left.metas.Keys + {guid} == db.metas.Keys
  {
    var left := DeletedDb(db, gameId, guid);
    var unlinked := Unlinked(db, gameId, guid);
    assert Linked(left, {}, guid) == Linked(unlinked, {}, guid);
    assert Released(left, guid) == Released(unlinked, guid);
    forall g | g in left.metas ensures left.metas[g] in DeletedStore(db, stored, gameId, guid) {
      assert left.metas[g] in PathsOf(left.metas);
    }
  }

  // What a deletion says and does. It fails for a file without a meta or without a link to the game, and for one
  // that the game's release or one of its levels uses. Else the links of the game to the file go; the meta goes
  // when no other link, no level and no release refers to it, and the content when no other meta has its path.
  ghost predicate DeletionIs(
    db: Db, stored: map<string, int>, gameId: nat, guid: string, error: Option<Error>,
    db': Db, stored': map<string, int>) {
    var link := Link(gameId, guid);
    if guid !in db.metas || (forall id :: id in db.links ==> db.links[id] != link) then
      error == Some(FileNotFound) && db' == db && stored' == stored
    else if Needed(db, link) then
      error == Some(FileIsUsed) && db' == db && stored' == stored
    else
      && error == None && db'.levelFiles == db.levelFiles && db'.releases == db.releases
      && (forall id :: id in db'.links <==> id in db.links && db.links[id] != link)
      && (forall id :: id in db'.links ==> db'.links[id] == db.links[id])
      && var kept := (exists id :: id in db'.links && db'.links[id].guid == guid)
                     || (exists f :: f in db.levelFiles && f.guid == guid)
                     || (exists game :: game in db.releases && guid in db.releases[game]);
         && db'.metas == (if kept then db.metas else db.metas - {guid})
         && stored' == if kept || exists g :: g in db.metas && g != guid && db.metas[g] == db.metas[guid] then stored
                       else stored - {db.metas[guid]}
  }

  lemma DeletionLaw(db: Db, stored: map<string, int>, gameId: nat, guid: string)
    ensures var error := DeleteError(db, gameId, guid);
            if error.Some? then DeletionIs(db, stored, gameId, guid, error, db, stored)
            else DeletionIs(db, stored, gameId, guid, error, DeletedDb(db, gameId, guid),
                            DeletedStore(db, stored, gameId, guid))
  {
    forall id ensures id in LinksOf(db, gameId, guid) <==> id in db.links && db.links[id] == Link(gameId, guid) {}
    if LinksOf(db, gameId, guid) != {} {
      var id :| id in LinksOf(db, gameId, guid);
    }
    if DeleteError(db, gameId, guid).None? { DeletionRest(db, stored, gameId, guid); }
  }

  lemma DeletionRest(db: Db, stored: map<string, int>, gameId: nat, guid: string)
    requires DeleteError(db, gameId, guid).None?
    ensures var db' := DeletedDb(db, gameId, guid);
            && db'.links == db.links - LinksOf(db, gameId, guid)
            && db'.levelFiles == db.levelFiles && db'.releases == db.releases
            && var kept := Linked(db', {}, guid) || Released(db, guid);
               && db'.metas == (if kept then db.metas else db.metas - {guid})
               && DeletedStore(db, stored, gameId, guid)
                  == if kept || exists g :: g in db.metas && g != guid && db.metas[g] == db.metas[guid] then stored
                     else stored - {db.metas[guid]}
  {
    var unlinked, db' := Unlinked(db, gameId, guid), DeletedDb(db, gameId, guid);
    assert Linked(db', {}, guid) == Linked(unlinked, {}, guid) && Released(unlinked, guid) == Released(db, guid);
    if guid !in db'.metas {
      if g :| g in db.metas && g != guid && db.metas[g] == db.metas[guid] {
        assert g in db'.metas && db'.metas[g] == db.metas[guid];
      } else {
        assert db.metas[guid] !in PathsOf(db'.metas);
      }
    }
  }

  // ----- The interactors -----

  class FileRegistry {
    var links: map<nat, Link>
    var levelFiles: set<LevelFile>
    var metas: map<string, string>
    var releases: map<nat, set<string>>
    var stored: map<string, int>

    function Rows(): Db
      reads this
    {
      Db(links, levelFiles, metas, releases)
    }

    constructor ()
      ensures Rows() == Db(map[], {}, map[], map[]) && stored == map[]
    {
      links, levelFiles, metas, releases, stored := map[], {}, map[], map[], map[];
    }

    // The rows go first, the contents last. A dry run reports what a real run would and changes nothing.
    method Collect(now: int, dryRun: bool) returns (report: Report)
      modifies this
      ensures report == DryReport(old(Rows()), old(stored), now)
      ensures dryRun ==> Rows() == old(Rows()) && stored == old(stored)
      ensures !dryRun ==> Rows() == CollectedDb(old(Rows()))
      ensures !dryRun ==> stored == CollectedStore(old(Rows()), old(stored), now)
      ensures !dryRun ==>
                && links == old(links) - report.links && metas == old(metas) - report.guids
                && stored == old(stored) - report.stored
                && levelFiles == old(levelFiles) && releases == old(releases)
    {
      ghost var before := Rows();
      DryRunPredicts(before, stored, now);
      OrphansUnchanged(before);
      var garbageLinks := GarbageLinks(Rows());
      if garbageLinks != {} && !dryRun {
        links := links - garbageLinks;
      }
      assert dryRun || links == before.links - garbageLinks;
      var orphans := Orphans(Rows(), garbageLinks);
      assert orphans == Orphans(before, garbageLinks);
      if orphans != {} && !dryRun {
        metas := metas - orphans;
      }
      var alive := PopAll(metas, orphans);
      assert before.metas - orphans - orphans == before.metas - orphans;
      var garbage := Garbage(stored, PathsOf(alive), now);
      if !dryRun {
        DeleteContents(garbage);
      }
      report := Report(garbageLinks, orphans, garbage);
    }

    // The paths of the metas that stay, those of the orphans taken out one by one.
    method PopAll(pathsByGuid: map<string, string>, orphans: set<string>) returns (alive: map<string, string>)
      ensures alive == pathsByGuid - orphans
    {
      alive := pathsByGuid;
      var rest := orphans;
      while rest != {}
        invariant rest <= orphans
        invariant alive == pathsByGuid - (orphans - rest)
        decreases rest
      {
        var guid :| guid in rest;
        alive := alive - {guid};
        rest := rest - {guid};
      }
    }

    method DeleteContents(garbage: set<string>)
      modifies `stored
      ensures stored == old(stored) - garbage
    {
      var rest := garbage;
      while rest != {}
        invariant rest <= garbage
        invariant stored == old(stored) - (garbage - rest)
        decreases rest
      {
        var path :| path in rest;
        stored := stored - {path};
        rest := rest - {path};
      }
    }

    method DeleteGameFile(gameId: nat, guid: string) returns (error: Option<Error>)
      modifies this
      ensures error == DeleteError(old(Rows()), gameId, guid)
      ensures error.Some? ==> Rows() == old(Rows()) && stored == old(stored)
      ensures error.None? ==> Rows() == DeletedDb(old(Rows()), gameId, guid)
      ensures error.None? ==> stored == DeletedStore(old(Rows()), old(stored), gameId, guid)
      ensures DeletionIs(old(Rows()), old(stored), gameId, guid, error, Rows(), stored)
    {
      DeletionLaw(Rows(), stored, gameId, guid);
      var gameLinks := LinksOf(Rows(), gameId, guid);
      if guid !in metas || gameLinks == {} { return Some(FileNotFound); }
      var path := metas[guid];
      if InReleaseOf(Rows(), gameId, guid) { return Some(FileIsUsed); }
      if UsedByLevelOf(Rows(), gameId, guid) { return Some(FileIsUsed); }
      links := links - gameLinks;
      error := None;
      if Linked(Rows(), {}, guid) || Released(Rows(), guid) { return; }
      metas := metas - {guid};
      if path in PathsOf(metas) { return; }
      stored := stored - {path};
    }

    // The content first, then the row and its link to the game.
    method UploadGameFile(gameId: nat, linkId: nat, guid: string, path: string, now: int)
      requires guid !in metas && linkId !in links && path !in stored
      modifies this
      ensures stored == old(stored)[path := now]
      ensures Rows()
          == old(Rows()).(metas := old(metas)[guid := path], links := old(links)[linkId := Link(gameId, guid)])
    {
      stored := stored[path := now];
      metas := metas[guid := path];
      links := links[linkId := Link(gameId, guid)];
    }
  }
}
