// What the digest says about the game, the owner and the organizers of a date when a window closes, and when
// that is right.
module SeasonWords {
  import opened Common
  import opened SeasonDigest
  import opened SeasonSchedule
  import opened SeasonWindow

  // The edit the last event of the run makes to the date.
  ghost function LastEdit(st: State, events: seq<Event>, id: nat): Option<Edit>
    requires events != []
  {
    EditOf(Before(st, events), events[|events| - 1], id)
  }

  // ----- The game -----

  // The line says that the game was unlinked, or names the game, or is silent because the game is the same.
  ghost predicate GameTold(start: Slot, now: Slot, d: Digest) {
    if d.gameUnlinked then start.game.Some? && now.game.None?
    else if d.game.Some? then now.game.Some? && d.game == Some(now.game.value.name)
    else now.game == start.game
  }

  ghost predicate EverLinked(st: State, events: seq<Event>, id: nat) {
    && events != []
    && var last := LastEdit(st, events, id);
       EverLinked(st, events[..|events| - 1], id) || (last.Some? && last.value.Link?)
  }

  ghost predicate GameSays(start: Slot, now: Slot, d: Digest, linked: bool) {
    if linked || start.game.None? then
      GameWords(now, d) && (!linked ==> now.game.None?)
    else
      d.game.None? && (d.gameUnlinked <==> now.game.None?) && (now.game.Some? ==> now.game == start.game)
  }

  lemma EditKeepsGameSays(start: Slot, slot: Slot, d: Digest, linked: bool, edit: Edit)
    requires GameSays(start, slot, d, linked)
    ensures var (slot', drafts) := Edited(slot, edit);
            GameSays(start, slot', AppliedDrafts(d, drafts), linked || edit.Link?)
  {
    DraftsByHand(d, Edited(slot, edit).1);
  }

  lemma {:induction false} WindowKeepsGameSays(st: State, events: seq<Event>, id: nat)
    requires Safe(st) && id in st.slots && id in Run(st, events).slots
    requires WithinWindow(st.slots[id].year, events)
    requires Unpublished(st.rows, st.slots[id].year) == []
    ensures Run(st, events).slots[id].year == st.slots[id].year
    ensures GameSays(st.slots[id], Run(st, events).slots[id], WindowDigest(Run(st, events), st.slots[id].year, id),
                     EverLinked(st, events, id))
  {
    if events != [] {
      SurvivorWasThereBefore(st, events, id);
      WindowKeepsGameSays(st, events[..|events| - 1], id);
      var before := Before(st, events);
      StepFolds(before, events[|events| - 1], id);
      if LastEdit(st, events, id).Some? {
        EditKeepsGameSays(st.slots[id], before.slots[id], WindowDigest(before, st.slots[id].year, id),
                          EverLinked(st, events[..|events| - 1], id), LastEdit(st, events, id).value);
      }
    }
  }

  // The line is right about the game exactly when the date did not lose the game it began with after a link
  // made in the same window.
  lemma GameToldIff(st: State, events: seq<Event>, id: nat)
    requires Safe(st) && id in st.slots && id in Run(st, events).slots
    requires WithinWindow(st.slots[id].year, events)
    requires Unpublished(st.rows, st.slots[id].year) == []
    ensures var start, end := st.slots[id], Run(st, events).slots[id];
            GameTold(start, end, WindowDigest(Run(st, events), start.year, id))
            <==> !(EverLinked(st, events, id) && start.game.Some? && end.game.None?)
  {
    WindowKeepsGameSays(st, events, id);
  }

  // ----- The owner -----

  // The line says that the date was released, or names the owner, or is silent because the owner is the same.
  ghost predicate OwnerTold(start: Slot, now: Slot, d: Digest) {
    if d.released then start.owner.Some? && now.owner.None?
    else if d.owner.Some? then d.owner == now.owner
    else now.owner == start.owner
  }

  // The last sign-up or release of the date is a sign-up.
  ghost predicate SignedUp(st: State, events: seq<Event>, id: nat) {
    && events != []
    && match LastEdit(st, events, id)
       case Some(Take(_, _)) => true
       case Some(Release) => false
       case _ => SignedUp(st, events[..|events| - 1], id)
  }

  // The last sign-up or release of the date is a release that no sign-up of the window came before.
  ghost predicate FreedOutright(st: State, events: seq<Event>, id: nat) {
    && events != []
    && match LastEdit(st, events, id)
       case Some(Take(_, _)) => false
       case Some(Release) => !SignedUp(st, events[..|events| - 1], id)
       case _ => FreedOutright(st, events[..|events| - 1], id)
  }

  // What decides is the last edit that bears on the owner: a sign-up shown and recorded under one name; a
  // release that undoes a sign-up of a date that began free, or frees a date that began held; a link of a free
  // date that gives it back, unannounced, to the owner it began with.
  ghost predicate OwnerSettled(st: State, events: seq<Event>, id: nat)
    requires id in st.slots
  {
    if events == [] then true
    else
      var earlier := events[..|events| - 1];
      match LastEdit(st, events, id)
      case Some(Take(author, _)) => RecordedName(author) == DisplayedName(author)
      case Some(Release) => SignedUp(st, earlier, id) <==> st.slots[id].owner.None?
      case Some(Link(game)) =>
        if id in Before(st, events).slots && Before(st, events).slots[id].owner.None?
        then st.slots[id].owner == Some(game.author) && !FreedOutright(st, earlier, id)
        else OwnerSettled(st, earlier, id)
      case _ => OwnerSettled(st, earlier, id)
  }

  ghost predicate OwnerSays(now: Slot, d: Digest, signedUp: bool, freed: bool) {
    && (d.owner.Some? <==> signedUp) && (d.released <==> freed)
    && (freed ==> !signedUp) && (now.owner.None? ==> !signedUp)
  }

  lemma EditKeepsOwnerSays(slot: Slot, d: Digest, signedUp: bool, freed: bool, edit: Edit)
    requires OwnerSays(slot, d, signedUp, freed)
    ensures var (slot', drafts) := Edited(slot, edit);
            OwnerSays(slot', AppliedDrafts(d, drafts), edit.Take? || (!edit.Release? && signedUp),
                      if edit.Take? then false else if edit.Release? then !signedUp else freed)
  {
    DraftsByHand(d, Edited(slot, edit).1);
  }

  lemma EditTellsOwnerIff(start: Slot, slot: Slot, d: Digest, signedUp: bool, freed: bool, edit: Edit)
    requires OwnerSays(slot, d, signedUp, freed)
    ensures var (slot', drafts) := Edited(slot, edit);
            OwnerTold(start, slot', AppliedDrafts(d, drafts)) <==>
            match edit
            case Take(author, _) => RecordedName(author) == DisplayedName(author)
            case Release => signedUp <==> start.owner.None?
            case Link(game) =>
              if slot.owner.None? then start.owner == Some(game.author) && !freed else OwnerTold(start, slot, d)
            case _ => OwnerTold(start, slot, d)
  {
    DraftsByHand(d, Edited(slot, edit).1);
  }

  lemma {:induction false} WindowKeepsOwnerSays(st: State, events: seq<Event>, id: nat)
    requires Safe(st) && id in st.slots && id in Run(st, events).slots
    requires WithinWindow(st.slots[id].year, events)
    requires Unpublished(st.rows, st.slots[id].year) == []
    ensures Run(st, events).slots[id].year == st.slots[id].year
    ensures OwnerSays(Run(st, events).slots[id], WindowDigest(Run(st, events), st.slots[id].year, id),
                      SignedUp(st, events, id), FreedOutright(st, events, id))
  {
    if events != [] {
      SurvivorWasThereBefore(st, events, id);
      var earlier, before := events[..|events| - 1], Before(st, events);
      WindowKeepsOwnerSays(st, earlier, id);
      StepFolds(before, events[|events| - 1], id);
      if LastEdit(st, events, id).Some? {
        EditKeepsOwnerSays(before.slots[id], WindowDigest(before, st.slots[id].year, id),
                           SignedUp(st, earlier, id), FreedOutright(st, earlier, id), LastEdit(st, events, id).value);
      }
    }
  }

  // The line is right about the owner exactly when the last edit that bears on the owner was told.
  lemma {:induction false} OwnerToldIff(st: State, events: seq<Event>, id: nat)
    requires Safe(st) && id in st.slots && id in Run(st, events).slots
    requires WithinWindow(st.slots[id].year, events)
    requires Unpublished(st.rows, st.slots[id].year) == []
    ensures Run(st, events).slots[id].year == st.slots[id].year
    ensures OwnerTold(st.slots[id], Run(st, events).slots[id], WindowDigest(Run(st, events), st.slots[id].year, id))
            <==> OwnerSettled(st, events, id)
  {
    if events != [] {
      SurvivorWasThereBefore(st, events, id);
      var earlier, before := events[..|events| - 1], Before(st, events);
      OwnerToldIff(st, earlier, id);
      WindowKeepsOwnerSays(st, earlier, id);
      StepFolds(before, events[|events| - 1], id);
      if LastEdit(st, events, id).Some? {
        EditTellsOwnerIff(st.slots[id], before.slots[id], WindowDigest(before, st.slots[id].year, id),
                          SignedUp(st, earlier, id), FreedOutright(st, earlier, id), LastEdit(st, events, id).value);
      }
    }
  }

  // ----- The organizers -----

  // The list the last hand-made change of organizers in the window set.
  ghost function SetByHand(st: State, events: seq<Event>, id: nat): Option<seq<string>> {
    if events == [] then None
    else
      match LastEdit(st, events, id)
      case Some(SetOrgs(orgs)) => Some(orgs)
      case _ => SetByHand(st, events[..|events| - 1], id)
  }

  // The first such change found the organizers the date began with.
  ghost predicate FoundAsBegun(st: State, events: seq<Event>, id: nat)
    requires id in st.slots
  {
    && events != []
    && var earlier := events[..|events| - 1];
       if LastEdit(st, events, id).Some? && LastEdit(st, events, id).value.SetOrgs? && SetByHand(st, earlier, id).None?
       then id in Before(st, events).slots && Before(st, events).slots[id].orgs == st.slots[id].orgs
       else FoundAsBegun(st, earlier, id)
  }

  // What decides is the last edit that sets the organizers: one by hand, when the first by hand found them as
  // they began; a sign-up or a release that leaves them as the last change by hand, or, without one, as they began.
  ghost predicate OrgsSettled(st: State, events: seq<Event>, id: nat)
    requires id in st.slots
  {
    if events == [] then true
    else
      var earlier := events[..|events| - 1];
      match LastEdit(st, events, id)
      case Some(SetOrgs(_)) => FoundAsBegun(st, events, id)
      case Some(Take(_, orgs)) => LeftAs(st, earlier, id, orgs)
      case Some(Release) => LeftAs(st, earlier, id, [])
      case _ => OrgsSettled(st, earlier, id)
  }

  ghost predicate LeftAs(st: State, events: seq<Event>, id: nat, orgs: seq<string>)
    requires id in st.slots
  {
    if SetByHand(st, events, id).Some? then SetByHand(st, events, id) == Some(orgs) && FoundAsBegun(st, events, id)
    else orgs == st.slots[id].orgs
  }

  ghost predicate OrgsSay(start: Slot, d: Digest, byHand: Option<seq<string>>, found: bool) {
    && (d.orgsChanged <==> byHand.Some?)
    && (d.orgsChanged ==> byHand == Some(d.orgs) && (found <==> d.orgsBefore == start.orgs))
    && (found ==> byHand.Some?)
  }

  lemma EditKeepsOrgsSay(
    start: Slot, slot: Slot, d: Digest, byHand: Option<seq<string>>, found: bool, edit: Edit)
    requires OrgsSay(start, d, byHand, found)
    ensures var (slot', drafts) := Edited(slot, edit);
            OrgsSay(start, AppliedDrafts(d, drafts), if edit.SetOrgs? then Some(edit.orgs) else byHand,
                    if edit.SetOrgs? && byHand.None? then slot.orgs == start.orgs else found)
  {
    DraftsByHand(d, Edited(slot, edit).1);
  }

  lemma EditTellsOrgsIff(
    start: Slot, slot: Slot, d: Digest, byHand: Option<seq<string>>, found: bool, edit: Edit)
    requires OrgsSay(start, d, byHand, found)
    ensures var (slot', drafts) := Edited(slot, edit);
            var left := (orgs: seq<string>) =>
              if byHand.Some? then byHand == Some(orgs) && found else orgs == start.orgs;
            OrgsWords(start, slot', AppliedDrafts(d, drafts)) <==>
            match edit
            case SetOrgs(_) => if byHand.None? then slot.orgs == start.orgs else found
            case Take(_, orgs) => left(orgs)
            case Release => left([])
            case _ => OrgsWords(start, slot, d)
  {
    DraftsByHand(d, Edited(slot, edit).1);
  }

  lemma {:induction false} WindowKeepsOrgsSay(st: State, events: seq<Event>, id: nat)
    requires Safe(st) && id in st.slots && id in Run(st, events).slots
    requires WithinWindow(st.slots[id].year, events)
    requires Unpublished(st.rows, st.slots[id].year) == []
    ensures Run(st, events).slots[id].year == st.slots[id].year
    ensures OrgsSay(st.slots[id], WindowDigest(Run(st, events), st.slots[id].year, id),
                    SetByHand(st, events, id), FoundAsBegun(st, events, id))
  {
    if events != [] {
      SurvivorWasThereBefore(st, events, id);
      var earlier, before := events[..|events| - 1], Before(st, events);
      WindowKeepsOrgsSay(st, earlier, id);
      StepFolds(before, events[|events| - 1], id);
      if LastEdit(st, events, id).Some? {
        EditKeepsOrgsSay(st.slots[id], before.slots[id], WindowDigest(before, st.slots[id].year, id),
                         SetByHand(st, earlier, id), FoundAsBegun(st, earlier, id), LastEdit(st, events, id).value);
      }
    }
  }

  // The line is right about the organizers exactly when the last edit that set them was told.
  lemma {:induction false} OrgsToldIff(st: State, events: seq<Event>, id: nat)
    requires Safe(st) && id in st.slots && id in Run(st, events).slots
    requires WithinWindow(st.slots[id].year, events)
    requires Unpublished(st.rows, st.slots[id].year) == []
    ensures Run(st, events).slots[id].year == st.slots[id].year
    ensures OrgsWords(st.slots[id], Run(st, events).slots[id], WindowDigest(Run(st, events), st.slots[id].year, id))
            <==> OrgsSettled(st, events, id)
  {
    if events != [] {
      SurvivorWasThereBefore(st, events, id);
      var earlier, before := events[..|events| - 1], Before(st, events);
      OrgsToldIff(st, earlier, id);
      WindowKeepsOrgsSay(st, earlier, id);
      StepFolds(before, events[|events| - 1], id);
      if LastEdit(st, events, id).Some? {
        EditTellsOrgsIff(st.slots[id], before.slots[id], WindowDigest(before, st.slots[id].year, id),
                         SetByHand(st, earlier, id), FoundAsBegun(st, earlier, id), LastEdit(st, events, id).value);
      }
    }
  }
}
