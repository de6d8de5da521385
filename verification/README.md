# A verified model of the Shvatka game engine

Shvatka is an engine for urban night games: teams walk through levels, get hints on schedule, and their
results are tabulated; around the games there are seasons, files, players and printed keys. This project
models seven of its parts in Dafny and proves what they promise, or exactly when they keep it.

| files | part of the engine |
|---|---|
| `KeysText.dfy`, `KeysPages.dfy`, `KeysLaws.dfy` | the printed sheet of keys: wrapping, fonts, captions, rectangles |
| `SeasonDigest.dfy`, `SeasonSchedule.dfy`, `SeasonWindow.dfy`, `SeasonWords.dfy`, `SeasonLives.dfy`, `SeasonLaws.dfy`, `SeasonService.dfy` | the season schedule, its audit rows, and the daily digest folded from them |
| `GamePlay.dfy`, `GameRuns.dfy`, `GameChain.dfy`, `GameTimers.dfy`, `GameLaws.dfy`, `GameService.dfy` | the running game: level times, hint jobs, timers, the end |
| `FileProtocol.dfy`, `FileCollector.dfy` | uploads, deletions and garbage collection of files |
| `TeamHistory.dfy` | merging the team histories of two accounts |
| `Results.dfy`, `ResultsTable.dfy`, `TableIntegrity.dfy`, `TableContents.dfy` | the results of a game and their table |
| `InlineData.dfy` | packing and unpacking of inline data |
| `Common.dfy` | optional values, and the stable sort with its laws |

`dafny verify dfyconfig.toml` checks everything. Nothing was executed.

## How it is built

Pure code is modelled by functions. Code that changes things is modelled by classes and methods with the
same fields, loops and order of writes, each proved equal to a function on values; the laws are then proved
about that function, over all inputs or all sequences of steps. A part that several calls share is a state
machine (`Step`, `Run`), and its invariants hold for every reachable state. The modules whose names end in
`Laws`, and `TableContents`, say what each operation does in plain terms, without the functions that model it.

Assumptions, part by part:

- Printed keys: the measure is non-negative, linear in the font size and monotone on substrings; an ellipsis
  with the date fits the sheet at the smallest font where a caption may be cut; arithmetic is exact.
- Season: one call is one atomic step and the clock does not go back, so that rows are in the order of their
  ids; dates are whole numbers (year times 366 plus day of the year); a game keeps its name.
- Game: one call is one atomic step. In the engine the lock of a team ends at `shvatka/core/services/key.py:97`
  and the commit is at `shvatka/core/games/interactors.py:354`, so between the two another call could read old
  rows. The verdict on a key is an arbitrary input. A verdict with effects is never a duplicate
  (`shvatka/core/services/key.py:79` does not look, `shvatka/core/games/interactors.py:345` does). A key of a team that is
  done moves nobody, because such a team is on no level (`shvatka/infrastructure/db/dao/rdb/level.py:190-202`); only the
  timers look at this themselves (`shvatka/core/services/key.py:169`). Of two level times of a team that
  start at the same instant the newer row counts; the query (`shvatka/infrastructure/db/dao/rdb/level_times.py:62-72`)
  orders by the start alone and leaves such a tie to the database. Jobs may fire late but are not lost by the
  scheduler.
- Files: a guid names one row; an upload writes its content before it commits its row; contents get fresh paths.
- Histories: stored histories are in order of joining (`shvatka/infrastructure/db/dao/rdb/team_player.py:233-240`) and
  nobody leaves a team before joining it; the time zone is a constant offset.
- Results: a bonus is a whole number of microseconds; the order of the teams in the table is arbitrary, so
  what is proved holds for the order the engine sorts them in.

Where the engine does not do what one would expect, the model follows the engine, and a lemma below shows it:

- a removal followed by an addition and another removal on the same date is forgotten (`RealRemovalForgotten`);
- two slots that come and go on one day at the same time are told as a removal (`InterleavedLifecyclesReported`);
- a slot that comes and goes in one window, on days no other slot is on, is announced exactly if it ever moved
  (`LifeIsSilentIff`): twice if it ended on another day than it began (`AddMoveRemoveToldTwice`), and as moved to
  every day in between (`MovedBackTold`);
- a slot taken implicitly by a link is announced as released when it is given up (`SilentTakeToldAsRelease`);
- a sign-up of a player who also names a team is announced under the team (`SignUpToldUnderTeam`);
- organizers that a sign-up has replaced are still announced (`ReplacedOrgsTold`);
- a held slot that is taken over and then released is not announced as released (`TakeoverHidesRelease`), and a
  linked one that loses its game, gets another and loses that is not announced as unlinked (`OtherGameHidesLoss`);
- a scheduler that wakes early starts the game ahead of the clock, and a team that moves before that start is
  shown its puzzle a second time (`EarlyKeyShowsPuzzleTwice`);
- a level name is looked up among all levels of the author and may lead past the finish (`NameLeadsPastFinish`);
- a timer that names an unknown level can lose its job without being applied (`UnknownNameLosesTimer`);
- a merge can drop time in a team (`ReturnIsLost`, `GapIsLost`) or give it to another one (`OtherTeamTakesTime`);
- a membership split in two is refused against a waiver window it covers (`SplitMembershipRefused`);
- a long upload can be collected as garbage before it is committed (`SlowRunDangles`);
- a bonus on the finish has no cell of its own, for the total is written over it (`FinishShowsTotal`, `BonusShownIff`).

## Model

| member | source | states |
|---|---|---|
| `KeysText.WrapKey` | shvatka/infrastructure/printer/keys_layout.py:216-226 | The character-by-character loop produces the greedy lines `Wrap`, whose properties are the next three rows. |
| `KeysText.WrapLossless` | shvatka/infrastructure/printer/keys_layout.py:216-226 | The lines put together are the key, and no line is empty. |
| `KeysText.WrapFits` | shvatka/infrastructure/printer/keys_layout.py:216-226 | Every line fits the width as soon as every single character does. |
| `KeysText.WrapOptimal` | shvatka/infrastructure/printer/keys_layout.py:216-226 | No other way of cutting the key into pieces that fit has fewer lines, for a measure monotone on substrings. |
| `KeysLaws.WrapIsGreedy` | shvatka/infrastructure/printer/keys_layout.py:216-226 | Every line but the last is closed because the next character did not fit, and every character after the first of a line was added because it did. |
| `KeysText.FittingFontFits` | shvatka/infrastructure/printer/keys_layout.py:242-246 | At its fitting font a text is never wider than its room, and a text that had room at the smallest size is not printed smaller than that. |
| `KeysLaws.FittingFontIsLargest` | shvatka/infrastructure/printer/keys_layout.py:242-246 | It is the largest size up to the limit at which the text fits. |
| `KeysText.Caption` | shvatka/infrastructure/printer/keys_layout.py:228-237 | The font choice and the truncation loop end with the font and the name that the next rows describe; the loop has a lexicographic variant (length, not yet ending in an ellipsis). |
| `KeysText.CaptionLoopEndsIff` | shvatka/infrastructure/printer/keys_layout.py:231-236 | The truncation loop leaves its guard after finitely many turns if and only if the caption fits or a bare ellipsis fits; otherwise the name sticks at a bare ellipsis. |
| `KeysText.CaptionIsBestCut` | shvatka/infrastructure/printer/keys_layout.py:228-237 | What the loop leaves is the name itself when it fits, else its longest proper prefix that fits with an ellipsis, and what it leaves fits. |
| `KeysText.CaptionFontFits` | shvatka/infrastructure/printer/keys_layout.py:228-240 | The font never exceeds the nominal one, its computation never divides by zero, and above the smallest font the whole caption fits, so that only a caption at the smallest font is ever cut. |
| `KeysLaws.CaptionFontIsLargest` | shvatka/infrastructure/printer/keys_layout.py:228-237 | It is the largest size from 6 up to 10 at which the caption fits, or 6 when it fits at none. |
| `KeysText.FittingCaptionNeverCut` | shvatka/infrastructure/printer/keys_layout.py:114-121 | A caption that fits at the smallest font, which is what a column count above one guarantees, is never cut. |
| `KeysText.CaptionFitsInRoom` | shvatka/infrastructure/printer/keys_layout.py:228-240 | With room for an ellipsis and the date at the smallest font the loop ends and the caption it leaves fits. |
| `KeysPages.SplitByLength` | shvatka/infrastructure/printer/keys_layout.py:75-81 | The loop puts each key that fits the sheet at the smallest font into the ordinary list and every other key into the long list, each in order. |
| `KeysPages.SplitConserves` | shvatka/infrastructure/printer/keys_layout.py:75-81 | As multisets the two lists make up the input, and they have no key in common. |
| `KeysPages.ColumnsFrom` | shvatka/infrastructure/printer/keys_layout.py:114-121 | The column count is the largest one not above the limit in which the longest key and the caption fit, else one. |
| `KeysLaws.ColumnsAreMost` | shvatka/infrastructure/printer/keys_layout.py:114-121 | In terms of the keys: as many columns as possible, up to four, in which each of them and the caption fit the share of 190 mm less gaps and padding, else one. |
| `KeysPages.GridPrintsEachKey` | shvatka/infrastructure/printer/keys_layout.py:83-112 | Read in order, the grid pages are the ordinary keys, each repeated exactly `copies` times. |
| `KeysPages.CopiesAreMaximal` | shvatka/infrastructure/printer/keys_layout.py:83-112 | When the keys fit one page the grid is a single page, and one more copy of each would not fit on it. |
| `KeysPages.GridGeometry` | shvatka/infrastructure/printer/keys_layout.py:83-178 | On every page all slips lie inside the margins, are pairwise disjoint, contain their whole key and caption (neither bound in `fitted` clips) and use a readable font; a grid of several columns never cuts the name. |
| `KeysLaws.GridLaw` | shvatka/infrastructure/printer/keys_layout.py:83-178 | The grid slip by slip: 18 rows a page, each slip with its key in the largest size that fits up to the limit, the date, the name whole or cut as late as possible in the largest caption size, in the middle of its cell counted along the rows; the page is divided into no more rows than its slips take, and copies are as many as fit one page, else one. |
| `KeysLaws.CopiesFollow` | shvatka/infrastructure/printer/keys_layout.py:83-112 | The copies of a key follow one another, in the order of the keys. |
| `KeysPages.FittedHoldsText` | shvatka/infrastructure/printer/keys_layout.py:150-178 | A slip fitted into a rectangle that is large enough lies in it and is as large as its text. |
| `KeysPages.FindLongFont` | shvatka/infrastructure/printer/keys_layout.py:183-192 | The downward search over whole points stops at the largest font of 24, 23, ..., 12 whose block fits the page, or at 12. |
| `KeysPages.BuildLongKeyPage` | shvatka/infrastructure/printer/keys_layout.py:183-211 | The steps for one long key build the page `LongKeyPage` that the next row is about. |
| `KeysPages.LongKeyPageGood` | shvatka/infrastructure/printer/keys_layout.py:183-226 | A long key whose characters each fit the sheet at the size found for it is printed whole in the largest font from 24 down to 12 whose block fits; then all its copies together stay within the page, unclipped and disjoint; only if no font fits is one copy printed at 12, cut to the page. |
| `KeysLaws.LongKeyPageLaw` | shvatka/infrastructure/printer/keys_layout.py:183-226 | Its copies, at most four and as many as fit, lie one under the other in the middle of equal rows, each with the greedy lines of the key, the date and the name as above. |
| `KeysPages.BuildLongPages` | shvatka/infrastructure/printer/keys_layout.py:180-181 | One page for each long key, in order. |
| `KeysPages.Plan` | shvatka/infrastructure/printer/keys_layout.py:68-73 | The sheet is the grid pages of the ordinary keys followed by the pages of the long keys, with the number of copies of the grid. |
| `KeysPages.SheetPrintsEveryKey` | shvatka/infrastructure/printer/keys_layout.py:68-226 | The whole sheet: every key that fits at the smallest font is printed as often as it occurs times the number of copies, on good grid pages; every other key is never empty and, provided each of its characters fits the sheet at the size found for it, is printed whole on a good page of its own for each time it occurs. |
| `SeasonDigest.SlotDigest.Apply` | shvatka/core/season/rules.py:194-246 | Changing the digest object field by field is the step `Applied` on its value, for every kind of change. |
| `SeasonDigest.SlotDigest.Reset` | shvatka/core/season/rules.py:249-261 | Resetting forgets everything but the day and the two flags. |
| `SeasonDigest.CollapseChanges` | shvatka/core/season/rules.py:169-184 | Filling the dictionary of digests row by row gives, for every group, the fold of that group's own rows in the order they were written, without the empty ones, in the order of the list. |
| `SeasonDigest.CollapseIgnoresArrivalOrder` | shvatka/core/season/rules.py:169-184 | With distinct ids, any permutation of the rows collapses to the same digests. |
| `SeasonLaws.PublishedInOrder` | shvatka/core/season/rules.py:169-184 | In the published list days do not go back, a line without a day comes last (with those about the last day of the calendar), and of lines about one day added ones come later, then removed ones. |
| `SeasonDigest.StrangersDoNotMatter` | shvatka/core/season/rules.py:169-191 | The digest of a group does not see rows of other groups, wherever they lie between its own. |
| `SeasonDigest.RemovalSilentIff` | shvatka/core/season/rules.py:194-261 | A group that ends with a removal says nothing exactly when the last addition or removal before it was an addition; else it says that a date was removed. |
| `SeasonDigest.LifecycleIsSilent` | shvatka/core/season/rules.py:194-261 | Whatever came before on that date, a date added, edited and removed inside the window leaves no digest. |
| `SeasonDigest.RealRemovalForgotten` | shvatka/core/season/rules.py:194-261 | Removed, added and removed again also collapses to nothing, so a removal that had to be told is lost. |
| `SeasonDigest.InterleavedLifecyclesReported` | shvatka/core/season/rules.py:187-261 | Two dates that came and went on one day at the same time are reported as a removal. |
| `SeasonDigest.AddMoveRemoveSplits` | shvatka/core/season/rules.py:187-246 | Of any three rows that add, move and remove a date, the first in a group of its own, one digest says added and one says removed. |
| `SeasonSchedule.StepKeepsSafe` | shvatka/core/season/interactors.py:72-525 | Every step, also a refused one, keeps: a linked slot has an owner, a game sits in at most one slot of all seasons, ids are unused ones, audit rows are in writing order. |
| `SeasonSchedule.RunKeepsSafe` | shvatka/core/season/interactors.py:72-525 | So these hold in every schedule any sequence of steps can reach. |
| `SeasonSchedule.LinkIsGentle` | shvatka/core/season/interactors.py:385-456 | Linking never replaces another game, keeps an owner that was there, makes the slot the only one with that game, and leaves it on the day the game starts. |
| `SeasonLaws.PublishSeasonLaw` | shvatka/core/season/interactors.py:72-100 | A season is published once, with at least one date and all of its year; it gets exactly the drafted days and notes, in order of the days, as free dates, and nothing is written about them. |
| `SeasonLaws.AddSlotLaw` | shvatka/core/season/interactors.py:135-152 | Adding a slot, written out: the two refusals, the free slot and the one row. |
| `SeasonLaws.MoveSlotLaw` | shvatka/core/season/interactors.py:160-186 | Moving a slot, written out: the three refusals; nothing when it is on the day; else the date is the new one, all else of the slot is as it was, and exactly one row is added, with the two dates. |
| `SeasonLaws.EditSlotNoteLaw` | shvatka/core/season/interactors.py:194-211 | As above, for the note. |
| `SeasonLaws.RemoveSlotLaw` | shvatka/core/season/interactors.py:219-239 | As above, for a removal: the slot goes, its rows lose their slot, and the row of the removal has none. |
| `SeasonLaws.TakeSlotLaw` | shvatka/core/season/interactors.py:249-288 | As above, for a sign-up: a team author needs a team; the one signed up is shown, and the team is recorded whenever one is named. |
| `SeasonLaws.ReleaseSlotLaw` | shvatka/core/season/interactors.py:296-319 | As above, for a release: a linked slot is refused; owner and organizers go. |
| `SeasonLaws.SetSlotOrgsLaw` | shvatka/core/season/interactors.py:327-357 | As above, for the organizers, with the list before in the row. |
| `SeasonLaws.LinkGameLaw` | shvatka/core/season/interactors.py:385-456 | As above, for a link: a game that sits elsewhere and a slot with another game are refused; the author takes a free slot, the slot is on the day of the start, and a second row tells that move if there is one. |
| `SeasonLaws.UnlinkGameLaw` | shvatka/core/season/interactors.py:464-488 | As above, for unlinking; a slot without a game stays as it is. |
| `SeasonLaws.FollowGameLaw` | shvatka/core/season/services.py:72-99 | In a safe schedule the slot that holds the game is on the day of the new start, all else of it is as it was, and exactly one row tells the move, or none if it was there; without a start or without such a slot nothing changes. |
| `SeasonLaws.PublishDigestLaw` | shvatka/core/season/interactors.py:503-525 | The job changes nothing but that the rows of its season, and no others, are marked. |
| `SeasonWindow.StepOnSlot` | shvatka/core/season/interactors.py:135-488 | What any step does to a given slot and its unpublished rows: one edit of that slot with exactly the rows of that edit, or nothing. |
| `SeasonWindow.MovesAreChained` | shvatka/core/season/interactors.py:160-186 | Over every window the movers (moving by hand, linking a game, a game changing its start) record chained from/to dates: replaying the rows from the first date yields the current date. |
| `SeasonWindow.DigestRefinesState` | shvatka/core/season/rules.py:169-213 | Between two digest jobs, for a slot that was there and survives: the digest says moved exactly when the dates at the two ends differ and then names these two dates; its day is the final date when there is any row; without rows the slot is unchanged. |
| `SeasonWindow.DigestNamesFinalGame` | shvatka/core/season/rules.py:237-246 | A slot that starts unlinked is announced with the name of the game it ends with, or with none, and never as unlinked. |
| `SeasonWindow.DigestTellsFinalNote` | shvatka/core/season/rules.py:233-236 | The note a slot is announced with is the one it ends with, and unless one is announced the note is the one it started with. |
| `SeasonWindow.OrgsRightIffNotSpoiled` | shvatka/core/season/rules.py:225-232 | The organizers before and after are those of the two ends at every moment of the window if and only if no sign-up or release changes them. |
| `SeasonWindow.OwnerRightIffNotSpoiled` | shvatka/core/season/interactors.py:405-412 | For a slot that starts free the owner word is right at every moment of the window if and only if no link takes it implicitly, no release finds it free and no sign-up is recorded under a name other than the one shown. |
| `SeasonWindow.PublishedDigestTellsWindow` | shvatka/core/season/interactors.py:503-525 | The published list contains the digest of a slot whenever it is not empty, and no empty digest. |
| `SeasonLaws.MoveIsPublished` | shvatka/core/season/interactors.py:503-525 | A slot that is on another day when the window closes has a published line with both days. |
| `SeasonLaws.NoteIsPublished` | shvatka/core/season/interactors.py:503-525 | One with another note has a published line with the note. |
| `SeasonLaws.GameIsPublished` | shvatka/core/season/interactors.py:503-525 | One with another game, or that lost its game without a link in the window, has a published line that says so. |
| `SeasonLaws.OwnerIsPublished` | shvatka/core/season/interactors.py:503-525 | One with another owner has a published line that says so, under the condition of `OwnerToldIff`. |
| `SeasonLaws.OrgsArePublished` | shvatka/core/season/interactors.py:503-525 | And so for the organizers, under the condition of `OrgsToldIff`. |
| `SeasonWindow.DigestEmptiesWindow` | shvatka/core/season/interactors.py:503-525 | After the job no row of the season is unpublished, so the next window starts empty. |
| `SeasonWords.OwnerToldIff` | shvatka/core/season/rules.py:214-224 | When a window closes, whoever held the slot when it opened, the line is right about the owner (it names the holder, says released, or is silent because nothing changed) if and only if the last edit that bears on the owner was told: a sign-up shown and recorded under one name; a release that undoes a sign-up of a slot that began free, or frees one that began held without a sign-up in between; a link that gives a freed slot back to the owner it began with, before which no release was announced. |
| `SeasonWords.GameToldIff` | shvatka/core/season/rules.py:237-246 | When a window closes the line is right about the game if and only if the slot did not lose the game it began with in a window in which some game was linked to it. |
| `SeasonWords.OrgsToldIff` | shvatka/core/season/rules.py:225-232 | When a window closes the line is right about the organizers, before and after, if and only if the last edit that set them was told: one by hand, the first of which found them as they began; a sign-up or a release that leaves them as the last one by hand or, without one, as they began. |
| `SeasonLives.LifeToldByDay` | shvatka/core/season/rules.py:169-261 | In every run: of a slot added, edited and moved in any way, and removed in one window, on days no other slot is ever on, the published list says about each day it was on: nothing if it both began and ended there, else in one line that a date was added if it began there, removed if it ended there, and moved there otherwise. |
| `SeasonLives.LifeIsSilentIff` | shvatka/core/season/rules.py:169-261 | So no published line is about any of these days if and only if the slot never left its first day. |
| `SeasonLives.AddMoveRemoveToldTwice` | shvatka/core/season/rules.py:187-246 | The run that adds a slot, moves it and removes it leaves no slot, a published line that says added on its first day and one that says removed on its last. |
| `SeasonLives.MovedBackTold` | shvatka/core/season/rules.py:187-246 | The run that adds a slot, moves it away, moves it back and removes it leaves no slot and a published line that says moved, about the day in between. |
| `SeasonLives.SilentTakeToldAsRelease` | shvatka/core/season/interactors.py:405-412 | The run that links a free slot, unlinks it and releases it: the slot is free at both ends and its published line says released. |
| `SeasonLives.SignUpToldUnderTeam` | shvatka/core/season/interactors.py:265-284 | A player who signs up and names a team is shown as the owner, and the published line names the team. |
| `SeasonLives.ReplacedOrgsTold` | shvatka/core/season/rules.py:225-232 | Organizers set by hand and then replaced by a sign-up are still published. |
| `SeasonLives.TakeoverHidesRelease` | shvatka/core/season/rules.py:214-224 | A held slot that is taken over and released in one window is free at its end, and its digest is empty. |
| `SeasonLives.OtherGameHidesLoss` | shvatka/core/season/rules.py:237-246 | A linked slot that is unlinked, linked to another game and unlinked again in one window is without a game at its end, and its digest is empty. |
| `SeasonService.ScheduleDao.Record` | shvatka/core/season/services.py:31-48 | Recording appends one stamped row and touches nothing else. |
| `SeasonService.ScheduleDao.PublishSeason` | shvatka/core/season/interactors.py:72-100 | The calls on rows do the step of the machine, or fail with its error and change nothing; so for all the interactors below. |
| `SeasonService.ScheduleDao.AddSlot` | shvatka/core/season/interactors.py:135-152 | As above, for adding a slot. |
| `SeasonService.ScheduleDao.MoveSlot` | shvatka/core/season/interactors.py:160-186 | As above, for moving a slot. |
| `SeasonService.ScheduleDao.EditSlotNote` | shvatka/core/season/interactors.py:194-211 | As above, for the note. |
| `SeasonService.ScheduleDao.RemoveSlot` | shvatka/core/season/interactors.py:219-239 | As above, for removal: the rows of the slot stay, detached from it, and the removal row is detached too. |
| `SeasonService.ScheduleDao.TakeSlot` | shvatka/core/season/interactors.py:249-288 | As above, for a sign-up. |
| `SeasonService.ScheduleDao.ReleaseSlot` | shvatka/core/season/interactors.py:296-319 | As above, for a release. |
| `SeasonService.ScheduleDao.SetSlotOrgs` | shvatka/core/season/interactors.py:327-357 | As above, for the organizers. |
| `SeasonService.ScheduleDao.LinkGame` | shvatka/core/season/interactors.py:385-456 | As above, for linking a game, the implicit sign-up and the move to the day of the game. |
| `SeasonService.ScheduleDao.UnlinkGame` | shvatka/core/season/interactors.py:464-488 | As above, for unlinking. |
| `SeasonService.ScheduleDao.FollowGame` | shvatka/core/season/services.py:72-99 | As above, for a slot that follows the new start of its game. |
| `SeasonService.ScheduleDao.PublishDigest` | shvatka/core/season/interactors.py:503-525 | The job returns the collapsed digests of the season's unpublished rows and marks exactly these rows published. |
| `GamePlay.SnapAheadIff` | shvatka/core/games/game_play.py:193-204 | A start is shifted by at most the tolerance, and lies ahead of the clock exactly when the planned start does by no more than that. |
| `GameLaws.StartWindow` | shvatka/core/games/game_play.py:207-222 | A game is started exactly from less than a minute before its planned start to less than half an hour after it. |
| `GameLaws.StartLaw` | shvatka/core/games/game_play.py:49-95 | Starting a game puts every team on its first level at the recorded start (the planned one when it is at most two seconds away), shows its puzzle and nothing else, leaves one hint job if the level has a first hint, for hint 1 at the start plus its minutes, and a job for every timer at the start plus its minutes. |
| `GameChain.StartEstablishesInv` | shvatka/core/games/game_play.py:49-95 | A started game satisfies the invariant of the hint chain. |
| `GameRuns.StepKeepsBase` | shvatka/core/services/key.py:37-268 | Every key, timer job and hint job, early or not and whatever the scenario decides, keeps: rows belong to their teams, jobs to rows, no effect is noted twice, the end is noted exactly if all are done. |
| `GameChain.StepKeepsInv` | shvatka/core/services/key.py:37-268 | Every step but a key that moves a team before the recorded start keeps the invariant of the hint chain. |
| `GameRuns.GameKeepsBase` | shvatka/core/games/interactors.py:251-400 | So the first invariant holds after every step of every game. |
| `GameChain.GameKeepsInv` | shvatka/core/games/interactors.py:251-400 | And the second in every state up to the first key that moves a team before the recorded start. |
| `GameChain.HintChain` | shvatka/core/games/game_play.py:98-190 | In every state up to such a key: for every level time the shown hints are a prefix of the level's, each once and in order; the current level time has exactly one pending job when hints remain, for the next hint, at its own distance from the level start however late earlier jobs fired, and none otherwise; level start times of a team never decrease and only its last level may be the finish. |
| `GameLaws.HintJobsOnTime` | shvatka/core/games/game_play.py:98-190 | In every state up to such a key every pending job for hint n of a level that began at s runs at s + 60 * minutes of hint n, and the next hint of a current level has exactly one such job. |
| `GameChain.HintChainIff` | shvatka/core/games/game_play.py:186-204 | The hint chain holds in every state of a game if and only if no key moves a team before the start the game records; so does the order of the level times. |
| `GameChain.EarlyKeyShowsPuzzleTwice` | shvatka/core/games/game_play.py:186-204 | In every game whose scheduler wakes one second early, a key that moves a team in that second shows it the puzzle of its first level a second time. |
| `GameChain.LeftLevelStaysSilent` | shvatka/core/games/game_play.py:98-147 | A job of a level the team has left shows nothing and schedules nothing, in any state. |
| `GameRuns.PendingJobsCanFire` | shvatka/core/games/game_play.py:98-147 | Every pending job concerns a team, a level and a hint that exist. |
| `GameRuns.NumbersInRangeIff` | shvatka/core/services/key.py:106-124 | All level numbers of all states of all games lie in 0..len(levels) if and only if no level name leads to a number above len(levels); names are looked up among all levels of the author. |
| `GameRuns.NameLeadsPastFinish` | shvatka/core/services/key.py:106-124 | Whenever a name leads to such a number there is a game of one key in which a team gets it. |
| `GameRuns.EffectsAppliedOnce` | shvatka/core/services/key.py:160-217 | In every state of every game no timer effect is noted twice for one level time. |
| `GameRuns.EndLoggedOnce` | shvatka/core/games/interactors.py:258-280 | The end of the game is logged exactly when all teams are done, and at most once in a game. |
| `GameRuns.DoneStaysDone` | shvatka/core/games/interactors.py:267-303 | No step takes a team that is done back to a level. |
| `GameRuns.CurrentAfterMove` | shvatka/infrastructure/db/dao/rdb/level_times.py:56-72 | A team moved to a level is on it unless the move is dated before its current level started; then it stays where it was. Of equal start times the newer row counts, see the assumptions. |
| `GameLaws.KeyLaw` | shvatka/core/services/key.py:37-124 | A key moves a team of the game that is on a level, if the verdict says so and the next number or the named level is there: one row is added, at the time of the key; any other key changes nothing but the clock. |
| `GameLaws.EnterLaw` | shvatka/core/games/interactors.py:258-303 | After a move a team on a level is shown its puzzle and gets the job of its first hint at its minutes; a team that is done is shown nothing. |
| `GameRuns.DueTimersAre` | shvatka/core/services/key.py:160-217 | The due timers are those of the level whose time has passed and whose effects were not applied on this level time. |
| `GameRuns.DueAppliedOnce` | shvatka/core/services/key.py:160-217 | Applying them never applies an effect twice on one level time. |
| `GameRuns.LateTimerBackdated` | shvatka/core/services/key.py:219-268 | However late a timer fires, it moves the team exactly if a level-up is due and leads to a level, and the move is dated to the level start plus the action time. |
| `GameLaws.TimerNotes` | shvatka/core/services/key.py:160-217 | A timer job of the current level notes exactly the timers of the level whose minutes have passed and that were not noted. |
| `GameLaws.TimerMoves` | shvatka/core/services/key.py:219-268 | The one among them that moves the team adds one row, dated to the level start plus its minutes. |
| `GameLaws.TimerRests` | shvatka/core/services/key.py:219-268 | Without such a one no row is added and nothing is shown or scheduled. |
| `GameLaws.StaleTimerLaw` | shvatka/core/services/key.py:160-217 | A timer job of a level the team has left, or of a team that is done, is spent and nothing else happens. |
| `GameLaws.UnknownTimerLaw` | shvatka/core/services/key.py:219-268 | With one that names an unknown level nothing happens, but that the job is spent. |
| `GameLaws.HintLaw` | shvatka/core/games/game_play.py:98-147 | A hint job shows its hint and leaves one job for the next, at that hint's minutes after the level start; one of a left level does nothing. |
| `GameTimers.TimersKeptIff` | shvatka/core/services/key.py:160-217 | In every game without such an early key, every timer of the level a team is on is applied, or as many jobs as were scheduled for its time (level start plus action time) are pending, if and only if no job of an unapplied timer is spent while a due level-up names an unknown level. |
| `GameTimers.TimersAlwaysKeptIff` | shvatka/core/services/key.py:106-124 | So in all such games timers are kept if and only if every timer of the game that moves teams on leads to a level there is. |
| `GameTimers.UnknownNameLosesTimer` | shvatka/core/services/key.py:219-268 | For every timer of any level that names an unknown level there is a game in which a team reaches that level by keys and firing the timer loses it: it is neither noted nor pending. |
| `GameService.GameDao.StartGame` | shvatka/core/games/game_play.py:49-95 | The two loops (levels first, then puzzles and jobs) leave what `StartLaw` says for every team; a start that is not due does nothing. |
| `GameService.GameDao.ScheduleFirstHint` | shvatka/core/games/game_play.py:150-172 | One job for hint 1 at the level start plus its minutes, if the level has more than the puzzle, and every timer of the level are added. |
| `GameService.GameDao.LevelUp` | shvatka/core/games/interactors.py:258-303 | A moved team is shown its puzzle, or is done; the last one done ends the game. |
| `GameService.GameDao.CheckKey` | shvatka/core/services/key.py:37-103 | A key is the step of the protocol: it moves a team that is on a level and nobody else. |
| `GameService.GameDao.ProcessTimer` | shvatka/core/services/key.py:160-217 | A timer job is the step of the protocol; a stale one is dropped. |
| `GameService.GameDao.ApplyTimers` | shvatka/core/services/key.py:219-268 | Due effects are noted; the level-up among them is dated to its own time even when the job is late; an unknown level name leaves nothing noted. |
| `GameService.GameDao.SendHint` | shvatka/core/games/game_play.py:98-147 | A hint job is the step of the protocol; the job for the next hint runs at that hint's minutes after the level start. |
| `FileProtocol.StepKeepsInv` | shvatka/core/files/interactors.py:28-77 | Each step of an upload, a deletion or a collection keeps an invariant under which no committed meta dangles, provided upload time plus snapshot-to-listing delay is at most a day. |
| `FileProtocol.RunKeepsInv` | shvatka/core/games/editor_interactors.py:232-335 | So it holds along every interleaving, also when metas share a path. |
| `FileProtocol.ListedGarbageOk` | shvatka/core/files/interactors.py:90-96 | What a listing picks is neither needed by a meta nor by an upload still under way. |
| `FileProtocol.SlowRunDangles` | shvatka/infrastructure/clients/file_storage.py:54-78 | For any larger bounds there is a run in which a committed meta loses its content. |
| `FileProtocol.SafeIffWithinDay` | shvatka/core/files/interactors.py:14-60 | No run ever dangles if and only if upload time plus snapshot-to-listing delay is at most one day. |
| `FileCollector.DryRunPredicts` | shvatka/core/files/interactors.py:28-77 | From the same rows, contents and clock the dry and the real mode report the same links, metas and files. |
| `FileCollector.CollectsOnlyGarbage` | shvatka/core/files/interactors.py:28-96 | No link a level or its game's release needs, no guid that is linked, used or released, no content of a meta that stays and no content younger than a day is collected. |
| `FileCollector.CollectsExactlyGarbage` | shvatka/core/files/interactors.py:28-96 | And exactly: the links that no level file of their game and not its release needs, the metas that no needed link, no level and no release refers to, and the contents older than a day that no other meta has. |
| `FileCollector.OnePassSuffices` | shvatka/core/files/interactors.py:28-96 | A second run from the state the first leaves, with the same clock, finds nothing. |
| `FileCollector.CollectionKeepsContents` | shvatka/core/files/interactors.py:28-77 | If every meta had its content before a collection, every remaining meta has it after. |
| `FileCollector.CollectionFollowsProtocol` | shvatka/core/files/interactors.py:28-77 | A collection nobody interferes with is a run of the interleaving protocol: same rows committed, same contents doomed. |
| `FileCollector.UploadFollowsProtocol` | shvatka/core/games/editor_interactors.py:232-255 | An upload nobody interferes with is two steps of that protocol. |
| `FileCollector.DeletionFollowsProtocol` | shvatka/core/games/editor_interactors.py:275-335 | So is a deletion: the meta goes, and the content with it unless another meta has the path. |
| `FileCollector.DeletionKeepsContents` | shvatka/core/games/editor_interactors.py:275-335 | After deleting a file of a game no content is missing, and its meta is there exactly if something still refers to it. |
| `FileCollector.FileRegistry.Collect` | shvatka/core/files/interactors.py:28-77 | The interactor deletes exactly the links, metas and contents it reports, which are those of the row above; the dry mode changes nothing. |
| `FileCollector.FileRegistry.DeleteGameFile` | shvatka/core/games/editor_interactors.py:275-335 | Not found without a meta or a link of the game, refused when a level of the game or its release uses it; else exactly the links of the game to the file go, the meta if no other link, level or release refers to it, and the content if no other meta has its path. The order of the writes is the protocol above. |
| `FileCollector.FileRegistry.UploadGameFile` | shvatka/core/games/editor_interactors.py:232-255 | Afterwards the content, the meta and the link are there and nothing else changed; the order of the writes is the protocol above. |
| `TeamHistory.NeighboursSuffice` | shvatka/core/players/player.py:482-500 | From the check on neighbours in order of joining: any two memberships are disjoint and only the last may be open. |
| `TeamHistory.NeighboursNecessary` | shvatka/core/players/player.py:482-500 | Conversely proper intervals in order that are unambiguous pass the check. |
| `TeamHistory.MergeUnambiguous` | shvatka/core/players/player.py:423-447 | A merge that succeeds writes a history in order, unambiguous, all of the primary player. |
| `TeamHistory.MergeRefusedIff` | shvatka/core/players/player.py:423-447 | When all memberships end after they start, a merge is refused exactly when some instant would have two of the memberships to be written (the secondary's when the primary's is dropped, else both histories'), or when the primary has one membership and the secondary none. |
| `TeamHistory.MergeKeepsStays` | shvatka/core/players/player.py:423-447 | What a merge that succeeds writes: all of it the primary's; as teams and dates exactly the secondary's memberships in order when the primary's one is dropped, else, as a multiset, all of both. |
| `TeamHistory.DroppedTimeKeptIff` | shvatka/core/players/player.py:427-432 | When the primary's one membership is dropped as a duplicate, the merged history has its team at every instant of it if and only if it has no instant, or three things hold: the secondary has a membership that holds when it began; each later one that starts before it ends begins exactly where the one before ended, and the last of these lasts as long; and every membership of the secondary that meets it is of its team. |
| `TeamHistory.DroppingMergeSucceedsIff` | shvatka/core/players/player.py:423-447 | Such a merge succeeds exactly when no two memberships of the secondary clash. |
| `TeamHistory.ReturnIsLost` | shvatka/core/players/player.py:427-432 | So somebody who came back to the old team loses the time after the return. |
| `TeamHistory.GapIsLost` | shvatka/core/players/player.py:427-432 | And somebody whose secondary history returns to the team only later loses the time until then, although its last membership is open. |
| `TeamHistory.OtherTeamTakesTime` | shvatka/core/players/player.py:427-432 | And two histories that clash, since the secondary's is in another team until it returns, are merged without an error, and the time in between is the other team's. |
| `TeamHistory.NormalizedUnambiguous` | shvatka/core/players/player.py:465-500 | A custom timeline that passes is in order, unambiguous, every item ends after it starts, and is a permutation of the input. |
| `TeamHistory.NormalizedAcceptsIff` | shvatka/core/players/player.py:465-500 | A timeline is accepted exactly when it is not empty, every item carries a time zone, ends after it starts and names known permissions, and no instant has two of them. |
| `TeamHistory.RefusalIsRight` | shvatka/core/players/player.py:465-500 | What a refusal says is so. |
| `TeamHistory.AcceptedTimelineKeepsWaivers` | shvatka/core/players/player.py:503-519 | With an accepted timeline, at every instant of every waiver window the player's only team is the waiver's. |
| `TeamHistory.ClashingWaiversRefused` | shvatka/core/players/player.py:503-519 | If two waivers of different teams share an instant, every timeline is refused. |
| `TeamHistory.MatchesIff` | shvatka/core/players/player.py:503-519 | A window passes exactly when the item that holds at its opening is of the team and holds to its end. |
| `TeamHistory.NobodyMatches` | shvatka/core/players/player.py:503-519 | A window at whose opening no item holds does not pass. |
| `TeamHistory.SplitMembershipRefused` | shvatka/core/players/player.py:503-519 | So a membership written as two adjacent ones is refused though the team is right throughout. |
| `TeamHistory.WindowsMakeSense` | shvatka/core/players/dto.py:31-59 | The window of a planned game is from an hour before its start to 48 hours after it. That of a pending one holds the present and ends with the coming Sunday; it begins with the Monday of that week, or on a Sunday with the day itself. |
| `TeamHistory.PointsAreOfWaivers` | shvatka/core/players/player.py:450-462 | The windows checked are exactly those of the waivers that count, in the order in which they begin. |
| `TeamHistory.WrittenTimelineUnambiguous` | shvatka/core/players/player.py:522-550 | The history written from an accepted timeline is in order and unambiguous. |
| `TeamHistory.HistoryDao.MergeTeamHistory` | shvatka/core/players/player.py:423-447 | Afterwards the primary has what the row above says, as read from the stored histories, and the secondary nothing; or an error leaves both. |
| `TeamHistory.HistoryDao.NormalizeTimeline` | shvatka/core/players/player.py:465-500 | The sort, which fails on instants with and without a time zone, and the two loops return the sorted items or the first error. |
| `TeamHistory.HistoryDao.CheckTimelineMatchesPoints` | shvatka/core/players/player.py:503-519 | The loop reports the first violated waiver in that order, and none exactly if all match. |
| `TeamHistory.HistoryDao.SetMergedTeamHistory` | shvatka/core/players/player.py:522-550 | Item by item the timeline becomes the history of the primary, and the secondary is left without one. |
| `Results.TeamLevels.GetLevelTime` | shvatka/core/games/results.py:75-83 | The loop returns the earliest of the team's times on a level, see the next row. |
| `Results.EarliestMeans` | shvatka/core/games/results.py:75-83 | That is the smallest time and the first row that has it; there is none only without a time below the largest one. |
| `TableContents.LevelTimeIs` | shvatka/core/games/results.py:417-428 | In terms of the rows: the time of a level is the smallest start of the rows with its number, and there is none exactly without such a row. |
| `Results.ToResults` | shvatka/core/games/results.py:417-435 | The loops over teams, level times and neighbouring level times route every team's data as the following rows describe. |
| `TableContents.LevelTimedeltaIs` | shvatka/core/games/results.py:429-431 | In terms of the rows: the time on a level is the sum, over the rows with its number but the last row of all, of the time until the next row. |
| `Results.LevelTimedeltasAddUp` | shvatka/core/games/results.py:85-90 | Over any list of levels that has each of the team's once, the durations add up to last minus first start, even when levels are revisited. |
| `Results.ResolveLevelByTime` | shvatka/core/games/results.py:464-473 | Sorting and stopping at the first future row gives the level of the latest start not after the instant (the later row of equal starts), and none exactly when all starts are in the future. |
| `Results.ResolvedLevelMeans` | shvatka/core/games/results.py:438-451 | The level time a bonus names decides; else its instant; it stays unresolved exactly if the team had not started by then. |
| `Results.ResolveBonusLevels` | shvatka/core/games/results.py:438-451 | Every bonus comes out in its place with only its level filled in. |
| `Results.RouteBonuses` | shvatka/core/games/results.py:454-461 | The resolved bonuses are grouped by level in order. |
| `Results.BonusesAreKept` | shvatka/core/games/results.py:454-461 | As a multiset routing keeps the bonuses, each group holds exactly those of its level in their order, and no level has two groups. |
| `Results.TotalIsSumOfParts` | shvatka/core/games/results.py:63-73 | The total bonus is the sum of the level sums plus the unresolved group, and the sum of the bonuses that came in. |
| `Grouping.RouteGets` | shvatka/core/games/results.py:423-431 | A dictionary filled with setdefault and append has under each key exactly the items of that key in order. |
| `Grouping.SumsPerKey` | shvatka/core/games/results.py:417-435 | Sums per key over all keys add up to the sum of the items. |
| `TableCells.BestOfMeans` | shvatka/core/games/results.py:300-307 | Keeping the strictly smaller value row by row ends with the column minimum at the earliest row that has it. |
| `ResultsTable.Sheet.AddLevelsHeader` | shvatka/core/games/results.py:162-180 | The header writes its caption, the start column and two cells per level, and nothing else. |
| `ResultsTable.Sheet.FillGrid` | shvatka/core/games/results.py:284-294 | The loops empty exactly the cells of the rectangle. |
| `ResultsTable.Sheet.MarkBest` | shvatka/core/games/results.py:310-312 | Exactly the best cell of each column changes its style. |
| `ResultsTable.Sheet.AddLevelTimesPart` | shvatka/core/games/results.py:187-215 | Writing the times block cell by cell leaves at every address of the sheet what `TimesCell` says. |
| `ResultsTable.Sheet.AddDurationsPart` | shvatka/core/games/results.py:218-257 | Likewise the durations block with its row of averages. |
| `ResultsTable.Sheet.AddAveragesRow` | shvatka/core/games/results.py:315-329 | Likewise that row, written only if some team has left a level. |
| `ResultsTable.Sheet.AddBonusesPart` | shvatka/core/games/results.py:377-414 | Likewise the bonuses block; without a single bonus nothing is written and the next block starts where it would have. |
| `ResultsTable.Sheet.AddChronologyPart` | shvatka/core/games/results.py:260-281 | Likewise the chronology with two rows per team. |
| `TableIntegrity.ResultsToTable` | shvatka/core/games/results.py:109-136 | The four writers one after the other leave the sheet `SheetCell` and report the blocks `Blocks`. |
| `TableIntegrity.BlocksDescend` | shvatka/core/games/results.py:109-136 | With and without bonuses the blocks take disjoint, increasing ranges of rows with one empty row between them, and there is a bonus block exactly when somebody has a bonus. |
| `TableIntegrity.BlockOwnsItsRows` | shvatka/core/games/results.py:109-136 | Whatever the sheet holds in the rows of a block that block alone has written, and outside the blocks there is only the game name. |
| `TableIntegrity.MarkedIffBest` | shvatka/core/games/results.py:300-312 | A cell of the whole sheet is marked best exactly if it is the minimum of its column in the times block, or the minimum of the non-zero durations of its column, in the topmost row that has it. |
| `TableContents.TimeIsShown` | shvatka/core/games/results.py:187-215 | The times block shows for each team and level, and the finish, the first start there. |
| `TableContents.NoTimeIsShown` | shvatka/core/games/results.py:187-215 | It is empty where the team never got. |
| `TableContents.StayIsShown` | shvatka/core/games/results.py:218-257 | The durations block shows for each team and level the time on it without whole days, and is empty for a level the team never left. |
| `TableContents.AverageIsShown` | shvatka/core/games/results.py:315-329 | Under it stands the mean over the teams that left the level, to the nearest microsecond. |
| `TableIntegrity.MarkedTimeIsSmallest` | shvatka/core/games/results.py:187-215 | A marked cell of the times block shows that smallest time. |
| `TableIntegrity.MarkedDurationIsSmallest` | shvatka/core/games/results.py:218-257 | A marked cell of the durations block shows that smallest duration, without its whole days. |
| `TableIntegrity.OneTimeMark` | shvatka/core/games/results.py:187-215 | A level somebody has a time for has exactly one marked cell in the times block. |
| `TableIntegrity.OneDurationMark` | shvatka/core/games/results.py:218-257 | A level somebody has a non-zero duration for has exactly one marked cell in the durations block. |
| `TableContents.HeadersAreShown` | shvatka/core/games/results.py:162-184 | On the sheet each level has its name and its number counted from one over its own column, in every block. |
| `TableContents.CaptionsAreShown` | shvatka/core/games/results.py:109-136 | The name of the game, the captions of the blocks and that of the totals are in their places. |
| `TableContents.NamesAreShown` | shvatka/core/games/results.py:187-215 | Each team has its name at the head of its row in every block of teams. |
| `TableContents.ChronologyIsShown` | shvatka/core/games/results.py:260-281 | On the sheet each team has two rows of its own: its name and start times in order, and under each time the number of the level. |
| `TableIntegrity.MeanIsNearest` | shvatka/core/games/results.py:325-326 | An average is the whole microsecond nearest to the exact mean, and of two the even one. |
| `TableIntegrity.FinishShowsTotal` | shvatka/core/games/results.py:387-413 | The column after the last level holds the total of each team, even for a bonus whose level has the number of the finish. |
| `TableIntegrity.BonusShownIff` | shvatka/core/games/results.py:387-413 | The bonuses of a team on a level have their sum in the cell of that level if and only if its number is not the number of the finish. |
| `TableContents.BonusIsShown` | shvatka/core/games/results.py:377-414 | The cell of a level shows the sum of the team's given bonuses that resolve to it. |
| `TableContents.TotalIsShown` | shvatka/core/games/results.py:377-414 | The total is the sum of all bonuses given to the team. |
| `TableIntegrity.ResultsHaveDicts` | shvatka/core/games/results.py:417-435 | Computed results have no level twice and no empty list, which is what the writers rely on. |
| `InlineData.SplitOfJoin` | shvatka/tgbot/services/inline_data.py:80-96 | Splitting undoes joining for parts without the separator. |
| `InlineData.JoinOfSplit` | shvatka/tgbot/services/inline_data.py:80-96 | Joining undoes splitting for every text, and the parts are free of the separator. |
| `InlineData.Pack` | shvatka/tgbot/services/inline_data.py:66-87 | The loop returns the joined text, or the first field that cannot be sent, or that the text is too long. |
| `InlineData.PackAcceptsIff` | shvatka/tgbot/services/inline_data.py:54-87 | Packing succeeds exactly when every field has a text without the separator and prefix, separators and fields take at most 64 bytes. |
| `InlineData.LongestSent` | shvatka/tgbot/services/inline_data.py:66-87 | With a prefix and a separator of ASCII, ASCII fields are sent while prefix, separators and characters are at most 64; of Cyrillic fields every character counts twice. |
| `InlineData.PackedText` | shvatka/tgbot/services/inline_data.py:66-87 | The text is the prefix and the texts of the fields in their order, with one separator between. |
| `InlineData.PackRefusal` | shvatka/tgbot/services/inline_data.py:54-87 | A refusal names the first field that cannot be sent and why, or the length. |
| `InlineData.Unpack` | shvatka/tgbot/services/inline_data.py:89-113 | The split and the loop return the fields; a wrong count is reported before a wrong prefix. |
| `InlineData.UnpackAcceptsIff` | shvatka/tgbot/services/inline_data.py:89-113 | A text unpacks exactly when it is the prefix and as many separator-free fields as the class has. |
| `InlineData.UnpackRefusal` | shvatka/tgbot/services/inline_data.py:89-113 | A wrong count is refused first, with both numbers, then a wrong prefix; else each field is its part, and an empty part of an optional field is nothing. |
| `InlineData.PackedUnpacks` | shvatka/tgbot/services/inline_data.py:54-113 | What was packed always unpacks, and a field comes back as it was sent if and only if an optional one does not hold the empty text and a required one is not missing. |
| `InlineData.UnpackedPacks` | shvatka/tgbot/services/inline_data.py:66-113 | What unpacks packs to the same text again, unless it is longer than 64 bytes. |
| `InlineData.PackIsInjective` | shvatka/tgbot/services/inline_data.py:66-87 | Two models with the same packed text have the same field texts. |

## Left out

- HTTP routes, bot handlers, dialogs and dependency wiring: they call the modelled parts and decide nothing.
- Databases, the scheduler and the file system: maps, sets and multisets of jobs with the meaning their callers rely on.
- Permission checks, notifications and announcements of the modelled calls: they only refuse or inform.
- The scenario's verdict on a key: an arbitrary input, since the conditions of levels are a language of their own.
- Events saved with key effects and the repeated sending of a level by an administrator, which repeats hints on purpose.
- Hint jobs the scheduler drops after an outage: the chain of a level would end there.
- Two calls of one team interleaved between the end of the team lock and the commit.
- The order of the teams in the table and the charts beside it: what is proved about the table holds for any order.
- The number formats of cells, the frozen row and the hidden column.
- Default dates of a season and the search for slots near a game: pure calendar functions of a few lines.
- The text of digests and of audit payloads that no digest reads.
- Roles, emoji and permissions carried along by memberships: only their being known is modelled.
- Typing of inline data fields after unpacking: the library behind it is not part of this model.
- Font metrics and rounding of floating-point numbers; time zones beyond a constant offset; ISO text of dates.
- FileProtocol.SafeIffWithinDay: which metas count as orphans is left to each collection, so that the bound holds whatever the links are; the deletion of one file is two steps, its transaction and the deletion of its content.
- Results.TotalIsSumOfParts: minutes given as fractions are taken as the whole microseconds they are rounded to.
- KeysPages.LongKeyPageGood: an empty key is excluded, because building a page for it fails in the engine.
