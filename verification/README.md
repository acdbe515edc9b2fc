# A verified model of the hard rules

This project models, in Dafny, the parts of the backend whose rules are hardest
to see from one function at a time, and proves what they promise: that large
removals are split over ledger rows without loss, that an edit to a stored JSON
column leaves every other entry as it was, that tokens and caches stay sound
whatever the interleaving, that approval routing and approval permission agree,
that job and lease states have the history they claim, that calendar schedules
tile, and that the reconcilers and runners resume where they stopped.

`dafny verify dfyconfig.toml` checks everything.

## How it is laid out

| files | what they model |
|---|---|
| `Json`, `JsonText`, `RowFiller`, `RemovalLedger`, `RemovalProofs`, `RemovalSizes`, `RemovalBuilders`, `RemovalRules`, `RemovalReader` | inspection removals cut into ledger rows, and a reader of the rows' JSON |
| `JsonArray`, `InfoSheetEdit`, `InfoSheetProofs`, `InfoSheetRules`, `InfoSheetUndo`, `InfoSheetBulk`, `BulkRules`, `InfoSheetLedger`, `InfoSheetWrite` | the info sheet column: scanning, editing, undo, bulk adds, the ledger's slices and concurrent writes |
| `MyobToken`, `GraphToken`, `RoleCache` | the stored MYOB link, the Graph token and the role cache, each under any number of callers |
| `Authority`, `AuthorityProofs`, `AuthorityRules`, `Variance` | who may approve what, and how far an approved amount may rise |
| `JobFlow`, `JobRules`, `LeaseEvent` | the job and lease event machines over whole runs |
| `LeavePolicy`, `LeaveRules`, `Acronym`, `AcronymRules` | reporting chains and contractor codes |
| `Calendar`, `OptionTerm`, `NextReview`, `NextReviewRules` | month arithmetic, option-term schedules, the next review date |
| `CpiSync`, `CpiRules`, `Migrate`, `MigrateRules`, `MyobCalls`, `MyobRules` | the CPI reconciler, the migration runner, calls to MYOB |
| `Wrappers`, `Sets` | helpers |

A module named for rules (`JobRules`, `AuthorityRules` and the like) states what the
functions of its model decide over their inputs, in words of its own rather than
through those functions, with amounts, periods and sizes written as numbers.

Code that updates variables in place is a method or a class here, and its
contract ties the new state to a function of the old one; the properties are
proved of that function. Where the source relies on a lock and a transaction
(the info sheet write, the MYOB token) the model is a system of steps taken by
any number of actors, and a property holds of every run.

## How the source's types are read

- Text is a sequence of UTF-16 code units in the sizing and scanning modules, so
  lone surrogates and every escape are covered.
- Amounts are whole cents, index values and percentages reals; an amount that is
  not a finite number is its own case.
- `JSON.parse` and `JSON.stringify` are a pair of functions in the info sheet
  modules. What is required of them is `InfoSheetEdit.Lawful`. A value that some
  text reads as is written as one JSON value, which reads back as it was but for
  a number past the doubles: that one is held as an infinity and written as null.
  A list is read from exactly the arrays whose entries are read, entry by entry.
  The grammar in `JsonArray` takes in every text of RFC 8259 and some that
  JSON.parse throws on, so the scanner's own theorems hold of more than they need
  to and nothing is required to parse for being in the grammar.
- Clocks, random ids, network answers and statements that fail are parameters or
  free choices of a step.
- Role names are compared after trimming and lower-casing, so roles are a
  datatype with a case for any other name.

## Where code and documentation differ

- `src/leaseOptions.ts` promises rows for every datable term; an expiry of 31
  December 9999 makes `buildOptionTermSteps` throw, because its first day has no
  four-digit year to read back (`OptionTerm.ThrowsOnLastDay`). For the years 0 to
  99 the option starts in the 1900s (`Calendar.NextDayIsNext`).
- `src/auth.ts` de-duplicates lookups, but its slot is freed by person rather
  than by lookup. A clear is safe exactly when no lookup has still to settle
  (`RoleCache.ClearSafeIffIdle`, and a failing run in `RoleCache.ClearLosesSlot`).
  The clear is there for tests.
- `src/myob-controls-store.ts` counts writes by verb, path and correlation id, so
  the daily allowance bounds distinct calls. It bounds what is sent exactly when
  no id is reused and nothing is sent again (`MyobCalls.SendsWithinCap`, and a
  run past the allowance in `MyobCalls.ReusedIdPassesCap`).
- `src/moneyRules.ts` measures nothing when the original amount is missing or not
  above zero (`Variance.UnmeasuredWithoutOriginal`).
- `src/infoSheetEdit.ts` restores a deleted section's values only if it held a
  list of rows, its id is not held by another entry and it holds no number past
  the doubles (`InfoSheetUndo.SectionUndoneStored`). A deleted row comes back only
  if its id is not held by another row of the section and the whole section holds
  no such number, as both writes rewrite the section
  (`InfoSheetUndo.RowUndoneStored`).

## Model

| member | source | states |
|---|---|---|
| `RowFiller.Filler.Add` | src/inspectionRemovalLedger.ts:207-216 | Adding an item keeps the packer's three variables those of the greedy packing of everything added so far: a row is closed only when the next item and its comma would pass the budget |
| `RowFiller.Filler.Finish` | src/inspectionRemovalLedger.ts:218-220 | Finishing hands over the packed rows, the open one last and no empty row |
| `RowFiller.FillKeepsItems` | src/inspectionRemovalLedger.ts:197-221 | The rows end to end are the items, in order: nothing lost, repeated or moved |
| `RowFiller.FillRowsFit` | src/inspectionRemovalLedger.ts:207-216 | A row passes the budget only when it is a single item too big for an empty row |
| `RowFiller.FillFitsIff` | src/inspectionRemovalLedger.ts:207-216 | Every row is within the budget exactly when every item fits an empty row |
| `RowFiller.FillIsOptimal` | src/inspectionRemovalLedger.ts:197-221 | No way of cutting the same items, in order, into rows within the budget uses fewer rows |
| `RemovalLedger.FillSlice` | src/inspectionRemovalLedger.ts:245-254 | The inner loop takes as many photo records as fit the row, and always at least one when one is left |
| `RemovalLedger.AddSlices` | src/inspectionRemovalLedger.ts:240-257 | The outer loop adds exactly the slices of the point, the first with its text, the later ones marked continued, covering the photo records in order |
| `RemovalLedger.AddPoint` | src/inspectionRemovalLedger.ts:232-258 | A point goes in whole when an empty row holds it, and otherwise in its slices |
| `RemovalLedger.RemovalSnapshots` | src/inspectionRemovalLedger.ts:261-293 | The rows returned are those of the specification: one row when it fits, else summary and rooms, contributors, points |
| `RemovalProofs.SlicesRejoin` | src/inspectionRemovalLedger.ts:240-257 | Extending a point by the slices that continue it gives back the point with all its photo records |
| `RemovalProofs.PointsRejoin` | src/inspectionRemovalLedger.ts:270-273 | For any list of points, cut and packed, rejoining the slices gives back each point once, in order |
| `RemovalProofs.RowsHoldEverything` | src/inspectionRemovalLedger.ts:261-293 | The rows of a split hold the room list, the contributors and every slice, in order and nothing else |
| `RemovalProofs.SnapshotsRebuild` | src/inspectionRemovalLedger.ts:15-18 | The rows of a split removal rebuild exactly the room list, the contributors and every point with its photo records |
| `RemovalProofs.PartsRunInOrder` | src/inspectionRemovalLedger.ts:280-292 | Parts are numbered 1 to n, once each and in order, and every row carries n |
| `RemovalSizes.SlicesFit` | src/inspectionRemovalLedger.ts:240-257 | Every slice of a point fits an empty row whenever its indivisible pieces do: the text with the first photo record, and each later photo record |
| `RemovalSizes.RowsFitBudget` | src/inspectionRemovalLedger.ts:56-61 | With pieces that fit, every row is within the row budget up to the widest count the sizing stands in for |
| `RemovalSizes.RowsFitLedger` | src/inspectionRemovalLedger.ts:20-27 | And within the ledger's own cap for any number of rows below 10^4101, the eighth left free being room for the counts' digits |
| `RemovalBuilders.LevelContextFits` | src/inspectionRemovalLedger.ts:164-195 | The context every row repeats never costs more than the summary it stands in for, so the later room-list rows fit where the first does (also proved for the other three builders) |
| `RemovalBuilders.RowsAtMost` | src/inspectionRemovalLedger.ts:227-293 | A removal takes at most one row for its summary and one for each room, contributor, point and photo record |
| `RemovalBuilders.SmallFitsBudget` | src/inspectionRemovalLedger.ts:56-61 | With pieces that fit and fewer than 99,999 rooms, contributors, points and photo records in all, every row is within the row budget |
| `RemovalBuilders.PointNeverRefused` | src/inspectionRemovalLedger.ts:85-108 | A point within its limits (5,000 code units of text, the columns' widths) is never refused for size, whatever number of photos it has that can be written in twenty digits |
| `RemovalBuilders.PhotoAlwaysOneRow` | src/inspectionRemovalLedger.ts:110-134 | A photo's removal is always one row |
| `RemovalBuilders.RoomNeverRefused` | src/inspectionRemovalLedger.ts:136-162 | A room within its limits is never refused for size |
| `RemovalBuilders.LevelNeverRefused` | src/inspectionRemovalLedger.ts:164-195 | A level within its limits is never refused for size |
| `RemovalBuilders.LevelRestored` | src/inspectionRemovalLedger.ts:183 | The slices of a split level's rows that name a room, rejoined, are exactly that room's points |
| `RemovalReader.LevelReadsBack` | src/inspectionRemovalLedger.ts:164-195 | A reader that knows only the JSON field names gets back, from the rows recorded for a level, one or many, its rooms with their stamps, texts, points and photo records, and the people, in order; every row names the level and the first carries its counts |
| `RemovalReader.RoomReadsBack` | src/inspectionRemovalLedger.ts:136-162 | The same for a room: every point and photo record, and the room and level named on every row |
| `RemovalReader.PointReadsBack` | src/inspectionRemovalLedger.ts:85-108 | The same for a point: its stamp, text and every photo record, and its place named on every row |
| `RemovalReader.PhotoReadsBack` | src/inspectionRemovalLedger.ts:110-134 | The same for a photo: the photo record with where it was |
| `RemovalReader.SplitReadsBack` | src/inspectionRemovalLedger.ts:278-293 | Read by field name, the rows of any split hold its room list, contributors and slices, numbered part 1 to n of n |
| `RemovalRules.OneRowRule` | src/inspectionRemovalLedger.ts:262 | A removal is one row exactly when its whole text is at most 57,344 bytes of UTF-8 |
| `RemovalRules.RowsAreFull` | src/inspectionRemovalLedger.ts:264-278 | No row ends early: with the next row's first item added, and stand-in counts, its text would pass 57,344 bytes |
| `RemovalRules.CutRule` | src/inspectionRemovalLedger.ts:232-239 | A point is cut exactly when its text does not fit a row of its own |
| `RemovalRules.SliceRule` | src/inspectionRemovalLedger.ts:243-254 | A slice takes a further photo record exactly while a row of its own stays within 57,344 bytes |
| `RemovalRules.SlicesRule` | src/inspectionRemovalLedger.ts:232-257 | A point is recorded as one slice or more: the first with its text where points carry theirs, every later one marked as continued, without the text and with at least one photo record |
| `RemovalRules.TakenRule` | src/ledger/validate.ts:12-18 | A removal is never refused for size exactly when the text of each of its rows is at most 65,536 bytes of UTF-8 |
| `JsonText.SizeIsStored` | src/ledger/validate.ts:15-18 | The size counted for any value is the number of UTF-8 bytes of the text JSON.stringify writes for it, escapes and lone surrogates included |
| `Json.FrameCost` | src/ledger/validate.ts:15-18 | Filling one list of an object adds its entries and their commas to the byte length, whatever stands around it |
| `Json.UnitsBytesBound` | src/infoSheetLedger.ts:16-21 | A code unit costs at most six bytes once escaped, however the text is cut |
| `JsonArray.JsonArrayElements` | src/jsonArrayElements.ts:5-39 | The one-pass scan returns each entry's own text beside its value, and none when the text is not an array |
| `JsonArray.CalmTree` | src/jsonArrayElements.ts:18-35 | Whatever nesting, strings and escapes a JSON value holds, the scanner passes it with no cut and no stop and comes out in the state it went in |
| `JsonArray.ArraySplits` | src/jsonArrayElements.ts:12-37 | For every JSON array text the scanner acts exactly at the commas between entries and at the closing bracket, and returns each entry's text without the white space around it |
| `JsonArray.EmptyArraySplits` | src/jsonArrayElements.ts:27-30 | An empty array, with any white space in it, gives no entries |
| `JsonArray.RejoinedRescans` | src/jsonArrayElements.ts:1-4 | Joining the entries with commas in brackets and scanning again gives the same entries |
| `InfoSheetEdit.ColumnRead` | src/infoSheetEdit.ts:59-63 | Text that is not blank is read exactly when JSON.parse makes a list of it, and every entry is then held with the text it was stored as and the value that text reads as |
| `InfoSheetEdit.WrittenRereads` | src/infoSheetEdit.ts:177 | Entries joined in brackets are read back text for text, each with the value its text reads as |
| `InfoSheetEdit.CollectTaken` | src/infoSheetEdit.ts:91-98 | The row ids collected are those of every row of every section |
| `InfoSheetEdit.AddAllRows` | src/infoSheetEdit.ts:88-124 | The additions are made one after the other, and the first refusal refuses them all |
| `InfoSheetProofs.EditRereads` | src/infoSheetEdit.ts:126-179 | An accepted edit's column, read again, holds the entries the edit left, text for text, and the same values exactly when nothing it wrote holds a number past the doubles, which JSON.stringify writes as null |
| `InfoSheetProofs.OthersKept` | src/infoSheetEdit.ts:7-9 | An edit that names one section drops, rewrites or adds that one entry, and every other keeps its stored text, byte for byte, in its order |
| `InfoSheetRules.UpsertRowRule` | src/infoSheetEdit.ts:157-176 | A row sent stands in the place of the first row with its id, or at the place asked when new, and no other row, field or section changes; refused exactly when the section or row is missing, already there or not a list of rows |
| `InfoSheetRules.DeleteRowRule` | src/infoSheetEdit.ts:164-168 | A deleted row leaves its section with the other rows in order and is reported with the place it had |
| `InfoSheetRules.UpsertSectionRule` | src/infoSheetEdit.ts:141-155 | A section sent new stands where asked, holding exactly what was sent; one that is there takes the title, order and strikethrough sent and keeps every other field |
| `InfoSheetRules.DeleteSectionRule` | src/infoSheetEdit.ts:137-140 | A deleted section leaves the others in order and is reported with the place it had |
| `InfoSheetRules.BulkAddsRule` | src/infoSheetEdit.ts:99-121 | After a bulk add the rows of each addition stand together in its section as sent, text, subheader, order and strikethrough, after the rows it had |
| `InfoSheetRules.BulkRule` | src/infoSheetEdit.ts:88-124 | A bulk add goes through exactly when every section it names is there, or new and not there, holds a list of rows, and no row id is on the sheet or in an earlier addition |
| `InfoSheetProofs.UnsafeRefused` | src/infoSheetEdit.ts:127-129 | A column that is not a JSON array is refused whatever the edit, and nothing is written over it |
| `InfoSheetRules.ColumnRule` | src/infoSheetEdit.ts:59-63 | A column that is no text, or text that is neither blank nor a list to JSON.parse, is refused whatever the edit; any other is edited as the list of its values, an absent or blank one as an empty list |
| `InfoSheetProofs.BulkKeepsEntries` | src/infoSheetEdit.ts:99-121 | A bulk add leaves a section it does not name as stored; one it names keeps all its rows in front and every other field |
| `InfoSheetProofs.SectionIdsKept` | src/infoSheetEdit.ts:101-155 | Every accepted edit keeps section ids distinct |
| `InfoSheetProofs.BulkKeepsRowsDistinct` | src/infoSheetEdit.ts:83-87 | A bulk add keeps every section's row ids distinct exactly when no addition repeats one of its own; clashes with the sheet are refused |
| `InfoSheetUndo.SectionUndone` | src/infoSheetEdit.ts:137-149 | On the list of entries, deleting a section and restoring it at its recorded place gives back the same list of values exactly when it held a list of rows and no other entry has its id |
| `InfoSheetUndo.SectionUndoneStored` | src/infoSheetEdit.ts:126-179 | The same through the stored column: deleted, written, read, restored, written and read again, the values are those there were exactly when, besides, the section holds no number past the doubles |
| `InfoSheetUndo.RowUndone` | src/infoSheetEdit.ts:157-176 | On the list of entries, deleting a row and restoring it at its recorded place gives back the same list of values exactly when no other row of the section has its id |
| `InfoSheetUndo.RowUndoneStored` | src/infoSheetEdit.ts:126-179 | The same through the stored column: the row deleted, the column written and read, the row restored, written and read again, the values are those there were exactly when no other row of the section has its id and the section, which both writes rewrite, holds no number past the doubles |
| `InfoSheetBulk.ReadRows` | src/infoSheetBulk.ts:43-50 | The rows of one addition are read in order, and refused at the first that is malformed or repeats an id of the body |
| `InfoSheetBulk.ParseBulkAdditions` | src/infoSheetBulk.ts:31-61 | The checks are made in the source's order over the whole body |
| `InfoSheetBulk.BulkAccepted` | src/infoSheetBulk.ts:31-61 | A body is accepted exactly when it has additions, each well formed with rows, no section and no row twice over the whole body, and at most 500 rows; the additions are then read as sent |
| `BulkRules.BodyRule` | src/infoSheetBulk.ts:31-61 | A body is read as a list of additions exactly when it is a list whose items say them, field by field, with no section twice, no row twice over the whole body and at most 500 rows |
| `InfoSheetBulk.ParsedAddsKeepRowsDistinct` | src/infoSheetBulk.ts:33-50 | A parsed bulk add that goes through keeps every section's row ids distinct |
| `InfoSheetLedger.Ledger.RecordChange` | src/infoSheetLedger.ts:37-48 | The rows appended for a change: one when both sides are single, else one a slice with the shared correlation id |
| `InfoSheetLedger.PartsJoin` | src/infoSheetLedger.ts:11 | Joined in order, the parts of a snapshot are the recorded value's text |
| `InfoSheetLedger.PartsFit` | src/infoSheetLedger.ts:16-34 | Whatever the text holds, every part is within the row budget, with 4,600 digits to spare for each count, which a text of fewer than 10^4600 code units keeps to |
| `InfoSheetLedger.ChangeReadsBack` | src/infoSheetLedger.ts:36-48 | Read back from the rows in order, both columns join to exactly what was recorded, under one correlation id |
| `InfoSheetLedger.PiecesRule` | src/infoSheetLedger.ts:16-48 | The i-th row holds the i-th piece of both sides: the whole text when it is at most 57,344 bytes, else its i-th stretch of 8,000 code units, part i + 1 of the number there are; and there are no more rows than pieces |
| `InfoSheetWrite.EveryRunKeeps` | src/infoSheetWrite.ts:105-155 | Over any interleaving of clients the version counts the commits, each commit was applied to exactly the sheet at the version its client named, and the ledger holds the rows of the committed writes and no others |
| `InfoSheetWrite.NoLostUpdate` | src/infoSheetWrite.ts:118-126 | No two commits ever named the same version |
| `InfoSheetWrite.WriteGoesThrough` | src/infoSheetWrite.ts:105-155 | A write left alone while the row is free goes through when it names the version there is and the edit is accepted, with the edited column, the next version and its ledger rows; otherwise it is refused with all as it was, the lock freed either way |
| `InfoSheetWrite.QuietStep` | src/infoSheetWrite.ts:110-113 | Nothing but a commit changes the sheet or the ledger: a refusal or a failure leaves both as they were |
| `InfoSheetWrite.LedgeredReadsBack` | src/infoSheetWrite.ts:69-81 | The rows of a ledgered write read back as what the edit took off and what it put back, else what it added, else the names of what it changed; any other write has none |
| `InfoSheetWrite.SheetStaysGood` | src/infoSheetWrite.ts:127-148 | From a sheet with distinct sections, no interleaving leaves one that can't be read or that holds a section twice |
| `MyobToken.EveryRunKeeps` | src/myob-auth.ts:163-196 | In every interleaving of callers and re-links, only the lock's holder is past the lock, what it read is still stored, and no two callers hold the same new pair |
| `MyobToken.PostsLastIssued` | src/myob-auth.ts:177-185 | A refresh posts the stored link's token, the one last issued exactly while no used answer is left unstored; and while no caller has been dropped between its post and its commit, one never posted before |
| `MyobToken.TakenIffUnspent` | src/myob-auth.ts:185 | MYOB takes a posted refresh exactly while no used answer is left unstored |
| `MyobToken.EachPostStored` | src/myob-auth.ts:185-188 | With no caller dropped, MYOB never refuses a refresh, no token is posted twice, and posts and commits pair up |
| `MyobToken.StoredTokenGood` | src/myob-auth-store.ts:105-115 | The stored refresh token is good exactly while it has not been used up by an exchange whose answer was never stored |
| `MyobToken.FreshTokenShared` | src/myob-auth.ts:157-173 | Nobody posts while the stored token is fresh |
| `MyobToken.CommittedPairServesAll` | src/myob-auth.ts:157-184 | A pair committed with a lifetime, by a refresh or a re-link, serves everyone until 60,000 ms before it ends: up to the next commit nobody posts and whoever looks, first or after waiting for the lock, gets that pair; from then on whoever holds the lock goes on to refresh |
| `MyobToken.LatePostStrands` | src/myob-auth.ts:189-192 | A concrete run in which a post outlives its caller and MYOB uses it afterwards also leaves a stored token MYOB no longer takes |
| `MyobToken.ReturnedIsStored` | src/myob-auth.ts:166-193 | In every run, whoever is given a token is given the stored one: fresh as it was found, on the first look or after waiting for the lock, or stored by that very caller |
| `MyobToken.LostAnswerStrands` | src/myob-auth.ts:189-192 | A concrete run in which an answer is lost after the post leaves a stored token MYOB no longer takes |
| `MyobToken.FileKept` | src/myob-link.ts:86-90 | Between any two moments of a run neither the link nor its company file is ever lost, and the file stays unless it moves to the configured one or, with none configured, is the first there is; a link stored without a file may take any |
| `GraphToken.Cache.GetGraphToken` | src/graph.ts:80-91 | A request returns the fresh cached token, joins the fetch in flight or starts the one fetch |
| `GraphToken.Cache.FetchAnswered` | src/graph.ts:73-76 | An answer fills the cache only when its fetch is of the current generation |
| `GraphToken.Cache.FetchSettled` | src/graph.ts:85-88 | A fetch that settles frees the slot only when the slot is its own |
| `GraphToken.Cache.ClearGraphTokenCache` | src/graph.ts:35-39 | A clear empties the cache and the slot and moves the generation on |
| `GraphToken.CacheIsCurrent` | src/graph.ts:25-28 | In every interleaving the cached token came from a fetch started after the last clear, and at most one such fetch is unsettled |
| `GraphToken.LateFetchIgnored` | src/graph.ts:74-88 | A fetch from before the last clear never fills the cache or frees the new slot |
| `GraphToken.OneFetchServesAll` | src/graph.ts:80-84 | A request starts a fetch exactly when nothing fresh is cached and no fetch since the last clear is unsettled |
| `GraphToken.AnswerServes` | src/graph.ts:69-77 | A token answered to a current fetch is given to everyone until 60,000 ms before the end of the life it came with, an hour when it names none, and after that callers wait |
| `GraphToken.GivenIsCurrent` | src/graph.ts:80-91 | A caller is given the cached token while it has more than 60,000 ms left, and else waits on the one fetch started since the last clear |
| `GraphToken.SlotIsFreed` | src/graph.ts:85-88 | A failed fetch never keeps the slot: it is free exactly when no fetch since the last clear is unsettled |
| `RoleCache.Cache.LookupRolesForOid` | src/auth.ts:199-219 | A request returns the person's fresh cached roles, joins their lookup in flight or starts one |
| `RoleCache.OneLookupEach` | src/auth.ts:148-157 | When no clear falls inside a lookup, a person never has two lookups running, and a request starts one only when nothing is cached or running |
| `RoleCache.AnswerServes` | src/auth.ts:199-219 | Roles answered to a person's lookup are given to their every request of the next 30,000 ms, whatever happens to other people, and not after |
| `RoleCache.ClearSafeIffIdle` | src/auth.ts:173-217 | From any sound state, a clear keeps one lookup a person in everything that can follow exactly when no lookup has still to settle |
| `RoleCache.ServedRolesAreRecent` | src/auth.ts:167-169 | Roles served from the cache were stored by an answered lookup less than its life ago, whatever the interleaving |
| `RoleCache.ClearLosesSlot` | src/auth.ts:173-177 | A clear during a lookup does break the slots: a concrete run with two lookups of one person |
| `Authority.FindRowLimit` | src/approvalAuthority.ts:317-325 | A role's limit is the highest of its rows, a NULL row being no limit |
| `Authority.FindHeldLimit` | src/approvalAuthority.ts:344-353 | The limit held is the highest over the candidate roles the person holds or implies, the director's being none |
| `Authority.FindThreshold` | src/approvalAuthority.ts:302-310 | The loop returns the threshold of the rule: the one set, or the highest row of any role but the director (what that means is AuthorityRules.ThresholdRule) |
| `Authority.BuildLadderRoute` | src/approvalAuthority.ts:399-407 | The ladder route is the sufficient eligible levels, sorted, then the director |
| `Authority.RowLimitCovers` | src/approvalAuthority.ts:317-329 | A role's limit covers an amount exactly when one of its rows does |
| `Authority.OrderOfRowsIrrelevant` | src/approvalAuthority.ts:185-277 | Neither the route nor the permission depends on the order, or the repeats, of the limits rows |
| `AuthorityProofs.RouteAndPermissionAgree` | src/approvalAuthority.ts:185-277 | Whoever holds no admin role and did not raise the order is allowed on own authority, or as a residence's approver, exactly when they answer some step of the route |
| `AuthorityProofs.AllowedStays` | src/approvalAuthority.ts:238-277 | An allowed amount stays allowed at every smaller known amount |
| `AuthorityProofs.AttributedIsCovered` | src/approvalAuthority.ts:222-228 | An attributed approval is of a quote, within the actor's attributed row and the director threshold, and names someone else who could approve it themselves |
| `AuthorityProofs.RouteRises` | src/approvalAuthority.ts:171-177 | A ladder route rises: limits ascending, unlimited last, ties in ladder order, every level covering the amount, the director at the end and admin nowhere |
| `AuthorityProofs.ResidenceRouteInOrder` | src/approvalAuthority.ts:179-183 | A residence's approvers stand in route order: occupants and property managers before owners, each group by name |
| `AuthorityProofs.ClickApproves` | src/approvalOutcome.ts:85-110 | On a real record a click approves, other than on a named manager's say-so, exactly when the item is not the director's and the person, admin role aside, answers a step of the route and did not raise the order |
| `AuthorityProofs.OutcomeRule` | src/approvalOutcome.ts:85-110 | Every click's outcome: an administrator and nothing else is refused on a real record, what is the director's waits for the director, and any other click comes to what the person may, admin role aside |
| `AuthorityRules.DirectorRule` | src/approvalAuthority.ts:185-210 | An item goes to the director exactly when its amount is unknown, or it is off a residence and the amount is above zero and above the threshold set or, with none set, above every number on a row of a role other than director, there being one |
| `AuthorityRules.ThresholdRule` | src/approvalAuthority.ts:302-310 | The threshold is the positive one set or, with none set, the highest number on a row of a role other than director |
| `AuthorityRules.DirectorOnlyRule` | src/approvalAuthority.ts:238-277 | What goes to the director a director who did not raise it may approve and nobody else |
| `AuthorityRules.CreatorRule` | src/approvalAuthority.ts:238-277 | Who raised a purchase order may not approve it, whatever their limit |
| `AuthorityRules.ResidenceRule` | src/approvalAuthority.ts:238-277 | On a residence exactly its approvers active on the day may approve, and a director where the director stands in |
| `AuthorityRules.LimitRule` | src/approvalAuthority.ts:238-277 | Everywhere else exactly who holds a row covering the amount may, on own authority; and on a quote, who holds a row of facilities covering it and names another person who may |
| `AuthorityRules.ReportedLimit` | src/approvalAuthority.ts:344-353 | A refusal reports the highest limit the person has, their own or with someone's say-so |
| `AuthorityRules.LadderRule` | src/approvalAuthority.ts:399-407 | The ladder has each eligible role with a row covering the amount exactly once, with its highest limit, in order of limit and then of the ladder, and the director at the end |
| `AuthorityRules.ResidenceRouteRule` | src/approvalAuthority.ts:179-183 | A residence's route has its approvers active on the day, each as often as listed, and the director at the end exactly where the director stands in |
| `Variance.History.AcceptedVarianceAmount` | src/moneyVariance-db.ts:54-74 | The accepted amount is the highest undisputed rise measured from the quote, on the order or anywhere on the job |
| `Variance.History.Apply` | src/moneyVariance-db.ts:105-162 | An edit is decided on the stored history, and only an accepted or overridden rise is added to it |
| `Variance.RisesStayBounded` | src/moneyRules.ts:282-358 | Over any run of rises, disputes and other jobs' edits, an amount let through against a positive original rises by at most the cap and by at most the percentage of the original, and passes no limit or threshold the original was at or under, unless a director let at least as much through before |
| `Variance.DecisionRule` | src/moneyRules.ts:282-358 | A new amount needs nothing exactly when it is no rise; a rise is within tolerance exactly when it is within the cap and the percentage, passes no limit or threshold, has a rationale, and a manager, the editor or someone else named, may approve it; otherwise the reason is the first thing wrong, which only a director with a reason overrides |
| `Variance.UnknownAmountRule` | src/moneyRules.ts:286-292 | With no new amount only a director with a reason lets the edit through |
| `Variance.RecordRule` | src/moneyVariance-db.ts:162-200 | An edit leaves one undisputed rise, of its job, order, quote and new amount, when it is within tolerance or overridden with its figures, and nothing otherwise |
| `Variance.AcceptedStaysAccepted` | src/moneyVariance-db.ts:54-74 | An amount let through once, and any below it, needs nothing more on its order or its job |
| `Variance.DisputeRule` | src/moneyVariance-db.ts:51-53 | A disputed rise no longer counts, and every other counts as before |
| `Variance.UnmeasuredWithoutOriginal` | src/moneyRules.ts:283-284 | With no original, or one of nothing, every amount goes through unmeasured |
| `Variance.RiseIsAgreed` | src/moneyRules.ts:342-357 | A rise within the margin has a rationale and a manager, the editor or someone else they name, who answers a step of the route for the new amount |
| `Variance.DisputeUncovers` | src/moneyVariance-db.ts:51-53 | A dispute never raises the amount that counts as accepted |
| `JobFlow.TableReadings` | src/jobStatusMachine.ts:57-66 | The transition list read by event and read by the status it lands on agree: a status can be picked exactly when some event takes the job there, and both land alike |
| `JobFlow.SummariseInvoices` | src/jobTransitionFacts.ts:31-58 | The four facts are counts over the live invoices of the job |
| `JobFlow.FactsMean` | src/jobTransitionFacts.ts:26-30 | The counters say exactly that every live incoming invoice is paid to the cent, and exactly that all are fully approved and every approved one is in MYOB |
| `JobFlow.DoneIffEarned` | src/jobTransitionGuard.ts:129-154 | A move takes a job to Done exactly when it is earned: an internal job by hand; any other from (Awaiting Approval, accounts), by the system with every incoming invoice paid, or by a person with all approved and in MYOB |
| `JobRules.PickRule` | src/jobTransitionGuard.ts:116-135 | A person's pick is accepted exactly when they hold a staff role, the job is not done, the pick leads somewhere and the records show what that place needs, a quote for facilities' approval among them; it lands on the state written out, holds remembering where the job was |
| `JobRules.PickAnswer` | src/jobTransitionGuard.ts:116-135 | A refused pick's reason is the first of those that applies |
| `JobRules.ReopenRule` | src/jobTransitionGuard.ts:137-146 | A reopen is accepted exactly for a senior with a reason and a done job, and lands on accounts' approval, or on work for an internal job |
| `JobRules.PaidRule` | src/jobTransitionGuard.ts:148-154 | The payments read back close a job exactly when the system says so, the job is with accounts and every live incoming invoice is paid to the cent |
| `JobRules.EventRule` | src/jobStatusMachine.ts:57-66 | What each event of the other handlers does to a job, from which states |
| `JobRules.EventsMatchPicks` | src/jobStatusMachine.ts:57-66 | An event and the pick that means the same take a job to the same place |
| `JobFlow.EveryDoneEarned` | src/jobTransitionGuard.ts:116-172 | In every run, every entry into Done was earned on the records of that moment |
| `JobFlow.DoneLeftByReopen` | src/jobTransitionGuard.ts:137-146 | Done is left only by a manager's reopen with a reason, back to where the job type reopens |
| `JobFlow.DoneUntilReopened` | src/jobTransitionGuard.ts:137-146 | In any run, a job that was done is as it was until a manager reopens it with a reason |
| `JobFlow.WorkEarned` | src/jobTransitionGuard.ts:126-128 | Work starts only on an approved quote, a contract or an internal job, when a person moves it, or by the quote's approval or its order |
| `JobFlow.HoldThenResume` | src/jobStatusMachine.ts:109-118 | A hold and the resume that ends it give back the state the job was held from, whatever was tried in between |
| `JobFlow.NothingClosedUnworked` | src/jobStatusMachine.ts:57-66 | A job that is never internal is neither waiting on accounts nor done before it has been in Work |
| `LeaseEvent.AtMostFive` | src/leaseEventMachine.ts:134-160 | No lease event lives through more than five steps |
| `LeaseEvent.FiveIsReached` | src/leaseEventMachine.ts:38-40 | A late notice after a lapse takes all five |
| `LeaseEvent.ExercisedHistory` | src/leaseEventMachine.ts:146-150 | An option is exercised exactly by one recorded notice and its approval as the last two steps, inside the window or on a director's override |
| `LeaseEvent.RenewalHistory` | src/leaseEventMachine.ts:153-158 | A renewal is decided exactly by a referral and one decision, into what the director decided, and cancelled only in place of the decision |
| `LeaseEvent.RulesAreMachine` | src/leaseEventMachine.ts:134-160 | The rules by event are, state by state, the machine written out: which events are legal where, on which facts, and where each leads |
| `LeaseEvent.DecidedIsFinal` | src/leaseEventMachine.ts:94-101 | Once decided an event stays decided; only a lapse can be reopened, and only by a late notice |
| `LeavePolicy.Walk` | src/leavePolicy.ts:57-65 | The walk up from a link ends, and says whether it met someone again |
| `LeavePolicy.ParseReporting` | src/leavePolicy.ts:37-67 | The checks are made in the source's order and the kept links are those among active staff |
| `LeavePolicy.WalksEndIffAcyclic` | src/leavePolicy.ts:57-65 | With one link a person, every walk ends exactly when the links have no cycle |
| `LeavePolicy.ParseAccepts` | src/leavePolicy.ts:37-67 | A body is accepted exactly when it has at most 500 well-formed links and those among active staff name qualified managers, one a person, without a cycle |
| `LeaveRules.LinksRule` | src/leavePolicy.ts:37-67 | A body is accepted exactly when it has at most 500 links, each between staff the manager's role may manage, one a person, and no list of people each reporting to the next comes back to its start; otherwise the reason is the first thing wrong |
| `LeaveRules.KeptRule` | src/leavePolicy.ts:37-50 | The links kept are those between active staff, in the order sent |
| `LeavePolicy.ChainsEnd` | src/leavePolicy.ts:57-65 | Without a cycle, following managers from anyone ends within as many steps as there are links |
| `LeavePolicy.CyclesAreSenior` | src/leavePolicy.ts:16-25 | Everyone on a cycle of qualified links is the CFO or a director |
| `Calendar.ShiftGrows` | src/leaseOptions.ts:158-163 | More months always land strictly later, month ends clamped |
| `Calendar.SumsAgree` | src/darwinDate.ts:49-55 | The two month sums of the repository agree on every date but one: 29 February of year 0 |
| `Calendar.NextDayIsNext` | src/leaseOptions.ts:230-233 | The day after is the next calendar day exactly outside the years 0 to 99, which Date.UTC moves to the 1900s |
| `Calendar.PreviousUndoesNext` | src/leaseOptions.ts:230-233 | From year 100 on, a day later and a day earlier undo each other |
| `Calendar.DaysCountUp` | src/leaseOptions.ts:230-233 | From year 100 on the next day is the next in the day numbering of the Gregorian calendar |
| `Calendar.ShiftIsSameDay` | src/leaseOptions.ts:158-163 | So many months on is the same day of that month, or its last day when it has none |
| `OptionTerm.StepRows` | src/leaseOptions.ts:303-310 | The loop builds one row an interval until the term is covered |
| `OptionTerm.BuildOptionTermSteps` | src/leaseOptions.ts:288-312 | The rows are those of the term's dates, none when it can't be dated, and a throw when its first day can't be read back |
| `OptionTerm.OptionRowsTile` | src/leaseOptions.ts:278-312 | For every expiry, term and interval the rows tile the span from the day after the expiry to so many months on, the i-th starting i intervals in, term over interval rounded up of them, with the plan's percentage and methods, the start method on the first only; the new expiry is the day before the span's end |
| `OptionTerm.EmptyWhenUndated` | src/leaseOptions.ts:288-295 | There are no rows exactly when there is no readable expiry or no term of at least a month |
| `OptionTerm.ThrowsOnLastDay` | src/leaseOptions.ts:296 | The rows can't be built exactly for an expiry of 31 December 9999 |
| `OptionTerm.InExactlyOneRow` | src/leaseOptions.ts:283-284 | Every date of the term is in exactly one row |
| `OptionTerm.WindowBeforeExpiry` | src/leaseOptions.ts:195-215 | There is a notice window exactly with real dates, an option left and at least a month's notice: its deadline is the expiry's day that many months before, its opening six months before that, both inside the window |
| `NextReview.Latest` | src/nextReviewDate.ts:78-82 | One pass finds the latest date |
| `NextReview.NextAnniversary` | src/nextReviewDate.ts:86-92 | The search returns the first anniversary after the latest of the settled dates, up to the cap |
| `NextReview.DeriveNextReviewDate` | src/nextReviewDate.ts:100-125 | The derivation in the source's steps: first open review, else an anniversary, else nothing |
| `NextReview.DerivedAfterLast` | src/nextReviewDate.ts:106-107 | The derived date is strictly after the last review date |
| `NextReview.DerivedIsLeast` | src/nextReviewDate.ts:100-125 | In the derivation's own terms: the earliest open review, or else the least anniversary of the anchor after every settled and resolved date |
| `NextReviewRules.OpenRule` | src/nextReviewDate.ts:100-112 | While some review is neither resolved nor passed and is after the last, the earliest such |
| `NextReviewRules.AnniversaryRule` | src/nextReviewDate.ts:113-125 | With none, the first of 2,400 anniversaries of the latest commencement row, else of the lease's commencement, else of the earliest row, that comes after that start, the last review, every resolved date and every review of the schedule; none exactly when there is no such anniversary or nothing to count from |
| `NextReview.DerivedMovesOn` | src/nextReviewDate.ts:117-124 | Once the derived review is done the next derived date is strictly later; there is none only when no anniversary up to the cap comes after everything settled |
| `NextReview.ReviewsNeverRepeat` | src/nextReviewDate.ts:100-125 | Doing each derived review in turn gives strictly later dates |
| `CpiSync.ExtractObservations` | src/cpiAbs.ts:391-422 | A series is accepted exactly when its observations, sorted, are one a quarter from the start period with no value missing and the last recent enough |
| `CpiRules.OrderedRule` | src/cpiAbs.ts:391-400 | The observations read are the response's, sorted by quarter, and there are none exactly when a value is missing |
| `CpiSync.OrderedKeepsPeriods` | src/cpiAbs.ts:396 | Sorting the response loses and repeats no quarter |
| `CpiSync.PlanRegion` | src/cpiIndexSync.ts:137-202 | A plan is refused exactly when a stored quarter is later than the series' last, and otherwise counts and collects what differs |
| `CpiSync.CpiIndex.WritePlans` | src/cpiIndexSync.ts:217-244 | The plans are written region by region, each row upserted and the fetched range confirmed |
| `CpiSync.CpiIndex.SyncCpiIndex` | src/cpiIndexSync.ts:309-333 | A sync commits exactly when every value is representable, no series regresses and no statement fails; otherwise the rows are as they were |
| `CpiRules.AcceptedRule` | src/cpiIndexSync.ts:137-148 | A sync is accepted exactly when every value is a whole number of thousandths and no region has a stored quarter after its series' last |
| `CpiRules.StoredRule` | src/cpiIndexSync.ts:217-244 | After an accepted sync every quarter fetched holds its series' value, base and source, and every other row is as it was, or missing as it was |
| `CpiRules.CountsRule` | src/cpiIndexSync.ts:160-182 | A quarter counts as inserted when not stored, unchanged when stored the same, restated when on another base, updated otherwise; all but the unchanged are written, in order |
| `CpiSync.CountsAddUp` | src/cpiIndexSync.ts:160-182 | Inserted, updated, restated and unchanged add up to fetched, and all but the unchanged are written |
| `CpiSync.SyncMatchesSeries` | src/cpiIndexSync.ts:217-244 | After a commit every fetched quarter holds the series' value and base, and every row outside the fetched ranges is untouched |
| `CpiSync.SecondSyncWritesNothing` | src/cpiIndexSync.ts:170-176 | The same sync again is not refused, writes no value and counts every quarter unchanged |
| `CpiSync.LatestIsFetched` | src/cpiIndexSync.ts:141-148 | After a commit the latest stored quarter of a region is the series' last |
| `CpiSync.NeverGoesBack` | src/cpiIndexSync.ts:143-147 | Over any run of syncs no stored quarter is lost, so the latest never goes back |
| `Migrate.Session.Apply` | src/migrate.ts:126-156 | A file is applied whole and recorded, or rolled back, or, without a transaction, left at the batches that had gone through |
| `Migrate.Session.RunMigrations` | src/migrate.ts:167-212 | A run takes the lock, refuses an unsafe set, and applies the pending files in order to the first failure |
| `Migrate.TransactionalAllOrNothing` | src/migrate.ts:126-156 | Over any sequence of runs failing at any statement, the file corrected between them or not: as long as the versions met before it is recorded are transactional, none of its batches has taken effect while it is unrecorded, and once it is, exactly those of the version applied have, under that version's checksum |
| `Migrate.RecordedNotReapplied` | src/migrate.ts:69 | No recorded file is applied again, whatever is on disk |
| `Migrate.RecordedStays` | src/migrate.ts:69 | Once recorded, a file's record and effects stay as they are through every later run |
| `Migrate.UnsafeAppliesNothing` | src/migrate.ts:158-164 | A run that meets a changed or invalid file applies nothing |
| `Migrate.RunAppliesPrefix` | src/migrate.ts:198-203 | A run applies a prefix of the pending files whole, in order |
| `MigrateRules.RunRule` | src/migrate.ts:167-212 | A run without the lock, or over a recorded file of another text or a new one that can't be read, changes nothing; any other applies the new files in name order for as far as its statements go, the setting, the batches, the record and a transaction's two ends, and of the next file leaves nothing, or without a transaction the batches gone through |
| `Migrate.RerunResumes` | src/migrate.ts:198-203 | A rerun over the same files resumes at the first unrecorded one, in name order |
| `Migrate.PartLeftBehind` | src/migrate.ts:150-152 | A failed apply leaves something behind exactly when the file runs without a transaction and one of its batches had gone through |
| `MyobCalls.Client.Request` | src/myob-api-log.ts:190-271 | The call's trace: guard, headers, then a stored row, a send and an outcome for each try |
| `MyobRules.GuardRule` | src/myob-request-guard.ts:86-121 | A call passes exactly when it is a token call, or its record is real, named, inside the period and not a test, its file's mode and own control row let the operation through with nothing paused, and a write is neither in dry run nor past its allowance, nor on a record that is not ours where that is asked |
| `MyobRules.RefusalRule` | src/myob-request-guard.ts:86-121 | A refused call's reason is the first thing wrong, in the order checked |
| `MyobRules.RequestRule` | src/myob-api-log.ts:190-271 | What a call logs and sends over everything the world can answer: a stored row, a send and an outcome, once more after a 429, or a server error on a read; and how it ends |
| `MyobRules.CountRule` | src/myob-controls-store.ts:76-101 | The calls the allowance counts are those with a request row of the day, sent by POST or PUT, that the allowlist knows as the operation on the file in the path |
| `MyobCalls.WritesToday` | src/myob-controls-store.ts:93-100 | The loop adds the query's groups up by file and operation |
| `MyobCalls.GroupedCount` | src/myob-controls-store.ts:76-101 | The sum over the groups counts each of the day's calls of a file and operation exactly once, however many attempts it took |
| `MyobCalls.SentAfterStored` | src/myob-api-log.ts:220-234 | Each send follows at once the stored row of the same call and attempt |
| `MyobCalls.AtMostTwoSends` | src/myob-api-log.ts:130-134 | At most two sends, and a write goes out again only after a 429 |
| `MyobCalls.RefusedSendsNothing` | src/myob-api-log.ts:200-218 | A refused call sends nothing and stores no request row; refused by the guard it builds no headers |
| `MyobCalls.DayWithinCap` | src/myob-controls.ts:63-69 | Over any sequential run of calls in one day, the writes logged for a file and operation never exceed its allowance |
| `MyobCalls.RepeatIsFree` | src/myob-controls-store.ts:86 | A call repeating a verb, path and correlation id already logged that day is not counted again, so the allowance bounds calls, not sends |
| `MyobCalls.SendsWithinCap` | src/myob-controls-store.ts:82-101 | The writes sent in a day number the calls counted exactly when no two of the day's requests share verb, path and correlation id, and then they keep within the allowance as well |
| `MyobCalls.ReusedIdPassesCap` | src/myob-controls-store.ts:86 | Otherwise they need not: with an allowance of two, a write that reuses its id is sent as often as it is made |
| `Acronym.BaseAcronym` | src/contractor-acronym.ts:29-45 | The base is the initials of the first three words, filled from the first word and then with X |
| `Acronym.GenerateAcronym` | src/contractor-acronym.ts:47-75 | The code is the first free candidate in the order they are tried, and the throw is having none |
| `AcronymRules.ChoiceRule` | src/contractor-acronym.ts:47-99 | The code is the suggestion of the name's words; that taken, the first free swap of its last letter, of its middle one, of its first, by an unused letter of the name in order; else the least free number from 2 to 99; and none exactly when all are taken |
| `AcronymRules.WordsAre` | src/contractor-acronym.ts:29-45 | The words of a name are its letter runs: they start exactly at the letters with none before, in order, and each goes on to the next character that is no letter |
| `Acronym.GeneratedIsFree` | src/contractor-acronym.ts:47-75 | A generated code is three characters, a letter first, and not taken |
| `Acronym.ThrowsOnlyWhenCrowded` | src/contractor-acronym.ts:77-99 | There is no code left only when at least 99 are taken |
| `Acronym.Registry.EnsureContractorAcronym` | src/contractor-acronym-db.ts:18-60 | A contractor's code is returned as it is, or the first free one is assigned; a failure changes nothing |
| `AcronymRules.EnsureRule` | src/contractor-acronym-db.ts:18-60 | Only a contractor without a code of more than white space gets one, the one chosen beside those in use, and nothing else of the table changes; none when a statement fails or none is free |
| `AcronymRules.InUseRule` | src/contractor-acronym-db.ts:18-40 | The codes in use are those any contractor has and the internal one |
| `Acronym.CodesStayDistinct` | src/contractor-acronym-db.ts:11-17 | Over any sequence of serialised calls codes stay distinct and clear of the internal one, and a code once assigned never changes |

## Left out

- HTTP handlers, sign-in token verification, blob storage, mail, Planner and the network itself: libraries around the rules, modelled where needed as answers a step receives.
- SQL text: each table is a map or a sequence with the locks and transactions the source names.
- Encryption of the stored tokens, hashing and UUIDs: identity is all the properties use.
- The allowlist's patterns (`src/myob-endpoints.ts`) and the statement scanner of `src/migrate-files.ts`: their answers are inputs.
- The SDMX response format of `src/cpiAbs.ts` and its retries: only what is checked of the observations is modelled, and the report fields `newPeriods`, `previousBases` and `baseChanged` are not.
- `parseOptionPeriods` of `src/leaseOptions.ts`: a grammar of free text, each clause a local check.
- `leaveApprovers` of `src/leavePolicy.ts`: a filter over the staff.
- `src/maintenanceOverview.ts`: groupings and counts that follow from each comprehension.
- Messages, labels and notices: refusals are cases of a datatype.
- MyobToken.StoredTokenGood: does not model MYOB withdrawing a grant on its own, which no code here can see.
- MyobToken.EveryRunKeeps: takes the save and its commit as one step, so a commit whose own answer is lost is a failure before it.
- Migrate.TransactionalAllOrNothing: takes a failed commit as rolled back, as the source does.
- Migrate.PartLeftBehind: takes each batch as whole or not at all; outside a transaction, a batch of several statements may leave its first ones behind when a later one fails, before any batch has gone through.
- NextReview.DerivedIsLeast: compares dates as dates, as the source's text comparison does for years of four digits; anniversaries past the year 9999 are not modelled.
- RemovalSizes.RowsFitLedger: is stated for row counts of at most 4,101 digits, a bound no removal reaches.
- RemovalBuilders.LevelNeverRefused: takes the widths the columns and the input limits allow as its hypothesis, and counts of rooms, contributors, points and photo records of at most 20 digits.
- JobFlow.EveryDoneEarned: covers the moves the guard decides and the five events other handlers raise; a status written by hand in the database is outside it.
- MyobCalls.DayWithinCap: is of calls made one after another, as the allowance is read before a call is logged; two calls checked at once can both pass.
- Authority.BuildLadderRoute: sorts with a stable insertion sort in place of the built-in sort, to the same order.
- InfoSheetEdit.Lawful: holds the fields of a record in no order, and field names as strings without lone surrogates; the text a record is written as is one of those JSON.stringify may give.
- InfoSheetEdit.AddAllRows: keeps the titles of the sections touched out of what it reports as added; the sheet itself is modelled whole.
