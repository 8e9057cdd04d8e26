# Quicklee kanban board: a Dafny model

Quicklee's front end is a kanban board for parcel-delivery jobs. A *board*
(column) has a numeric id, a title ("Pending", "Assigned", "In Transit",
"Completed") and an ordered list of *job cards*. A card carries a job id, the
parcel, pickup and delivery details, the assigned driver, how many times a
driver has been assigned, its status (the title of the column it sits in) and
its creation and update timestamps.

The model covers two parts of that system:

- **The mock record store** (`src/services/api.ts`, module `Store`). A
  `MockBoardApi` object owns the board collection and changes it in place.
  It offers `getBoards`, `addCard`, `updateCard`, `deleteCard` and
  `moveCard`, and signals errors with 'Board not found', 'Card not found' and
  'Target board not found'. The model is a Dafny `class` with
  `boards: seq<Board>`, so every method changes that field. The source's
  `for`-loops become `while` loops with invariants. Each method is proved
  against a pure function of the old collection: `Added`, `Updated`,
  `Deleted` and `Moved`/`MoveOutcome`. The counting and uniqueness
  properties are lemmas about those functions.
- **The dashboard's board reducers** (`src/TrelloDashboard.tsx`, module
  `Dashboard`). These are the state transitions of the React component:
  drag start and drop, adding a card, deleting a card, and the edit modal
  (open, close, save). Each state update is a pure function from the current
  `View` to the next one. The `View` holds the boards plus the drag, new-card
  and edit state.

Module `Kanban` holds what both parts share:
- the generic card and board records;
- board lookup (`find`) and card lookup (`findIndex`);
- the `filter` used by both deletes;
- id counting: `AllIds`, `JobCount`, `TotalCards` and the `UniqueJobIds`
  invariant.

Timestamps (`new Date().toISOString()`) and generated job ids
(`generateJobId()`) are parameters: `now` and `jobId`.

## Model

| member | source | states |
|---|---|---|
| Kanban.FindBoard | src/services/api.ts:177 | Returns the index of the first board with the given id, or None exactly when no board has that id. |
| Kanban.FindCardIndex | src/services/api.ts:186 | Returns the lowest index of a card with the job id, or None exactly when the list holds none. |
| Kanban.Locate | src/services/api.ts:185-191 | Scans the boards from `from` onwards. Returns the first board holding the job id and that board's first matching index, or None exactly when no later board holds it. |
| Kanban.WithoutJob | src/services/api.ts:199 | The filtered list is no longer than the input. Every card in it comes from the input and carries a different id. |
| Kanban.WithoutJobMembers | src/services/api.ts:199 | A card survives the filter if and only if its job id differs from the removed id. |
| Kanban.WithoutJobCount | src/services/api.ts:199 | The filtered list is shorter by exactly the number of cards carrying the id. |
| Kanban.WithoutJobConcat | src/services/api.ts:199 | The filter distributes over concatenation, so the cards it keeps stay in their original order. |
| Kanban.WithoutJobIds | src/services/api.ts:199 | The ids of the filtered list are the old id multiset with every copy of the removed id taken out. |
| Kanban.FilterBoardCounts | src/TrelloDashboard.tsx:304-308 | Filtering one board lowers that id's count and the total card count by that board's occurrences. No other id's count changes. |
| Kanban.InAllIds | src/services/api.ts:185-191 | An id appears in the collection if and only if some board holds a card with it. |
| Kanban.TransferOneId | src/TrelloDashboard.tsx:238-258 | Filtering a card out of one board and appending a card with that id to another keeps the id multiset and the total card count. This holds when the card appears once on the first board. |
| Store.Added | src/services/api.ts:175-181 | None exactly when no board has the id. Otherwise the first such board gets the card appended and no other board changes. |
| Store.Updated | src/services/api.ts:183-193 | None exactly when no board holds the job id. Otherwise the columns and every board's length are unchanged. |
| Store.UpdatedReplacesOne | src/services/api.ts:185-190 | The located position, and only that one, now holds the updated card. |
| Store.Deleted | src/services/api.ts:195-200 | None exactly when no board has the id. Otherwise the named board loses every card with that job id and the other boards are untouched. |
| Store.RemoveFirst | src/services/api.ts:204-211 | Deletes the first located occurrence of the id and nothing else. When there is none, the collection is unchanged. |
| Store.Restamped | src/services/api.ts:217 | The copy has the new status and timestamp, and every other field of the given card. |
| Store.Moved | src/services/api.ts:202-219 | After the removal, the target board found in the reduced collection gets the restamped card appended. If the target is missing, the result is the reduced collection. |
| Store.MoveOutcome | src/services/api.ts:213-214 | `moveCard` fails with TargetBoardNotFound exactly when no board has the target id. |
| Store.SeedBoards | src/services/api.ts:12-167 | The seeded collection has four columns with ids 1 to 4, titled Pending, Assigned, In Transit and Completed, holding 2, 1, 1 and 1 cards. |
| Store.MockBoardApi.constructor | src/services/api.ts:11-167 | The collection starts as the four seeded columns. |
| Store.MockBoardApi.GetBoards | src/services/api.ts:169-173 | Returns the current collection. |
| Store.MockBoardApi.AddCard | src/services/api.ts:175-181 | Fails with BoardNotFound and changes nothing when no board has the id. Otherwise returns the card and the new collection is `Added`. |
| Store.MockBoardApi.UpdateCard | src/services/api.ts:183-193 | The loop finds the first board holding the id. The method then returns the card and the new collection is `Updated`. Otherwise it fails with CardNotFound and leaves the collection unchanged. |
| Store.MockBoardApi.DeleteCard | src/services/api.ts:195-200 | Fails with BoardNotFound and changes nothing when no board has the id. Otherwise the new collection is `Deleted`. |
| Store.MockBoardApi.MoveCard | src/services/api.ts:202-219 | The loop removes the first card with the id and then breaks. The outcome is `MoveOutcome` and the new collection is `Moved`, including when the target is missing. |
| Store.AddedCounts | src/services/api.ts:175-181 | Adding a card adds exactly one card and exactly one copy of its id to the id multiset. |
| Store.UpdatedCounts | src/services/api.ts:183-193 | Updating keeps the total card count and the id multiset, because the replacement has the same id. Unique job ids stay unique. |
| Store.DeleteAbsentIsNoOp | src/services/api.ts:195-200 | Deleting an id the named board does not hold leaves the collection unchanged. |
| Store.DeletedCounts | src/services/api.ts:195-200 | The board loses every copy of the id. The id's count and the total count drop by the number of copies. Every other id's count is unchanged. |
| Store.RemoveFirstCounts | src/services/api.ts:204-211 | The removal loop takes out exactly one card and one copy of its id, or nothing if the id is absent. |
| Store.MoveToMissingBoardLosesCard | src/services/api.ts:204-214 | When the target is missing, `moveCard` fails but the source card has already been removed: one card and one id fewer. |
| Store.MovedCounts | src/services/api.ts:202-219 | With a valid target, a held id keeps the total and the id multiset. An absent id adds one card and one copy of the id. |
| Store.MovePreservesUniqueIds | src/services/api.ts:202-219 | Moving a card held exactly once keeps job ids unique and keeps the total card count. |
| Store.MovedLandsLast | src/services/api.ts:213-218 | The moved copy is the last card of the target board. It carries the new status and timestamp. |
| Store.SeedInvariants | src/services/api.ts:12-167 | The seed has distinct board ids, statuses that match the titles, and five cards. |
| Dashboard.IsSet | src/TrelloDashboard.tsx:232 | JavaScript truthiness of a board id: null and 0 are both unset, and any other id is set. The same test guards the save at line 340. |
| Dashboard.HandleDragStart | src/TrelloDashboard.tsx:222-225 | Records the dragged card and its source board. Nothing else changes. |
| Dashboard.DropAccepted | src/TrelloDashboard.tsx:232-235 | A drop goes ahead exactly when a card is dragged, the source board id is neither null nor 0, and some board has the target id. |
| Dashboard.DropColumn | src/TrelloDashboard.tsx:239-257 | One board under the drop's `map`: the source board loses every copy of the card and keeps all other cards. Otherwise a target board gets the restamped card appended after its old cards. Any other board is unchanged, and every board keeps its id and title. |
| Dashboard.HandleDrop | src/TrelloDashboard.tsx:231-264 | When the guards reject the drop, nothing changes. Otherwise only the boards change and the drag state is cleared. The columns stay the same. |
| Dashboard.DropBetweenColumns | src/TrelloDashboard.tsx:238-258 | For a drop between two different columns: source boards lose every copy of the card, target boards get the restamped card appended, and other boards are unchanged. |
| Dashboard.DropPreservesStatus | src/TrelloDashboard.tsx:234-250 | With distinct board ids, every card's status still equals its column's title. |
| Dashboard.DropTouchesTwoBoards | src/TrelloDashboard.tsx:238-258 | With distinct board ids, only the source and target boards change. |
| Dashboard.DropOntoOwnColumnDeletesCard | src/TrelloDashboard.tsx:239-246 | As written, dropping a card on its own column removes it from that column and nowhere re-adds it. |
| Dashboard.HandleDropIntended | src/TrelloDashboard.tsx:231-264 | The corrected drop clears the drag state when accepted, keeps the columns, and does nothing when rejected. |
| Dashboard.DropKeepsJobs | src/TrelloDashboard.tsx:231-264 | The corrected drop keeps the id multiset and the total card count, given the card appears once on its source board. |
| Dashboard.DropOntoOwnColumnIsNoOp | src/TrelloDashboard.tsx:239-246 | The corrected drop onto the card's own column leaves the boards unchanged. |
| Dashboard.NewCard | src/TrelloDashboard.tsx:269-292 | A new card has the given id and the column's status. It has no driver, an assignment count of 0, and both timestamps set to now. |
| Dashboard.AddCard | src/TrelloDashboard.tsx:266-301 | Nothing happens for an unknown board. Otherwise the new card is appended and the new-card form closes. The columns are unchanged. |
| Dashboard.AddCardTouchesOneBoard | src/TrelloDashboard.tsx:294-298 | With distinct board ids, only the named board changes. |
| Dashboard.AddCardAppends | src/TrelloDashboard.tsx:294-298 | The named board's cards become the old cards plus the new card, whose status is the board's title. |
| Dashboard.AddCardCounts | src/TrelloDashboard.tsx:266-301 | Adds exactly one copy of the new id. A fresh id keeps job ids unique. |
| Dashboard.AddCardPreservesStatus | src/TrelloDashboard.tsx:289 | With distinct board ids, statuses still equal column titles. |
| Dashboard.DeleteCard | src/TrelloDashboard.tsx:303-309 | Only the boards change and the columns stay the same. |
| Dashboard.DeleteCardRemoves | src/TrelloDashboard.tsx:303-309 | Boards with the id lose exactly the cards carrying the job id. The state is unchanged if and only if no such board holds it. |
| Dashboard.DeleteCardTouchesOneBoard | src/TrelloDashboard.tsx:304-308 | With distinct board ids, only the named board changes. |
| Dashboard.DeleteCardCounts | src/TrelloDashboard.tsx:303-309 | The id's count and the total count drop by the copies removed from the named board. No other id's count changes. |
| Dashboard.DeleteCardKeepsUnique | src/TrelloDashboard.tsx:303-309 | Deleting keeps job ids unique. |
| Dashboard.DeleteCardPreservesStatus | src/TrelloDashboard.tsx:303-309 | Statuses still equal column titles. |
| Dashboard.OpenEditModal | src/TrelloDashboard.tsx:311-332 | Records the card and its board. The form mirrors the card's fields and driver. Nothing else changes. |
| Dashboard.CloseEditModal | src/TrelloDashboard.tsx:334-337 | Clears the editing card and board. Nothing else changes. |
| Dashboard.EditedCard | src/TrelloDashboard.tsx:345-353 | The saved card keeps its id, status, creator and creation time. It takes the form's details and driver, and the update time becomes now. |
| Dashboard.AssignmentCount | src/TrelloDashboard.tsx:350 | The driver assignment count never decreases. It rises by one exactly when the form names a driver and the card had none. |
| Dashboard.EditedCards | src/TrelloDashboard.tsx:345-354 | Saving keeps the length and exact id sequence of the editing board's cards. |
| Dashboard.SaveCardChanges | src/TrelloDashboard.tsx:339-360 | Does nothing unless a truthy board id and a card are being edited. Otherwise it closes the modal and keeps the columns. |
| Dashboard.SaveEditsOnlyMatching | src/TrelloDashboard.tsx:341-357 | Only matching cards on the editing board change. Each becomes `EditedCard` of itself, and its counter rises by one exactly when the form names a driver and the card had none. The id multiset is kept, and statuses still match titles. |
| Dashboard.SameIdsSameAllIds | src/TrelloDashboard.tsx:341-357 | Boards with the same ids, board by board, have the same ids overall. |
| Dashboard.OpenThenSaveOnlyRestamps | src/TrelloDashboard.tsx:311-360 | Opening a card and saving it unedited changes only its update time. The form mirrors the card, so the driver and the assignment count stay the same. |
| Dashboard.ApplyEdits | src/TrelloDashboard.tsx:339-360 | After a sequence of saves, the card keeps its id and status and has the last form's driver. |
| Dashboard.AssignmentsSnoc | src/TrelloDashboard.tsx:350 | The assignments in a sequence of edits are those of its prefix, plus the last edit if it assigns a driver to an unassigned card. |
| Dashboard.ReplayCountsAssignments | src/TrelloDashboard.tsx:350 | After any sequence of saves, the assignment count equals the initial count plus the number of saves that gave an unassigned card a driver. |
| Dashboard.SeedColumns | src/TrelloDashboard.tsx:51-196 | The seeded columns have ids 1 to 4, are titled Pending, Assigned, In Transit and Completed, and hold 2, 1, 1 and 1 cards. |
| Dashboard.InitialView | src/TrelloDashboard.tsx:198-220 | The initial state holds the seeded columns, nothing dragged and no form or modal open. The edit form is blank, with no driver, pricing 1 and priority green. No drop is accepted and a save changes nothing. |
| Dashboard.SeedInvariants | src/TrelloDashboard.tsx:51-196 | The seeded columns have distinct ids, statuses that match the titles, and five cards. |
| Dashboard.SeedDropOntoOwnColumn | src/TrelloDashboard.tsx:239-246 | On the seed, dropping the first Pending job onto Pending leaves four jobs, and that job is gone. |
| Dashboard.SeedMoveToAssigned | src/TrelloDashboard.tsx:231-264 | On the seed, dragging a Pending job to Assigned puts it at the end of Assigned with status "Assigned". |
| Dashboard.SeedAssignDriver | src/TrelloDashboard.tsx:339-360 | On the seed, saving a driver for an unassigned job raises its assignment count from 0 to 1 and stamps it with now. Reassigning or unassigning an assigned job leaves its count at 1. |

## Left out

- The simulated network delays in `getBoards`, `addCard`, `updateCard`, `deleteCard` and `moveCard` are not modelled. They are timers with no effect on the data. Each method is one atomic step.
- Concurrency between overlapping store calls is not modelled, because the store is a single object.
- Store.MockBoardApi.GetBoards: the source returns the live array. Later in-place changes are visible through it. The model returns a value copy, so that aliasing is not captured.
- Store.MockBoardApi.AddCard: the stored card and the returned card are the same object in the source. In the model they are equal values.
- `new Date().toISOString()` and `generateJobId()` (src/TrelloDashboard.tsx:47-49) are the parameters `now` and `jobId`. Timestamps are kept as opaque strings, so "the update time is later than before" is not stated.
- The seed timestamps are kept as the literal strings passed to `new Date(...)`, such as "2024-01-09T09:30:00". The source stores their `toISOString()` form, which depends on the time zone and ends in milliseconds and "Z". No property depends on these values.
- Dashboard.NewCard: both timestamps are the one parameter `now`. The source calls `new Date()` twice (src/TrelloDashboard.tsx:290-291), so the two times may differ by a millisecond.
- `formatDateTime` (src/TrelloDashboard.tsx:371-379) and `getPriorityColor` are not modelled. They are locale formatting and class-name lookup for rendering.
- The JSX rendering, `handleDragOver` (a `preventDefault`) and the form fields' `onChange` handlers are not modelled. The edit form is modelled by its contents only.
- The `pricing` field is an integer. The source's `parseInt` of the input, with its NaN case, is not modelled.
- `src/hooks/useBoardData.ts` and `src/constants.ts` (area options) are not part of this model.
- Dashboard.DropPreservesStatus, Dashboard.AddCardPreservesStatus and the "touches one board" lemmas assume distinct board ids. The source's updates apply to every board with a matching id. The functions themselves model that behaviour, without the assumption.
- Dashboard.DropKeepsJobs is stated for the corrected drop and for a card that appears once on its source board. For a card that appears several times, the filter removes every copy.

## Findings

| source | as written | input that shows it | evidently intended | confidence | as-written member | corrected member |
|---|---|---|---|---|---|---|
| src/TrelloDashboard.tsx:239-246 | In `handleDrop`, the source-board test runs before the target-board test. A card dropped on the column it came from is filtered out and never re-appended. The job disappears from the board. | The seeded "Pending" column (id 1) holds two jobs. Drag its first job and drop it on board 1: Pending keeps one card and the total falls from 5 to 4. | Dropping a card on its own column leaves the boards as they were. Any drop keeps every job on the board. | not executed | Dashboard.DropOntoOwnColumnDeletesCard, Dashboard.SeedDropOntoOwnColumn | Dashboard.HandleDropIntended, Dashboard.DropOntoOwnColumnIsNoOp, Dashboard.DropKeepsJobs |
