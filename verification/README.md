# TaskFlow core in Dafny

TaskFlow is a collaborative Kanban board. Boards hold lists, lists hold
tasks, and every change is recorded as an activity. An Express/Mongoose
backend serves the REST routes and relays socket events between clients.
A React client keeps a zustand store and applies drag-and-drop moves
optimistically.

This project models that core as pure functions over immutable values and
proves what each operation promises.

- **Backend store** (`store.dfy`). The database is one `Store` value holding
  four sequences (boards, lists, tasks, activities) in insertion order. An
  id counter stands in for fresh ObjectIds. A logical clock stands in for
  `Date.now`.
- **Route handlers** (`boards.dfy`, `lists.dfy`, `tasks.dfy`). Each handler
  is a function from the store, the authenticated caller and the request
  fields to a `Reply`: the next store, the HTTP status and the body.
- **Schemas** (`schema.dfy`). These are the Mongoose validators, defaults
  and pre-save hooks of Board, List, Task and Activity.
- **Socket server** (`realtime.dfy`). This covers the handshake, join and
  leave of `board-<id>` rooms, and the relay table.
- **Client store** (`client_store.dfy`). These are the zustand reducers.
  Client objects are JSON values (`Doc`), and `{ ...a, ...b }` is a
  right-biased map merge.
- **Board page** (`board_view.dfy`). This covers the task columns, the
  drag-end reducer with its request and emit, and the remote-event filter.
- **Small components** (`pagination.dfy`, `activity_panel.dfy`,
  `user_selector.dfy`, `task_card.dfy`). These are the page bar, the
  relative-time and action labels, the assignee picker, and the initials
  and "+N" avatar row.

`seqs.dfy`, `text.dfy` and `wrappers.dfy` hold the generic pieces:
- filter, stable sort by key, skip/limit windows and `Math.ceil` pages;
- trimming, upper-casing and decimal rendering;
- `Option` and `Result`.

## Where the code and its description differ

The model follows the code in each case:

- **A blank title gives 500, not 400.** `body('title').notEmpty().trim()`
  checks emptiness before trimming. So `"   "` passes the 400 check, is
  trimmed to `""` and is rejected by the schema, and the catch-all answers
  500 (`BoardRoutes.CreateBoard`, `ListRoutes.CreateList`,
  `TaskRoutes.CreateTask`). `PUT /tasks/:id` has no sanitizer at all, so a
  blank title there is also a 500 (`TaskRoutes.BlankTaskTitleFails`).
- **A dangling board reference gives 500.** List and task routes look the
  board up through the document's `board` reference and dereference
  `board.owner` without a null check. A dangling reference is therefore a
  500, not a 404 (`Store.GateByRef`).
- **One activity survives a board deletion.** `DELETE /boards/:id` wipes
  the board's activities and then logs `board_deleted`. That one activity
  survives the board (`BoardRoutes.DeleteBoard`).
- **The reorder routes check only that the body is an array.** A body
  that is not an array is a 400. Beyond that there is no validation, no
  access check, no board check and no activity log. The task variant can put
  a task in a list of another board
  (`TaskRoutes.ReorderTasksCanBreakAgreement`). The list variant can store a
  negative position (`ListRoutes.ReorderListsStoresNegativePosition`). After
  that, every `PUT /lists/:id` on that list that does not also send a
  non-negative position answers 500 (`ListRoutes.NegativePositionBlocksUpdate`).
  A `POST /lists` on that board fails while the board's highest position is
  below -1 (`ListRoutes.CreateListAccepts`).
- **Route handlers never broadcast.** Their `req.io` is always undefined,
  because the server only calls `app.set('io', io)`
  (`Store.RoutesNeverBroadcast`).
- **A drag drops the dragged task from the client store.** `handleDragEnd`
  splices the dragged task out of the copied array and never puts it back.
  It then commits that shorter array with `reorderTasks`. A successful move
  request does not reload the board, so the moved card is missing until the
  next load (`BoardView.DragLosesTask`, `BoardView.AfterDrag`).
- **Empty colours pass validation.** A Mongoose `match` validator skips the
  empty string. So a board background or a label colour of `""` is saved
  (`Schema.SaveBoard`, `Schema.EmptyColourLabelSaves`).

## Model

| member | source | states |
|---|---|---|
| Schema.ParseAction | backend/src/models/activity.js:14-31 | the action enum admits a name only as the kind whose name it is |
| Schema.ActionNamesAdmitted | backend/src/models/activity.js:17-30 | every one of the twelve kinds a handler logs is admitted by the enum |
| Schema.UnknownActionRejected | backend/src/models/activity.js:14-31 | a name that is no kind's name is rejected |
| Schema.ActionNamesInjective | backend/src/models/activity.js:17-30 | the twelve names are pairwise distinct |
| Schema.ParseEntity | backend/src/models/activity.js:32-36 | the entity enum admits a name only as the entity whose name it is |
| Schema.EntityNamesAdmitted | backend/src/models/activity.js:32-36 | board, list, task and member are all admitted |
| Schema.NewBoard | backend/src/models/board.js:4-29 | the title is trimmed; description defaults to '' and background to #0079bf |
| Schema.BoardPreSave | backend/src/models/board.js:40-50 | after the hooks the owner is a member, and it is appended only when missing; updatedAt is refreshed; nothing else changes |
| Schema.SaveBoard | backend/src/models/board.js:4-50 | a save succeeds iff the title has 1..100 UTF-16 units, the description at most 500, and the background is empty (which the match validator does not test) or a hex colour; the saved board keeps its owner among its members |
| Schema.NewBoardAccepted | backend/src/models/board.js:4-29 | a board built from request fields is accepted iff its trimmed title has 1..100 UTF-16 units, its description at most 500 and its background (default or given) is empty or matches the pattern |
| Schema.BlankBoardTitleRejected | backend/src/models/board.js:4-10 | a title of blanks is rejected |
| Schema.PaletteColoursValid | backend/src/models/board.js:25-29 | the default and all ten palette colours satisfy the background pattern |
| Schema.SaveList | backend/src/models/list.js:3-34 | a save succeeds iff the title has 1..100 UTF-16 units and the position is at least 0; it refreshes updatedAt |
| Schema.AstralListTitleRejected | backend/src/models/list.js:8-9 | a title of 51 characters outside the Basic Multilingual Plane is 102 units long and is rejected |
| Schema.NewTask | backend/src/models/task.js:3-57 | the title is trimmed; description defaults to '', completed to false, dueDate to null |
| Schema.SaveTask | backend/src/models/task.js:3-72 | a save succeeds iff the title has 1..200 UTF-16 units, the description at most 2000, the position is at least 0, and every label's colour is absent, empty or a hex colour and its text at most 50 units |
| Schema.BadLabelRejectsTask | backend/src/models/task.js:35-44 | one label with a non-empty colour outside the pattern, or with text over 50 units, makes the task unsaveable |
| Schema.EmptyColourLabelSaves | backend/src/models/task.js:36-39 | adding a label whose colour is the empty string keeps a saveable task saveable |
| Store.Gate | backend/src/routes/boards.js:46-55 | 404 for an absent board, then 403 unless the caller is the owner or a member; passes iff the board exists and the caller has access |
| Store.GateByRef | backend/src/routes/lists.js:62-67 | a dangling board reference is a 500, then 403 without access |
| Store.UpdatedTitle | backend/src/routes/boards.js:100-114 | a missing or blank requested title keeps the old title; any other is stored trimmed and non-empty |
| Store.LogActivity | backend/src/routes/boards.js:10-20 | appends exactly one activity unless the write fails; never changes boards, lists or tasks; broadcasts iff io is set and the write succeeded |
| Store.RoutesNeverBroadcast | backend/src/server.js:161 | no route handler's activity is broadcast |
| Store.ActivitiesOf | backend/src/routes/boards.js:225 | exactly the activities of the board, every copy kept: each activity occurs as often as in the log if it belongs to the board, and not at all otherwise |
| BoardRoutes.ListBoards | backend/src/routes/boards.js:22-37 | exactly the boards the caller owns or is a member of, most recently updated first |
| BoardRoutes.GetBoard | backend/src/routes/boards.js:39-68 | 404 then 403; otherwise exactly the board's own lists and tasks, each sorted by position |
| BoardRoutes.CreateBoard | backend/src/routes/boards.js:70-97 | 400 for a missing or empty title; on success the title is stored trimmed, a given background (the empty string included) is stored as given, the caller is the owner and sole member, one board is appended and one board_created activity is logged |
| BoardRoutes.CreateBoardAccepts | backend/src/routes/boards.js:70-97 | creation succeeds iff the title is given and non-empty, trims to 1..100 UTF-16 units, the description has at most 500, and the background is absent, empty or a hex colour |
| BoardRoutes.UpdateBoard | backend/src/routes/boards.js:99-128 | 404 then 403; succeeds exactly when the board admits the caller and the updated title, description and background pass the schema; title and background are overwritten only when non-empty, description whenever given; owner and members are kept; only that board is replaced; a failed activity write leaves the activities as they were |
| BoardRoutes.PurgeBoard | backend/src/routes/boards.js:142-144 | removes exactly the lists, tasks and activities of the board |
| BoardRoutes.DeleteBoard | backend/src/routes/boards.js:130-153 | 404, then 403 for anyone but the owner; afterwards the board_deleted activity is the only activity of the deleted board |
| BoardRoutes.DeleteBoardCascades | backend/src/routes/boards.js:142-146 | a successful delete removes exactly the board and its lists and tasks; every other document stays |
| BoardRoutes.AddMember | backend/src/routes/boards.js:155-183 | 404, 403 for non-owners, 400 for an existing member; succeeds exactly when the owner adds a non-member to a board that passes the schema; the members then gain exactly the new user at the end; a failed activity write leaves the activities as they were |
| BoardRoutes.RemoveMember | backend/src/routes/boards.js:185-207 | 404, 403 for non-owners; succeeds exactly when the owner asks and the board passes the schema; every occurrence of the user goes, and the owner stays a member even when removed; a failed activity write leaves the activities as they were |
| BoardRoutes.NewestPage | backend/src/routes/boards.js:225-229 | the page is the skip/count window of the activities in stable newest-first order, so at most count of them |
| BoardRoutes.Activities | backend/src/routes/boards.js:209-243 | 404 then 403; a negative skip is a 500; otherwise the page is the window of the board's activities sorted newest first that skips (page-1)*limit and holds at most \|limit\|, with totalPages = ceil(total/limit) |
| BoardRoutes.ActivitiesPageShape | backend/src/routes/boards.js:225-236 | for page >= 1 and a positive limit the request succeeds, the page is the (page-1)*limit offset window of the sorted feed, and totalPages is the ceiling of total/limit |
| BoardRoutes.ActivitiesPageNonEmptyIff | backend/src/routes/boards.js:225-236 | with a positive limit, an activity page is non-empty iff page <= totalPages |
| BoardRoutes.CreateBoardKeepsOwnersMembers | backend/src/models/board.js:45-50 | creating a board keeps every owner among its board's members |
| BoardRoutes.UpdateBoardKeepsOwnersMembers | backend/src/models/board.js:45-50 | updating a board keeps every owner among its members |
| BoardRoutes.DeleteBoardKeepsOwnersMembers | backend/src/routes/boards.js:130-153 | deleting a board keeps every owner among its members |
| BoardRoutes.MemberRoutesKeepOwnersMembers | backend/src/routes/boards.js:155-207 | adding or removing a member keeps every owner among its members |
| BoardRoutes.DeleteBoardKeepsTasksAgreeing | backend/src/routes/boards.js:142-143 | after a board delete every task still has its list's board |
| ListRoutes.CreateList | backend/src/routes/lists.js:21-53 | 400, then 404, then 403, all before any write; the new list's position is exactly one more than the highest position on its board, or 0 when the board has none; one list_created activity |
| ListRoutes.NextListPosition | backend/src/routes/lists.js:41-42 | above every position on the board, 0 for a board without lists, and one more than some list's position otherwise |
| ListRoutes.TwoListsInFreshBoard | backend/src/routes/lists.js:41-42 | two lists created one after the other on a board that had none get positions 0 and then 1 |
| ListRoutes.OnlyListOfBoard | backend/src/routes/lists.js:41-42 | after one list at position 0 is added to a board that had none, the board's next position is 1 |
| ListRoutes.CreateListAccepts | backend/src/routes/lists.js:21-53 | creation succeeds iff the fields are present, the gate passes, the trimmed title has 1..100 UTF-16 units and the next position is not negative |
| ListRoutes.UpdateList | backend/src/routes/lists.js:55-81 | 404, 500 for a dangling board, 403; succeeds exactly when the board admits the caller, the resulting title has 1..100 UTF-16 units and the resulting position is not negative; the title changes only when non-blank, the position whenever given; the board never changes |
| ListRoutes.DeleteList | backend/src/routes/lists.js:83-106 | the list and exactly the tasks of that list go; one list_deleted activity |
| ListRoutes.DeleteListRemovesOnlyIt | backend/src/routes/lists.js:97-99 | every other list stays |
| ListRoutes.SetListPosition | backend/src/routes/lists.js:116-118 | one update sets the position of the lists with that id and nothing else |
| ListRoutes.ApplyListPositions | backend/src/routes/lists.js:116-120 | each list ends with the position of the last batch entry for its id |
| ListRoutes.ReorderLists | backend/src/routes/lists.js:108-126 | 400 for a non-array; otherwise only list positions change, with no access check and no activity |
| ListRoutes.ReorderListsIdempotent | backend/src/routes/lists.js:108-126 | sending the same batch twice equals sending it once |
| ListRoutes.ReorderListsStoresNegativePosition | backend/src/routes/lists.js:116-118 | the bulk update stores a negative position, which the schema's minimum forbids |
| ListRoutes.NegativePositionBlocksUpdate | backend/src/routes/lists.js:55-81 | on a list with a negative position, an update without a position is a 500 that writes nothing; one with a position of 0 or more succeeds exactly when the resulting title has 1..100 UTF-16 units |
| ListRoutes.CreateListKeepsTasksAgreeing | backend/src/routes/lists.js:41-46 | creating a list keeps every task agreeing with its list's board |
| ListRoutes.UpdateListKeepsTasksAgreeing | backend/src/routes/lists.js:69-73 | updating a list keeps tasks agreeing |
| ListRoutes.DeleteListKeepsTasksAgreeing | backend/src/routes/lists.js:97-99 | deleting a list keeps tasks agreeing |
| ListRoutes.ReorderListsKeepsTasksAgreeing | backend/src/routes/lists.js:116-120 | reordering lists keeps tasks agreeing |
| TaskRoutes.NextTaskPosition | backend/src/routes/tasks.js:43-44 | strictly above every sibling position, 0 for an empty list, and one more than some sibling's position otherwise |
| TaskRoutes.Draft | backend/src/routes/tasks.js:43-56 | the board is copied from the list; assignees and labels default to empty; the position is past every sibling |
| TaskRoutes.InsertTask | backend/src/routes/tasks.js:46-63 | a schema rejection is a 500 with no write; otherwise the task is appended at the list's next position with the list's board and one task_created activity is logged |
| TaskRoutes.InsertTaskAccepts | backend/src/routes/tasks.js:46-63 | the insertion succeeds exactly when the trimmed title has 1..200 UTF-16 units, the description at most 2000, the list's next position is not negative and every label passes |
| TaskRoutes.DraftValid | backend/src/routes/tasks.js:46-58 | the drafted task passes the Task schema exactly when its title, description, next position and labels do |
| TaskRoutes.CreateTask | backend/src/routes/tasks.js:21-68 | 400 for a missing title or list id, then 404, 500 for a dangling board, 403; nothing is written on failure; a success is the insertion into the requested list |
| TaskRoutes.CreateTaskAccepts | backend/src/routes/tasks.js:21-68 | the route answers 201 exactly when title and list id are given, the list exists, its board admits the caller and the drafted task passes the schema |
| TaskRoutes.TwoTasksInFreshList | backend/src/routes/tasks.js:43-44 | two tasks created in a list that had none get positions 0 and then 1 |
| TaskRoutes.TwoInsertsInFreshList | backend/src/routes/tasks.js:43-58 | two insertions into a list that had no tasks, when both succeed, store positions 0 and then 1 |
| TaskRoutes.InsertTaskPosition | backend/src/routes/tasks.js:43-44 | a successful insertion stores the list's next position |
| TaskRoutes.OnlyTaskOfList | backend/src/routes/tasks.js:43-44 | after one task at position 0 is added to a list that had none, the list's next position is 1 |
| TaskRoutes.GetTask | backend/src/routes/tasks.js:70-93 | 404, 500 for a dangling board, 403; otherwise the stored task |
| TaskRoutes.Patched | backend/src/routes/tasks.js:110-117 | title, assignees and labels change only when truthy; description, due date, completion and position whenever defined; list and board never |
| TaskRoutes.UpdateTask | backend/src/routes/tasks.js:95-129 | 404, 500, 403; succeeds exactly when the board admits the caller and the patched task passes the schema; it then replaces only that task; one task_updated activity |
| TaskRoutes.BlankTaskTitleFails | backend/src/routes/tasks.js:111 | a blank title in an update is a 500 and writes nothing |
| TaskRoutes.MoveTask | backend/src/routes/tasks.js:131-171 | 404, 500, 403, then 400 for a missing list or one on another board; succeeds exactly when, beyond that, a position is given, it is not negative and the task's other fields pass the schema; only list and position change, to exactly the requested values |
| TaskRoutes.DeleteTask | backend/src/routes/tasks.js:173-196 | 404, 500, 403; exactly that task goes; one task_deleted activity |
| TaskRoutes.SearchTasks | backend/src/routes/tasks.js:198-243 | 404 then 403; only the board's tasks that match q when it is non-empty; the page is the window that skips (page-1)*limit of the hits sorted most recently updated first and holds at most \|limit\|; totalPages = ceil(total/limit) |
| TaskRoutes.SearchWindow | backend/src/routes/tasks.js:223-229 | the window is the skip/count offset window of the hits in stable most-recently-updated-first order |
| TaskRoutes.SearchPageNonEmptyIff | backend/src/routes/tasks.js:227-236 | with a positive limit, a page is non-empty iff it is at most totalPages |
| TaskRoutes.SetTaskPosition | backend/src/routes/tasks.js:254-256 | one update sets list and position of the tasks with that id and nothing else |
| TaskRoutes.ApplyTaskPositions | backend/src/routes/tasks.js:254-258 | each task ends as the last batch entry for its id left it |
| TaskRoutes.ReorderTasks | backend/src/routes/tasks.js:245-264 | 400 for a non-array; otherwise only task lists and positions change, with no access or board check |
| TaskRoutes.ReorderTasksIdempotent | backend/src/routes/tasks.js:245-264 | sending the same batch twice equals sending it once |
| TaskRoutes.ReorderTasksCanBreakAgreement | backend/src/routes/tasks.js:254-256 | a task can be put into a list of another board |
| TaskRoutes.CreateTaskKeepsTasksAgreeing | backend/src/routes/tasks.js:49-50 | a created task has its list's board, so agreement is kept |
| TaskRoutes.UpdateTaskKeepsTasksAgreeing | backend/src/routes/tasks.js:110-119 | updating a task keeps agreement |
| TaskRoutes.MoveTaskKeepsTasksAgreeing | backend/src/routes/tasks.js:148-157 | a move checks the destination's board, so agreement is kept |
| TaskRoutes.DeleteTaskKeepsTasksAgreeing | backend/src/routes/tasks.js:188-189 | deleting a task keeps agreement |
| Seqs.NextPosition | backend/src/routes/lists.js:41-42 | above every position given, 0 when there are none, one past the largest otherwise |
| Seqs.TotalPages | backend/src/routes/boards.js:236 | ceil(total/limit); null for a zero limit |
| Seqs.PageNonEmptyIff | backend/src/routes/boards.js:228-236 | with a positive limit, page p is non-empty iff p <= ceil(total/limit) |
| Seqs.SortByStable | frontend/src/components/Board.jsx:147-151 | sorting by key keeps the input order of equal keys |
| Text.Trim | backend/src/models/board.js:7 | no leading or trailing JavaScript whitespace (spaces, tabs, the Unicode space separators, line terminators and the byte-order mark) remains |
| Text.TrimInfix | backend/src/models/board.js:7 | the trimmed string is a contiguous piece of the input with only whitespace before and after it |
| Text.TrimEmptyIff | backend/src/routes/boards.js:71 | a string trims to empty iff every character is JavaScript whitespace, U+3000 and the line separators included |
| Text.TrimIdempotent | backend/src/routes/boards.js:71 | trimming twice (sanitizer, then schema setter) is trimming once |
| Text.Utf16Length | backend/src/models/board.js:8-9 | the JavaScript length that minlength and maxlength compare is between the character count and twice it, zero only for the empty string, and equal to the character count when every character is in the Basic Multilingual Plane |
| Text.Utf16LengthAstral | backend/src/models/board.js:8-9 | a string of characters outside the Basic Multilingual Plane counts two units per character |
| Realtime.Handshake | backend/src/server.js:62-76 | no token or an empty one is refused; otherwise the verifier decides |
| Realtime.Connect | backend/src/server.js:62-79 | a refused socket leaves the hub unchanged; an accepted one joins no room |
| Realtime.RoomName | backend/src/server.js:84 | a room is "board-" followed by the board id's text |
| Realtime.RoomNameInjective | backend/src/server.js:84 | different board ids give different rooms |
| Realtime.RelayScope | backend/src/server.js:95-153 | eleven events go to the room minus the sender, three to the whole room, any other to nobody |
| Realtime.Handle | backend/src/server.js:83-157 | join and leave change only the sender's rooms; a relay reaches exactly the room its payload names, the sender iff whole-room and in the room; disconnect forgets the socket |
| Realtime.JoinIdempotent | backend/src/server.js:83-86 | joining twice is joining once |
| Realtime.LeaveUnjoinedNoop | backend/src/server.js:88-91 | leaving a room not joined changes nothing |
| Realtime.LeaveStopsDelivery | backend/src/server.js:88-153 | after leaving, a socket receives none of that board's relays |
| Realtime.OutsiderReachesRoom | backend/src/server.js:121-123 | a sender not in the room still reaches its members |
| Realtime.DisconnectedReceivesNothing | backend/src/server.js:155-157 | a disconnected socket receives nothing |
| ClientStore.Spread | frontend/src/store/store.js:34 | the merge has both sides' keys, and the update's values win |
| ClientStore.SpreadIdempotent | frontend/src/store/store.js:34 | spreading the same update twice is spreading it once |
| ClientStore.SetAuth | frontend/src/store/store.js:8-12 | saves the user and token and stores them in the state with isAuthenticated set, whatever the token |
| ClientStore.Logout | frontend/src/store/store.js:14-18 | removes both saved items and clears user, token and isAuthenticated |
| ClientStore.Restore | frontend/src/store/store.js:4-6 | a page load starts from the saved user and token, signed in iff the saved token is a non-empty string |
| ClientStore.ReloadAfterSetAuth | frontend/src/store/store.js:4-12 | a reload after signing in gives back the same state iff the token is non-empty |
| ClientStore.ReloadAfterLogout | frontend/src/store/store.js:4-18 | a reload after signing out gives back the signed-out state |
| ClientStore.SetBoards | frontend/src/store/store.js:28 | only the board list is replaced |
| ClientStore.SetCurrentBoard | frontend/src/store/store.js:29 | only the open board is replaced |
| ClientStore.SetBoardData | frontend/src/store/store.js:30 | the open board, lists and tasks are replaced wholesale; the board list is kept |
| ClientStore.SetLoading | frontend/src/store/store.js:63 | only the loading flag changes |
| ClientStore.PatchWhere | frontend/src/store/store.js:52-54 | exactly the objects with that id get the update merged in; length and order are kept |
| ClientStore.PatchKeepsIds | frontend/src/store/store.js:52-54 | an update that keeps the id keeps every position's id |
| ClientStore.PatchIdempotent | frontend/src/store/store.js:52-54 | the same update applied twice equals once |
| ClientStore.WithoutId | frontend/src/store/store.js:55-57 | exactly the objects without that id remain, each with all its copies |
| ClientStore.WithoutIdIdempotent | frontend/src/store/store.js:55-57 | removing twice equals once, and an unknown id changes nothing |
| ClientStore.WithoutIdAppend | frontend/src/store/store.js:55-57 | removal goes object by object in order: it distributes over concatenation, and one object stays iff it lacks the id |
| ClientStore.AddBoard | frontend/src/store/store.js:32 | the board is prepended; every other field stays |
| ClientStore.UpdateBoard | frontend/src/store/store.js:33-36 | patches the matching boards and the open board exactly when its id matches; every other field stays |
| ClientStore.RemoveBoard | frontend/src/store/store.js:37-40 | drops the boards with that id and closes the open board iff it had that id; every other field stays |
| ClientStore.AddList | frontend/src/store/store.js:42 | the list is appended; every other field stays |
| ClientStore.UpdateList | frontend/src/store/store.js:43-45 | patches exactly the lists with that id; every other field stays |
| ClientStore.OutsideList | frontend/src/store/store.js:48 | exactly the tasks of other lists remain, each with all its copies |
| ClientStore.OutsideListAppend | frontend/src/store/store.js:48 | dropping a list's tasks goes task by task in order and distributes over concatenation |
| ClientStore.RemoveList | frontend/src/store/store.js:46-49 | the list and exactly its tasks go, keeping the order and copies of the rest; boards, the open board and the loading flag stay |
| ClientStore.AddTask | frontend/src/store/store.js:51 | the task is appended without an id check; every other field stays |
| ClientStore.AddTaskTwiceDuplicates | frontend/src/store/store.js:51 | a task added twice is present twice more |
| ClientStore.UpdateTask | frontend/src/store/store.js:52-54 | patches exactly the tasks with that id; every other field stays |
| ClientStore.RemoveTask | frontend/src/store/store.js:55-57 | exactly the tasks with that id go; every other field stays |
| ClientStore.MoveTask | frontend/src/store/store.js:58-60 | only list and position of the matching tasks change; no sibling is renumbered; every other field stays |
| ClientStore.ReorderTasks | frontend/src/store/store.js:61 | the task array is replaced as given; nothing else changes |
| BoardView.TasksByList | frontend/src/components/Board.jsx:147-151 | a column holds exactly the list's tasks, sorted by position |
| BoardView.TasksByListStable | frontend/src/components/Board.jsx:147-151 | tasks with equal positions keep their store order |
| BoardView.FindIndex | frontend/src/components/Board.jsx:88 | the first index with that id, or -1 when there is none |
| BoardView.DestOrder | frontend/src/components/Board.jsx:94-96 | the indices of the destination's tasks, each once, by position |
| BoardView.RankOfIndex | frontend/src/components/Board.jsx:99-101 | a task's rank in the column is its index there |
| BoardView.InsertAt | frontend/src/components/Board.jsx:98 | the slot is the drop index, capped at the column length |
| BoardView.Renumbered | frontend/src/components/Board.jsx:94-101 | destination tasks get their column index shifted past the slot; all other tasks are unchanged |
| BoardView.RenumberedInRange | frontend/src/components/Board.jsx:99-101 | new positions lie in 0..column length and skip the slot |
| BoardView.RenumberedKeepsOrder | frontend/src/components/Board.jsx:94-101 | renumbering keeps the column's order |
| BoardView.RenumberedFillsColumn | frontend/src/components/Board.jsx:98-101 | every position but the slot is taken by some task |
| BoardView.RenumberedKeepsFields | frontend/src/components/Board.jsx:99-101 | only positions change |
| BoardView.RenumberedKeepsIds | frontend/src/components/Board.jsx:99-101 | every task keeps its id |
| BoardView.HandleDragEnd | frontend/src/components/Board.jsx:76-117 | no destination, the same spot or a non-task drag is ignored; an empty task array throws; otherwise the committed array is the spliced array with the destination column renumbered, one shorter, and the request carries the destination list and index |
| BoardView.SpliceIndex | frontend/src/components/Board.jsx:88-89 | the dragged task's index, or the last index when no task has the id |
| BoardView.Spliced | frontend/src/components/Board.jsx:89 | one element is removed and later ones shift down |
| BoardView.CommittedKeepsIds | frontend/src/components/Board.jsx:87-103 | the committed array is the original with the spliced index skipped |
| BoardView.DragLosesTask | frontend/src/components/Board.jsx:87-103 | with unique ids the committed array no longer holds the dragged task; every other task keeps its place |
| BoardView.UnknownDragDropsLast | frontend/src/components/Board.jsx:88-89 | an unknown id loses the last task; the rest keep all fields but position |
| BoardView.MovedPayload | frontend/src/components/Board.jsx:112-117 | the emit carries the board, task, list and position |
| BoardView.AfterDrag | frontend/src/components/Board.jsx:103-121 | the committed array is stored; success emits and leaves lists, the open board and the loading flag alone; failure reloads the board data wholesale |
| BoardView.RequestAndEmitAgree | frontend/src/components/Board.jsx:107-117 | request and emit name the destination list and index |
| BoardView.ApplyRemote | frontend/src/components/Board.jsx:48-74 | only events of the open board with a listener change the store, through the matching reducer (a deleted list or task goes exactly as the store's own removal does) |
| BoardView.RemoteUpdateIdempotent | frontend/src/components/Board.jsx:61-63 | the same remote update twice equals once |
| Pagination.Window | frontend/src/components/Pagination.jsx:6-11 | the window starts at 1 or later, ends at the total or earlier, and spans at most five pages |
| Pagination.WindowBounds | frontend/src/components/Pagination.jsx:6-11 | with the current page in range, 1 <= start <= current <= end <= total and the window spans min(5, total) pages |
| Pagination.Buttons | frontend/src/components/Pagination.jsx:13-15 | the ascending run from start to end, the current page highlighted |
| Pagination.Render | frontend/src/components/Pagination.jsx:1-74 | nothing for at most one page; shortcuts, ellipses and disabled buttons exactly as the window dictates |
| Pagination.RenderHighlightsCurrent | frontend/src/components/Pagination.jsx:28-65 | exactly one highlighted button, the current page's; each shortcut shows iff its page is not among the buttons |
| ActivityPanel.FormatTime | frontend/src/components/ActivityPanel.jsx:71-84 | each bucket holds exactly its interval, and the count is the floor of the difference in that unit |
| ActivityPanel.AgeText | frontend/src/components/ActivityPanel.jsx:79-83 | the text of each bucket |
| ActivityPanel.FormatTimeMonotone | frontend/src/components/ActivityPanel.jsx:74-83 | an older timestamp never gets a finer unit, nor a smaller count in the same unit |
| ActivityPanel.ActionLabel | frontend/src/components/ActivityPanel.jsx:31-47 | a known action gets its label; any other string is returned unchanged |
| ActivityPanel.ActionLabelsDistinct | frontend/src/components/ActivityPanel.jsx:31-47 | the twelve labels are pairwise different and never the raw name |
| ActivityPanel.ActionIcon | frontend/src/components/ActivityPanel.jsx:49-65 | an unknown action gets the bullet |
| ActivityPanel.KnownActionsHaveIcons | frontend/src/components/ActivityPanel.jsx:49-65 | no known action gets the bullet |
| ActivityPanel.LoadFeed | frontend/src/components/ActivityPanel.jsx:18-23 | a served feed page is the n-th run of twenty of the board's activities in newest-first order, so at most 20 entries, all of that board |
| UserSelector.RemoveUser | frontend/src/components/UserSelector.jsx:60-62 | drops every entry with that id and keeps every other entry with all its copies; an unselected id changes nothing |
| UserSelector.RemoveUserAppend | frontend/src/components/UserSelector.jsx:60-62 | removal goes entry by entry in order: it distributes over concatenation, and one entry stays iff its id differs |
| UserSelector.ToggleUser | frontend/src/components/UserSelector.jsx:51-58 | a selected user is removed everywhere, an unselected one appended; selection flips |
| UserSelector.ToggleTwiceRestores | frontend/src/components/UserSelector.jsx:51-58 | toggling an unselected user twice restores the selection |
| UserSelector.AvailableUsers | frontend/src/components/UserSelector.jsx:64-67 | exactly the results not selected, each with all its copies |
| UserSelector.AvailableUsersAppend | frontend/src/components/UserSelector.jsx:64-67 | the results keep their order: the filter distributes over concatenation, and one result is shown iff it is not selected |
| UserSelector.OnTermChange | frontend/src/components/UserSelector.jsx:14-17 | an empty term clears the results and sends no search |
| UserSelector.SearchResults | frontend/src/components/UserSelector.jsx:21-26 | the users returned, or none on failure or a missing list |
| TaskCard.Split | frontend/src/components/TaskCard.jsx:3 | at least one piece, none containing a space |
| TaskCard.SplitJoin | frontend/src/components/TaskCard.jsx:3 | joining the pieces with spaces gives back the name |
| TaskCard.FirstCharsAreWordStarts | frontend/src/components/TaskCard.jsx:3 | the first characters of the pieces are exactly the word-start characters; empty pieces add nothing |
| TaskCard.NoWordStartsIff | frontend/src/components/TaskCard.jsx:3 | a name has no word start iff it is all spaces |
| TaskCard.Initials | frontend/src/components/TaskCard.jsx:2-4 | the fallback for a missing name or one without words; otherwise the first two upper-cased word starts |
| TaskCard.InitialsOfWords | frontend/src/components/TaskCard.jsx:2-4 | an all-space or missing name gets the fallback; any other gets 1-2 characters starting with its first word's initial |
| TaskCard.Avatars | frontend/src/components/TaskCard.jsx:38-53 | nothing without assignees; at most three avatars; a +N badge iff more than three, with N = count - 3 |
| TaskCard.AvatarsAccountForAll | frontend/src/components/TaskCard.jsx:38-53 | the avatars plus the badge count every assignee |

## Left out

- Database I/O, `populate` and ObjectId casts are left out. Documents are
  values, and a malformed id is just an unknown one.
- A store write that throws is left out, except for the activity write,
  which is the `logFault` parameter.
- `Promise.all` in the reorder routes is modelled as the updates applied in
  array order. When two entries name the same id, the last one wins.
- Sort ties in database queries keep store order.
- Authentication is left out. JWT signing and verification are the
  `verify` parameter, and REST routes take the authenticated caller as
  input. The socket's `userId` is recorded but never consulted.
- Query-string coercion is left out. `page` and `limit` are integers, so a
  non-numeric value is not modelled.
- TaskRoutes.SearchTasks: the `$regex` match is the `compile` parameter
  (a pattern yields a matcher, or fails as a 500), not a regular-expression
  engine.
- Socket transport, reconnects and console logging are left out. So is the
  crash a relayed event with a null payload would cause.
- Realtime.Handle: a payload `boardId` is an id or absent. Non-numeric
  board ids are not modelled.
- Browser effects are left out: rendering, toasts, navigation, `confirm`,
  the 300 ms debounce timer, `Date.now` and
  `toLocaleDateString` (the `date` parameter of `ActivityPanel.AgeText`).
- UI-only components are left out. Dashboard, MemberPanel and
  ActivityPanel repeat `getInitials` with the fallback 'U'. TaskDetailModal
  and UserSelector use '?', as TaskCard does. `TaskCard.Initials` takes the
  fallback as a parameter.
- ClientStore: JavaScript compares objects by reference, and the model
  compares them structurally. Where the drag reducer relies on shared
  objects, `BoardView.Renumbered` writes the shared effect out
  explicitly.
- BoardView.PositionKey: a task whose position is missing or not a number
  sorts as position 0, where JavaScript would compare `NaN`.
- Text.UpperChar: upper-casing covers ASCII letters only.
- ActivityPanel.ActionLabel: the label and icon tables are plain objects.
  A name such as `constructor` would find an inherited property there, and
  the model treats it as unknown.
- BoardView.ApplyRemote: a `task-updated` event whose task has no `_id`
  is modelled as a no-op.
- Positions are JSON numbers, which can be fractional. The model keeps them
  as integers. The positions the handlers and reducers compute are whole
  numbers, but a fractional position a client sends to the update or reorder
  routes is not modelled.
- ListRoutes.ReorderLists, TaskRoutes.ReorderTasks: every reorder entry
  carries an id and a position, and a task entry also carries a list. An
  entry that lacks its position or list cannot be represented. Mongoose
  drops an undefined field from the update, so such an entry leaves that
  field unchanged.
- ClientStore.Restore: `JSON.stringify` followed by `JSON.parse` of the
  saved user is taken to give the same object back. Values such as dates or
  `undefined` fields, which that round trip changes, are not modelled.
  Storage is the `Saved` value, and a browser without storage is left out.
- Text.Utf16Length: strings are sequences of Unicode scalar values, so a
  lone surrogate code unit cannot appear in the model.
- TaskCard.Initials: a word's first character is taken per code point. The
  source's `w[0]` and `slice(0, 2)` count UTF-16 units, so a name that starts
  with a character outside the Basic Multilingual Plane (an emoji, say) gets
  half of a surrogate pair there, and the whole character here.
