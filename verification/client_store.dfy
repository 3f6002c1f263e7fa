/** The browser-side state: the signed-in user and the open board's boards,
    lists and tasks, kept as plain JSON objects and changed only through the
    reducers below. A reducer replaces the fields it names and leaves every
    other field of the state as it was. */
module ClientStore {
  import opened Wrappers
  import opened Seqs

  /** A JSON value as it arrives from the API or over the socket. */
  datatype Value =
    | Str(s: string)
    | Num(n: int)
    | Bool(b: bool)
    | Null
    | Arr(items: seq<Value>)
    | Obj(fields: map<string, Value>)

  /** A JSON object: a board, list or task document, or a partial update. */
  type Doc = map<string, Value>

  /** `d._id === id`: an object without `_id` matches no id. */
  predicate HasId(d: Doc, id: Value) {
    "_id" in d && d["_id"] == id
  }

  /** `t.list === listId`. */
  predicate InList(t: Doc, listId: Value) {
    "list" in t && t["list"] == listId
  }

  /** `{ ...d, ...updates }`: every key of either object, the update's value
      winning where both have one. */
  function Spread(d: Doc, updates: Doc): (r: Doc)
    ensures r.Keys == d.Keys + updates.Keys
    ensures forall k :: k in updates ==> r[k] == updates[k]
    ensures forall k :: k in d && k !in updates ==> r[k] == d[k]
  {
    d + updates
  }

  /** Spreading the same update twice is spreading it once. */
  lemma SpreadIdempotent(d: Doc, updates: Doc)
    ensures Spread(Spread(d, updates), updates) == Spread(d, updates)
  {
    var once := Spread(d, updates);
    assert Spread(once, updates).Keys == once.Keys;
  }

  // -------------------------------------------------------------- Auth

  datatype AuthState = AuthState(user: Option<Doc>, token: Option<string>, isAuthenticated: bool)

  /** What the browser keeps across page loads: the user (saved as JSON) and
      the token; `None` is a missing item. */
  datatype Saved = Saved(user: Option<Doc>, token: Option<string>)

  /** The auth store together with what it has saved. */
  datatype Session = Session(state: AuthState, saved: Saved)

  /** The state a page load starts from: the saved user (`null` when none),
      the saved token, and signed in exactly when the saved token is a
      non-empty string (`!!localStorage.getItem('token')`). */
  function Restore(saved: Saved): (r: AuthState)
    ensures r.user == saved.user && r.token == saved.token
    ensures r.isAuthenticated <==> saved.token.Some? && saved.token.value != ""
  {
    AuthState(saved.user, saved.token, saved.token.Some? && saved.token.value != "")
  }

  /** Signing in saves the user and token, then marks the session signed
      in, whatever the token is. */
  function SetAuth(s: Session, user: Doc, token: string): (r: Session)
    ensures r.state.isAuthenticated && r.state.user == Some(user) && r.state.token == Some(token)
    ensures r.saved.user == Some(user) && r.saved.token == Some(token)
  {
    Session(AuthState(Some(user), Some(token), true), Saved(Some(user), Some(token)))
  }

  /** Signing out removes both saved items and forgets user and token. */
  function Logout(s: Session): (r: Session)
    ensures !r.state.isAuthenticated && r.state.user.None? && r.state.token.None?
    ensures r.saved.user.None? && r.saved.token.None?
  {
    Session(AuthState(None, None, false), Saved(None, None))
  }

  /** A reload after signing in restores the same state exactly when the
      token is non-empty: an empty token is signed in until the next page
      load and signed out after it. */
  lemma ReloadAfterSetAuth(s: Session, user: Doc, token: string)
    ensures Restore(SetAuth(s, user, token).saved) == SetAuth(s, user, token).state <==> token != ""
  {
  }

  /** A reload after signing out restores the signed-out state, whatever
      was signed in before. */
  lemma ReloadAfterLogout(s: Session)
    ensures Restore(Logout(s).saved) == Logout(s).state
    ensures !Restore(Logout(s).saved).isAuthenticated
  {
  }

  // ------------------------------------------------------------- Boards

  datatype BoardState = BoardState(
    boards: seq<Doc>,
    currentBoard: Option<Doc>,
    lists: seq<Doc>,
    tasks: seq<Doc>,
    loading: bool)

  /** The state a fresh page starts from. */
  const Initial := BoardState([], None, [], [], false)

  /** The dashboard's board list is replaced; nothing else changes. */
  function SetBoards(s: BoardState, boards: seq<Doc>): (r: BoardState)
    ensures r.boards == boards
    ensures r.currentBoard == s.currentBoard && r.lists == s.lists && r.tasks == s.tasks && r.loading == s.loading
  {
    s.(boards := boards)
  }

  /** The open board is replaced (`None` for `null`); nothing else
      changes. */
  function SetCurrentBoard(s: BoardState, board: Option<Doc>): (r: BoardState)
    ensures r.currentBoard == board
    ensures r.boards == s.boards && r.lists == s.lists && r.tasks == s.tasks && r.loading == s.loading
  {
    s.(currentBoard := board)
  }

  /** Loading a board replaces the open board, its lists and its tasks
      wholesale; the dashboard's board list is kept. */
  function SetBoardData(s: BoardState, board: Doc, lists: seq<Doc>, tasks: seq<Doc>): (r: BoardState)
    ensures r.currentBoard == Some(board) && r.lists == lists && r.tasks == tasks
    ensures r.boards == s.boards && r.loading == s.loading
  {
    s.(currentBoard := Some(board), lists := lists, tasks := tasks)
  }

  function SetLoading(s: BoardState, loading: bool): (r: BoardState)
    ensures r.loading == loading
    ensures r.boards == s.boards && r.currentBoard == s.currentBoard && r.lists == s.lists && r.tasks == s.tasks
  {
    s.(loading := loading)
  }

  /** Every object with id `id` gets the update spread over it; every other
      object is left as it was; length and order are kept. */
  function PatchWhere(docs: seq<Doc>, id: Value, updates: Doc): (r: seq<Doc>)
    ensures |r| == |docs|
    ensures forall i :: 0 <= i < |docs| && HasId(docs[i], id) ==> r[i] == Spread(docs[i], updates)
    ensures forall i :: 0 <= i < |docs| && !HasId(docs[i], id) ==> r[i] == docs[i]
  {
    if |docs| == 0 then []
    else [if HasId(docs[0], id) then Spread(docs[0], updates) else docs[0]] + PatchWhere(docs[1..], id, updates)
  }

  /** An update that does not change `_id` to a different value keeps every
      object's identity: the same positions hold the same ids. */
  lemma PatchKeepsIds(docs: seq<Doc>, id: Value, updates: Doc)
    requires "_id" in updates ==> updates["_id"] == id
    ensures forall i, v :: 0 <= i < |docs| ==> (HasId(PatchWhere(docs, id, updates)[i], v) <==> HasId(docs[i], v))
  {
  }

  /** Under the same condition, patching twice with the same update is
      patching once. */
  lemma {:induction false} PatchIdempotent(docs: seq<Doc>, id: Value, updates: Doc)
    requires "_id" in updates ==> updates["_id"] == id
    ensures PatchWhere(PatchWhere(docs, id, updates), id, updates) == PatchWhere(docs, id, updates)
  {
    var once := PatchWhere(docs, id, updates);
    var twice := PatchWhere(once, id, updates);
    forall i | 0 <= i < |docs|
      ensures twice[i] == once[i]
    {
      if HasId(docs[i], id) {
        SpreadIdempotent(docs[i], updates);
      }
    }
  }

  /** `d => d._id !== id`. */
  function NotId(id: Value): Doc -> bool {
    (d: Doc) => !HasId(d, id)
  }

  /** The objects without id `id`, in their original order: every copy of
      such an object is kept and no copy of another. */
  function WithoutId(docs: seq<Doc>, id: Value): (r: seq<Doc>)
    ensures forall d :: d in r <==> d in docs && !HasId(d, id)
    ensures forall d :: multiset(r)[d] == if HasId(d, id) then 0 else multiset(docs)[d]
    ensures |r| <= |docs|
  {
    FilterMembers(docs, NotId(id));
    FilterMultiset(docs, NotId(id));
    Filter(docs, NotId(id))
  }

  /** Removal works object by object and keeps the order: it distributes
      over concatenation, and a single object is kept exactly when it lacks
      the id. */
  lemma WithoutIdAppend(a: seq<Doc>, b: seq<Doc>, d: Doc, id: Value)
    ensures WithoutId(a + b, id) == WithoutId(a, id) + WithoutId(b, id)
    ensures WithoutId([d], id) == if HasId(d, id) then [] else [d]
  {
    FilterAppend(a, b, NotId(id));
    assert [d][1..] == [];
  }

  /** Removing by id a second time changes nothing, and neither does removing
      an id no object has. */
  lemma WithoutIdIdempotent(docs: seq<Doc>, id: Value)
    ensures WithoutId(WithoutId(docs, id), id) == WithoutId(docs, id)
    ensures (forall i :: 0 <= i < |docs| ==> !HasId(docs[i], id)) ==> WithoutId(docs, id) == docs
  {
    var once := WithoutId(docs, id);
    FilterAll(once, NotId(id));
    if forall i :: 0 <= i < |docs| ==> !HasId(docs[i], id) {
      FilterAll(docs, NotId(id));
    }
  }

  /** A new board goes to the front of the dashboard. */
  function AddBoard(s: BoardState, board: Doc): (r: BoardState)
    ensures |r.boards| == |s.boards| + 1 && r.boards[0] == board && r.boards[1..] == s.boards
    ensures r.currentBoard == s.currentBoard && r.lists == s.lists && r.tasks == s.tasks && r.loading == s.loading
  {
    s.(boards := [board] + s.boards)
  }

  /** Patches the dashboard entry with that id, and the open board too when
      it is the same board. */
  function UpdateBoard(s: BoardState, boardId: Value, updates: Doc): (r: BoardState)
    ensures r.boards == PatchWhere(s.boards, boardId, updates)
    ensures s.currentBoard.Some? && HasId(s.currentBoard.value, boardId) ==>
      r.currentBoard == Some(Spread(s.currentBoard.value, updates))
    ensures s.currentBoard.None? || !HasId(s.currentBoard.value, boardId) ==> r.currentBoard == s.currentBoard
    ensures r.lists == s.lists && r.tasks == s.tasks && r.loading == s.loading
  {
    var current :=
      if s.currentBoard.Some? && HasId(s.currentBoard.value, boardId)
      then Some(Spread(s.currentBoard.value, updates)) else s.currentBoard;
    s.(boards := PatchWhere(s.boards, boardId, updates), currentBoard := current)
  }

  /** Drops the board from the dashboard, and closes it when it is the open
      one. Lists and tasks already loaded stay. */
  function RemoveBoard(s: BoardState, boardId: Value): (r: BoardState)
    ensures r.boards == WithoutId(s.boards, boardId)
    ensures forall d :: d in r.boards <==> d in s.boards && !HasId(d, boardId)
    ensures r.currentBoard.None? <==> s.currentBoard.None? || HasId(s.currentBoard.value, boardId)
    ensures r.currentBoard.Some? ==> r.currentBoard == s.currentBoard
    ensures r.lists == s.lists && r.tasks == s.tasks && r.loading == s.loading
  {
    var current :=
      if s.currentBoard.Some? && HasId(s.currentBoard.value, boardId) then None else s.currentBoard;
    s.(boards := WithoutId(s.boards, boardId), currentBoard := current)
  }

  // -------------------------------------------------------------- Lists

  function AddList(s: BoardState, list: Doc): (r: BoardState)
    ensures r.lists == s.lists + [list] && r.tasks == s.tasks && r.boards == s.boards
    ensures r.currentBoard == s.currentBoard && r.loading == s.loading
  {
    s.(lists := s.lists + [list])
  }

  function UpdateList(s: BoardState, listId: Value, updates: Doc): (r: BoardState)
    ensures r.lists == PatchWhere(s.lists, listId, updates) && r.tasks == s.tasks
    ensures r.boards == s.boards && r.currentBoard == s.currentBoard && r.loading == s.loading
  {
    s.(lists := PatchWhere(s.lists, listId, updates))
  }

  /** `t => t.list !== listId`. */
  function NotInList(listId: Value): Doc -> bool {
    (t: Doc) => !InList(t, listId)
  }

  /** The tasks not in list `listId`, in their original order, every copy
      kept. */
  function OutsideList(tasks: seq<Doc>, listId: Value): (r: seq<Doc>)
    ensures forall t :: t in r <==> t in tasks && !InList(t, listId)
    ensures forall t :: multiset(r)[t] == if InList(t, listId) then 0 else multiset(tasks)[t]
  {
    FilterMembers(tasks, NotInList(listId));
    FilterMultiset(tasks, NotInList(listId));
    Filter(tasks, NotInList(listId))
  }

  /** Dropping a list's tasks works task by task and keeps the order. */
  lemma OutsideListAppend(a: seq<Doc>, b: seq<Doc>, t: Doc, listId: Value)
    ensures OutsideList(a + b, listId) == OutsideList(a, listId) + OutsideList(b, listId)
    ensures OutsideList([t], listId) == if InList(t, listId) then [] else [t]
  {
    FilterAppend(a, b, NotInList(listId));
    assert [t][1..] == [];
  }

  /** Removing a list removes its tasks with it; every other list and every
      task of another list stays. */
  function RemoveList(s: BoardState, listId: Value): (r: BoardState)
    ensures r.lists == WithoutId(s.lists, listId) && r.tasks == OutsideList(s.tasks, listId)
    ensures forall l :: l in r.lists <==> l in s.lists && !HasId(l, listId)
    ensures forall t :: t in r.tasks <==> t in s.tasks && !InList(t, listId)
    ensures r.boards == s.boards && r.currentBoard == s.currentBoard && r.loading == s.loading
  {
    s.(lists := WithoutId(s.lists, listId), tasks := OutsideList(s.tasks, listId))
  }

  // -------------------------------------------------------------- Tasks

  /** Appends without looking for an existing task with the same id. */
  function AddTask(s: BoardState, task: Doc): (r: BoardState)
    ensures r.tasks == s.tasks + [task] && r.lists == s.lists && r.boards == s.boards
    ensures r.currentBoard == s.currentBoard && r.loading == s.loading
  {
    s.(tasks := s.tasks + [task])
  }

  /** A `task-created` event that arrives twice leaves the task in the state
      twice. */
  lemma AddTaskTwiceDuplicates(s: BoardState, task: Doc)
    ensures multiset(AddTask(AddTask(s, task), task).tasks)[task] == multiset(s.tasks)[task] + 2
  {
  }

  function UpdateTask(s: BoardState, taskId: Value, updates: Doc): (r: BoardState)
    ensures r.tasks == PatchWhere(s.tasks, taskId, updates) && r.lists == s.lists
    ensures r.boards == s.boards && r.currentBoard == s.currentBoard && r.loading == s.loading
  {
    s.(tasks := PatchWhere(s.tasks, taskId, updates))
  }

  function RemoveTask(s: BoardState, taskId: Value): (r: BoardState)
    ensures r.tasks == WithoutId(s.tasks, taskId)
    ensures forall t :: t in r.tasks <==> t in s.tasks && !HasId(t, taskId)
    ensures r.lists == s.lists && r.boards == s.boards && r.currentBoard == s.currentBoard && r.loading == s.loading
  {
    s.(tasks := WithoutId(s.tasks, taskId))
  }

  /** Moves the task with that id: only its `list` and `position` change,
      and no other task is renumbered. */
  function MoveTask(s: BoardState, taskId: Value, newListId: Value, newPosition: Value): (r: BoardState)
    ensures |r.tasks| == |s.tasks|
    ensures forall i :: 0 <= i < |s.tasks| && !HasId(s.tasks[i], taskId) ==> r.tasks[i] == s.tasks[i]
    ensures forall i :: 0 <= i < |s.tasks| && HasId(s.tasks[i], taskId) ==>
      && r.tasks[i].Keys == s.tasks[i].Keys + {"list", "position"}
      && r.tasks[i]["list"] == newListId && r.tasks[i]["position"] == newPosition
      && forall k :: k in s.tasks[i] && k != "list" && k != "position" ==> r.tasks[i][k] == s.tasks[i][k]
    ensures r.lists == s.lists && r.boards == s.boards && r.currentBoard == s.currentBoard && r.loading == s.loading
  {
    s.(tasks := PatchWhere(s.tasks, taskId, map["list" := newListId, "position" := newPosition]))
  }

  /** Replaces the task array with the one given, with no check of its
      contents; boards and lists are untouched. */
  function ReorderTasks(s: BoardState, newTasks: seq<Doc>): (r: BoardState)
    ensures r.tasks == newTasks
    ensures r.boards == s.boards && r.currentBoard == s.currentBoard && r.lists == s.lists && r.loading == s.loading
  {
    s.(tasks := newTasks)
  }
}
