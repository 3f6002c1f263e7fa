/** The board page: the per-list task columns, the optimistic drag-and-drop
    reducer with its follow-up request, and the filter that applies remote
    socket events to the open board only. */
module BoardView {
  import opened Wrappers
  import opened Seqs
  import opened ClientStore

  /** `task.position` as the column sort compares it. */
  function PositionKey(t: Doc): int {
    if "position" in t && t["position"].Num? then t["position"].n else 0
  }

  /** `task => task.list === listId`. */
  function OfList(listId: Value): Doc -> bool {
    t => InList(t, listId)
  }

  // ---------------------------------------------------------- Columns

  /** One column: the tasks of that list, stably sorted by position. */
  function TasksByList(tasks: seq<Doc>, listId: Value): (r: seq<Doc>)
    ensures SortedBy(r, PositionKey)
    ensures multiset(r) == multiset(Filter(tasks, OfList(listId)))
    ensures forall t :: t in r <==> t in tasks && InList(t, listId)
  {
    var kept := Filter(tasks, OfList(listId));
    FilterMembers(tasks, OfList(listId));
    SortByMembers(kept, PositionKey);
    SortBy(kept, PositionKey)
  }

  /** Tasks of one list with equal positions keep their store order in the
      column; with the two facts above this fixes the column exactly. */
  lemma TasksByListStable(tasks: seq<Doc>, listId: Value, k: int)
    ensures WithKey(TasksByList(tasks, listId), PositionKey, k)
         == WithKey(Filter(tasks, OfList(listId)), PositionKey, k)
  {
    SortByStable(Filter(tasks, OfList(listId)), PositionKey, k);
  }

  // ------------------------------------------------------ Drag and drop

  /** A place in a droppable: the list id and the index within the column. */
  datatype Location = Location(droppableId: Value, index: nat)

  /** What the drag library reports when a drag ends. */
  datatype DropResult = DropResult(
    destination: Option<Location>,
    source: Location,
    draggableId: Value,
    kind: string)

  /** The body of `PUT /api/tasks/:id/move`. */
  datatype MoveRequest = MoveRequest(taskId: Value, listId: Value, position: nat)

  /** A drag is ignored, throws before committing anything, or commits a new
      task array and sends a move request. */
  datatype DragOutcome =
    | Ignored
    | Crashed
    | Committed(tasks: seq<Doc>, request: MoveRequest)

  /** `tasks.findIndex(t => t._id === id)`, with -1 when there is none. */
  function FindIndex(tasks: seq<Doc>, id: Value): (r: int)
    ensures -1 <= r < |tasks|
    ensures r >= 0 ==> HasId(tasks[r], id) && forall j :: 0 <= j < r ==> !HasId(tasks[j], id)
    ensures r == -1 <==> forall j :: 0 <= j < |tasks| ==> !HasId(tasks[j], id)
  {
    if |tasks| == 0 then -1
    else if HasId(tasks[0], id) then 0
    else
      var rest := FindIndex(tasks[1..], id);
      if rest == -1 then -1 else rest + 1
  }

  /** The indices below `n` of the tasks in list `dest`, ascending. */
  function Matching(kept: seq<Doc>, dest: Value, n: nat): (r: seq<int>)
    requires n <= |kept|
    ensures forall i :: 0 <= i < |r| ==> 0 <= r[i] < n && InList(kept[r[i]], dest)
    ensures forall j :: 0 <= j < n && InList(kept[j], dest) ==> j in r
    ensures forall i, k :: 0 <= i < k < |r| ==> r[i] < r[k]
  {
    if n == 0 then []
    else Matching(kept, dest, n - 1) + (if InList(kept[n - 1], dest) then [n - 1] else [])
  }

  /** The sort key of an index: the position of the task there. */
  function KeyAt(kept: seq<Doc>): int -> int {
    j => if 0 <= j < |kept| then PositionKey(kept[j]) else 0
  }

  /** The destination column as indices into `kept`: every task of list
      `dest` exactly once, stably sorted by position. */
  function DestOrder(kept: seq<Doc>, dest: Value): (r: seq<int>)
    ensures forall i :: 0 <= i < |r| ==> 0 <= r[i] < |kept| && InList(kept[r[i]], dest)
    ensures forall j :: 0 <= j < |kept| && InList(kept[j], dest) ==> j in r
    ensures SortedBy(r, KeyAt(kept))
    ensures Distinct(r)
  {
    var idx := Matching(kept, dest, |kept|);
    SortByMembers(idx, KeyAt(kept));
    SortByDistinct(idx, KeyAt(kept));
    var r := SortBy(idx, KeyAt(kept));
    assert forall i :: 0 <= i < |r| ==> r[i] in multiset(idx);
    r
  }

  /** Where `j` stands in `order`. */
  function Rank(order: seq<int>, j: int): (r: nat)
    requires j in order
    ensures r < |order| && order[r] == j
  {
    if order[0] == j then 0 else 1 + Rank(order[1..], j)
  }

  /** In an order without repetitions, the rank of the element at `i` is `i`. */
  lemma RankOfIndex(order: seq<int>, i: nat)
    requires Distinct(order) && i < |order|
    ensures Rank(order, order[i]) == i
  {
    var r := Rank(order, order[i]);
    assert order[r] == order[i];
  }

  /** The column's size and the slot the dragged task takes in it: the drop
      index, or the end of the column when the index lies past it. */
  function InsertAt(kept: seq<Doc>, dest: Value, index: nat): (r: nat)
    ensures r <= |DestOrder(kept, dest)|
    ensures index <= |DestOrder(kept, dest)| ==> r == index
  {
    var n := |DestOrder(kept, dest)|;
    if index < n then index else n
  }

  /** The position the renumbering gives the destination task at `j`: its
      index in the column once the dragged task is inserted. */
  function NewPosition(kept: seq<Doc>, dest: Value, index: nat, j: int): nat
    requires 0 <= j < |kept| && InList(kept[j], dest)
  {
    var k := Rank(DestOrder(kept, dest), j);
    if k < InsertAt(kept, dest, index) then k else k + 1
  }

  /** `task.position = p` on a task object: only the position changes. */
  function WithPosition(t: Doc, p: int): (r: Doc)
    ensures r.Keys == t.Keys + {"position"} && r["position"] == Num(p)
    ensures forall k :: k in t && k != "position" ==> r[k] == t[k]
  {
    t["position" := Num(p)]
  }

  /** The committed array of the optimistic pass: `kept` with each task of
      the destination list renumbered (the objects are shared with the column
      copy, so the renumbering shows through); tasks of other lists are
      untouched. */
  function Renumbered(kept: seq<Doc>, dest: Value, index: nat): (r: seq<Doc>)
    ensures |r| == |kept|
    ensures forall j :: 0 <= j < |kept| && !InList(kept[j], dest) ==> r[j] == kept[j]
    ensures forall j :: 0 <= j < |kept| && InList(kept[j], dest) ==>
      r[j] == WithPosition(kept[j], NewPosition(kept, dest, index, j))
  {
    seq(|kept|, j requires 0 <= j < |kept| =>
      if InList(kept[j], dest) then WithPosition(kept[j], NewPosition(kept, dest, index, j)) else kept[j])
  }

  /** Every renumbered position lies in 0..n, where n is the column's size
      without the dragged task, and none is the dragged task's slot. */
  lemma RenumberedInRange(kept: seq<Doc>, dest: Value, index: nat, j: int)
    requires 0 <= j < |kept| && InList(kept[j], dest)
    ensures NewPosition(kept, dest, index, j) <= |DestOrder(kept, dest)|
    ensures NewPosition(kept, dest, index, j) != InsertAt(kept, dest, index)
  {
  }

  /** The renumbering follows the column's previous position order, and no
      two tasks of the column share a new position. */
  lemma RenumberedKeepsOrder(kept: seq<Doc>, dest: Value, index: nat, j1: int, j2: int)
    requires 0 <= j1 < |kept| && InList(kept[j1], dest)
    requires 0 <= j2 < |kept| && InList(kept[j2], dest)
    ensures PositionKey(kept[j1]) < PositionKey(kept[j2]) ==>
      NewPosition(kept, dest, index, j1) < NewPosition(kept, dest, index, j2)
    ensures j1 != j2 ==> NewPosition(kept, dest, index, j1) != NewPosition(kept, dest, index, j2)
  {
    var order := DestOrder(kept, dest);
    var k1 := Rank(order, j1);
    var k2 := Rank(order, j2);
    if PositionKey(kept[j1]) < PositionKey(kept[j2]) && k2 <= k1 {
      assert false;
    }
  }

  /** Every slot of 0..n other than the dragged task's is some column task's
      new position: together with the two lemmas above, the column is
      numbered exactly as if the dragged task sat at its slot. */
  lemma RenumberedFillsColumn(kept: seq<Doc>, dest: Value, index: nat, p: nat)
    requires p <= |DestOrder(kept, dest)| && p != InsertAt(kept, dest, index)
    ensures exists j :: 0 <= j < |kept| && InList(kept[j], dest) && NewPosition(kept, dest, index, j) == p
  {
    var order := DestOrder(kept, dest);
    var ins := InsertAt(kept, dest, index);
    var k := if p < ins then p else p - 1;
    var j := order[k];
    RankOfIndex(order, k);
    assert NewPosition(kept, dest, index, j) == p;
  }

  /** Renumbering changes nothing but positions. */
  lemma RenumberedKeepsFields(kept: seq<Doc>, dest: Value, index: nat, j: int, key: string)
    requires 0 <= j < |kept| && key != "position"
    ensures var r := Renumbered(kept, dest, index);
      (key in r[j] <==> key in kept[j]) && (key in kept[j] ==> r[j][key] == kept[j][key])
  {
  }

  /** `handleDragEnd`: a drop outside any list, back onto its own spot, or
      of anything but a task does nothing; a task drag with no tasks loaded
      throws before committing; otherwise the dragged task (or, when no task
      has the dragged id, the last task) is taken out, the destination
      column is renumbered, the array is committed and the move request
      carries the destination list and index. */
  function HandleDragEnd(tasks: seq<Doc>, res: DropResult): (r: DragOutcome)
    ensures r.Ignored? <==>
      || res.destination.None?
      || (res.destination.value.droppableId == res.source.droppableId
          && res.destination.value.index == res.source.index)
      || res.kind != "task"
    ensures r.Crashed? <==> !r.Ignored? && |tasks| == 0
    ensures r.Committed? ==>
      && |r.tasks| == |tasks| - 1
      && r.tasks == Renumbered(Spliced(tasks, SpliceIndex(tasks, res.draggableId)),
                               res.destination.value.droppableId, res.destination.value.index)
      && r.request == MoveRequest(res.draggableId, res.destination.value.droppableId, res.destination.value.index)
  {
    if res.destination.None? then Ignored
    else
      var dest := res.destination.value;
      if dest.droppableId == res.source.droppableId && dest.index == res.source.index then Ignored
      else if res.kind != "task" then Ignored
      else if |tasks| == 0 then Crashed
      else
        var kept := Spliced(tasks, SpliceIndex(tasks, res.draggableId));
        Committed(Renumbered(kept, dest.droppableId, dest.index),
                  MoveRequest(res.draggableId, dest.droppableId, dest.index))
  }

  /** The index `splice(findIndex(...), 1)` removes: the dragged task's, or
      the last one when `findIndex` gives -1. */
  function SpliceIndex(tasks: seq<Doc>, id: Value): (at: nat)
    requires |tasks| > 0
    ensures at < |tasks|
    ensures (exists i :: 0 <= i < |tasks| && HasId(tasks[i], id)) ==> at == FindIndex(tasks, id)
    ensures (forall i :: 0 <= i < |tasks| ==> !HasId(tasks[i], id)) ==> at == |tasks| - 1
  {
    var k := FindIndex(tasks, id);
    if k < 0 then |tasks| - 1 else k
  }

  /** The array with index `at` removed: earlier entries keep their index,
      later ones move down by one. */
  function Spliced(tasks: seq<Doc>, at: nat): (r: seq<Doc>)
    requires at < |tasks|
    ensures |r| == |tasks| - 1
    ensures forall j :: 0 <= j < |r| ==> r[j] == if j < at then tasks[j] else tasks[j + 1]
  {
    tasks[..at] + tasks[at + 1..]
  }

  /** No two tasks share an id. */
  ghost predicate UniqueIds(tasks: seq<Doc>) {
    forall i, j, v :: 0 <= i < |tasks| && 0 <= j < |tasks| && HasId(tasks[i], v) && HasId(tasks[j], v) ==> i == j
  }

  /** Renumbering keeps every task's id. */
  lemma RenumberedKeepsIds(kept: seq<Doc>, dest: Value, index: nat)
    ensures forall j, v :: 0 <= j < |kept| ==> (HasId(Renumbered(kept, dest, index)[j], v) <==> HasId(kept[j], v))
  {
    forall j | 0 <= j < |kept| {
      RenumberedKeepsFields(kept, dest, index, j, "_id");
    }
  }

  /** A committed array holds, at each index, the task that stood there in
      the store with the spliced-out index `at` skipped, with the same id. */
  lemma CommittedKeepsIds(tasks: seq<Doc>, res: DropResult)
    requires |tasks| > 0
    ensures var r := HandleDragEnd(tasks, res);
      var at := SpliceIndex(tasks, res.draggableId);
      r.Committed? ==>
        forall j, v :: 0 <= j < |r.tasks| ==>
          (HasId(r.tasks[j], v) <==> HasId(if j < at then tasks[j] else tasks[j + 1], v))
  {
    var r := HandleDragEnd(tasks, res);
    if r.Committed? {
      var at := SpliceIndex(tasks, res.draggableId);
      var kept := Spliced(tasks, at);
      var dest := res.destination.value;
      assert r.tasks == Renumbered(kept, dest.droppableId, dest.index);
      forall j, v | 0 <= j < |r.tasks|
        ensures HasId(r.tasks[j], v) <==> HasId(if j < at then tasks[j] else tasks[j + 1], v)
      {
        RenumberedKeepsFields(kept, dest.droppableId, dest.index, j, "_id");
        assert kept[j] == if j < at then tasks[j] else tasks[j + 1];
      }
    }
  }

  /** The committed array has lost the dragged task: it was spliced out and
      re-inserted only into the column copy. Every other task is still there,
      in order and with its id (and, by `RenumberedKeepsFields`, with every
      field but its position). */
  lemma DragLosesTask(tasks: seq<Doc>, res: DropResult)
    requires UniqueIds(tasks)
    requires exists i :: 0 <= i < |tasks| && HasId(tasks[i], res.draggableId)
    ensures var r := HandleDragEnd(tasks, res);
      r.Committed? ==>
        && (forall j :: 0 <= j < |r.tasks| ==> !HasId(r.tasks[j], res.draggableId))
        && var k := FindIndex(tasks, res.draggableId);
           forall j, v :: 0 <= j < |r.tasks| ==>
             (HasId(r.tasks[j], v) <==> HasId(if j < k then tasks[j] else tasks[j + 1], v))
  {
    CommittedKeepsIds(tasks, res);
  }

  /** When no task has the dragged id, `findIndex` gives -1, `splice(-1, 1)`
      takes the last task, and that task is the one lost. */
  lemma UnknownDragDropsLast(tasks: seq<Doc>, res: DropResult)
    requires |tasks| > 0
    requires forall i :: 0 <= i < |tasks| ==> !HasId(tasks[i], res.draggableId)
    ensures var r := HandleDragEnd(tasks, res);
      r.Committed? ==>
        forall j :: 0 <= j < |r.tasks| ==>
          forall key :: key != "position" ==>
            (key in r.tasks[j] <==> key in tasks[j]) && (key in tasks[j] ==> r.tasks[j][key] == tasks[j][key])
  {
    var r := HandleDragEnd(tasks, res);
    if r.Committed? {
      var kept := Spliced(tasks, SpliceIndex(tasks, res.draggableId));
      var dest := res.destination.value;
      forall j, key | 0 <= j < |r.tasks| && key != "position"
        ensures (key in r.tasks[j] <==> key in tasks[j]) && (key in tasks[j] ==> r.tasks[j][key] == tasks[j][key])
      {
        RenumberedKeepsFields(kept, dest.droppableId, dest.index, j, key);
      }
    }
  }

  // ------------------------------------------------- After the request

  /** What `loadBoard` fetched: the board, its lists and its tasks, or
      `None` when the fetch failed (the page then navigates away). */
  datatype Loaded = Loaded(board: Doc, lists: seq<Doc>, tasks: seq<Doc>)

  /** The `task-moved` payload the client emits after a successful move. */
  function MovedPayload(boardId: Value, req: MoveRequest): (r: Doc)
    ensures r.Keys == {"boardId", "taskId", "listId", "position"}
    ensures r["boardId"] == boardId && r["taskId"] == req.taskId
    ensures r["listId"] == req.listId && r["position"] == Num(req.position)
  {
    map["boardId" := boardId, "taskId" := req.taskId, "listId" := req.listId, "position" := Num(req.position)]
  }

  /** The drag's effect on the store and the socket: the committed array is
      stored; a successful request is followed by the `task-moved` emit; a
      failed one by a reload that replaces the board, lists and tasks. */
  function AfterDrag(s: BoardState, boardId: Value, outcome: DragOutcome, moveOk: bool, reload: Option<Loaded>): (r: (BoardState, Option<Doc>))
    ensures !outcome.Committed? ==> r == (s, None)
    ensures outcome.Committed? && moveOk ==>
      && r.0.tasks == outcome.tasks && r.1 == Some(MovedPayload(boardId, outcome.request))
      && r.0.lists == s.lists && r.0.currentBoard == s.currentBoard && r.0.loading == s.loading
    ensures outcome.Committed? && !moveOk ==> r.1.None?
    ensures outcome.Committed? && !moveOk && reload.Some? ==>
      r.0.tasks == reload.value.tasks && r.0.lists == reload.value.lists
      && r.0.currentBoard == Some(reload.value.board)
    ensures outcome.Committed? && !moveOk && reload.None? ==> r.0.tasks == outcome.tasks
    ensures r.0.boards == s.boards
  {
    match outcome
    case Committed(tasks, req) =>
      var optimistic := ReorderTasks(s, tasks);
      if moveOk then (optimistic, Some(MovedPayload(boardId, req)))
      else if reload.Some? then (SetBoardData(optimistic, reload.value.board, reload.value.lists, reload.value.tasks), None)
      else (optimistic, None)
    case _ => (s, None)
  }

  /** The move request and the emitted payload name the same list and the
      same position: the drop's destination list and index. */
  lemma RequestAndEmitAgree(s: BoardState, boardId: Value, tasks: seq<Doc>, res: DropResult, reload: Option<Loaded>)
    ensures var o := HandleDragEnd(tasks, res);
      o.Committed? ==>
        var e := AfterDrag(s, boardId, o, true, reload).1.value;
        && e["listId"] == o.request.listId == res.destination.value.droppableId
        && e["position"] == Num(o.request.position) && o.request.position == res.destination.value.index
  {
  }

  // ----------------------------------------------------- Remote events

  /** The socket events the page listens to, as the server relays them. */
  datatype RemoteEvent =
    | ListCreated(boardId: Value, list: Doc)
    | ListDeleted(boardId: Value, listId: Value)
    | TaskCreated(boardId: Value, task: Doc)
    | TaskUpdated(boardId: Value, task: Doc)
    | TaskDeleted(boardId: Value, taskId: Value)
    | TaskMoved(boardId: Value, taskId: Value, listId: Value, position: Value)
    | OtherEvent(name: string, boardId: Value)
  {
    function Board(): Value {
      match this
      case ListCreated(b, _) => b
      case ListDeleted(b, _) => b
      case TaskCreated(b, _) => b
      case TaskUpdated(b, _) => b
      case TaskDeleted(b, _) => b
      case TaskMoved(b, _, _, _) => b
      case OtherEvent(_, b) => b
    }
  }

  /** A remote event changes the store only when it is about the open board
      and the page has a listener for it; then it goes through the matching
      reducer. An updated task replaces the fields of the task with its id. */
  function ApplyRemote(s: BoardState, openBoard: Value, ev: RemoteEvent): (r: BoardState)
    ensures ev.Board() != openBoard || ev.OtherEvent? ==> r == s
    ensures ev.Board() == openBoard && ev.ListCreated? ==> r.lists == s.lists + [ev.list] && r.tasks == s.tasks
    ensures ev.Board() == openBoard && ev.ListDeleted? ==> r == RemoveList(s, ev.listId)
    ensures ev.Board() == openBoard && ev.ListDeleted? ==>
      (forall t :: t in r.tasks <==> t in s.tasks && !InList(t, ev.listId))
      && (forall l :: l in r.lists <==> l in s.lists && !HasId(l, ev.listId))
    ensures ev.Board() == openBoard && ev.TaskCreated? ==> r.tasks == s.tasks + [ev.task]
    ensures ev.Board() == openBoard && ev.TaskUpdated? && "_id" in ev.task ==>
      r.tasks == PatchWhere(s.tasks, ev.task["_id"], ev.task)
    ensures ev.Board() == openBoard && ev.TaskDeleted? ==> r == RemoveTask(s, ev.taskId)
    ensures ev.Board() == openBoard && ev.TaskDeleted? ==>
      forall t :: t in r.tasks <==> t in s.tasks && !HasId(t, ev.taskId)
    ensures ev.Board() == openBoard && ev.TaskMoved? ==> r == MoveTask(s, ev.taskId, ev.listId, ev.position)
    ensures r.boards == s.boards && r.currentBoard == s.currentBoard
  {
    if ev.Board() != openBoard then s
    else match ev
      case ListCreated(_, l) => AddList(s, l)
      case ListDeleted(_, listId) => RemoveList(s, listId)
      case TaskCreated(_, t) => AddTask(s, t)
      case TaskUpdated(_, t) => if "_id" in t then UpdateTask(s, t["_id"], t) else s
      case TaskDeleted(_, taskId) => RemoveTask(s, taskId)
      case TaskMoved(_, taskId, listId, position) => MoveTask(s, taskId, listId, position)
      case OtherEvent(_, _) => s
  }

  /** A remote update of a task keeps its id and touches no other task;
      receiving the same update twice is receiving it once. */
  lemma RemoteUpdateIdempotent(s: BoardState, openBoard: Value, task: Doc)
    ensures var ev := TaskUpdated(openBoard, task);
      ApplyRemote(ApplyRemote(s, openBoard, ev), openBoard, ev) == ApplyRemote(s, openBoard, ev)
  {
    if "_id" in task {
      PatchIdempotent(s.tasks, task["_id"], task);
    }
  }
}
