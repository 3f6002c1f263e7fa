/** The list routes: creating a list at the end of its board, renaming or
    repositioning it, deleting it with its tasks, and the bulk position
    update the drag-and-drop client sends. */
module ListRoutes {
  import opened Wrappers
  import opened Seqs
  import opened Text
  import opened Schema
  import opened Store

  /** The body of `POST /lists`. */
  datatype NewListFields = NewListFields(title: Option<string>, boardId: Option<Id>)

  /** The body of `PUT /lists/:id`. */
  datatype ListPatch = ListPatch(title: Option<string>, position: Option<int>)

  /** One element of `listPositions` in `PUT /lists/reorder/positions`. */
  datatype ListPos = ListPos(listId: Id, position: int)

  /** The positions of the lists of `board`, in store order. */
  function ListPositionsOf(lists: seq<List>, board: Id): (r: seq<int>)
    ensures forall i :: 0 <= i < |r| ==> exists l :: l in lists && l.board == board && l.position == r[i]
    ensures forall l :: l in lists && l.board == board ==> l.position in r
  {
    var sibs := Filter(lists, OnBoard(board));
    FilterMembers(lists, OnBoard(board));
    var r := seq(|sibs|, i requires 0 <= i < |sibs| => sibs[i].position);
    assert forall l :: l in sibs ==> l.position in r by {
      forall l | l in sibs ensures l.position in r {
        var k :| 0 <= k < |sibs| && sibs[k] == l;
        assert r[k] == l.position;
      }
    }
    assert forall i :: 0 <= i < |r| ==> sibs[i] in sibs && r[i] == sibs[i].position;
    r
  }

  /** `l => l.board === board`. */
  function OnBoard(board: Id): List -> bool {
    (l: List) => l.board == board
  }

  /** The position `POST /lists` gives a new list of `board`: one past the
      highest position among the board's lists, 0 when it has none. */
  function NextListPosition(lists: seq<List>, board: Id): (p: int)
    ensures forall x :: x in lists && x.board == board ==> x.position < p
    ensures (forall x :: x in lists ==> x.board != board) ==> p == 0
    ensures (exists x :: x in lists && x.board == board) ==>
      exists x :: x in lists && x.board == board && x.position == p - 1
  {
    var ps := ListPositionsOf(lists, board);
    assert |ps| > 0 ==> exists x :: x in lists && x.board == board && x.position == ps[0];
    NextPosition(ps)
  }

  /** `POST /lists`: 400 when the title or the board id is missing or empty;
      404, then 403; the new list goes one past the highest position of its
      board's lists (0 for the first). The title is trimmed after the 400
      check, so a blank title reaches the schema and is a 500; so is a
      position made negative by an earlier bulk update. */
  function CreateList(st: Store, caller: Id, req: NewListFields, logFault: bool): (r: Reply<List>)
    ensures req.title.None? || req.title.value == "" || req.boardId.None? ==> r.status == BadRequest
    ensures req.title.Some? && req.title.value != "" && req.boardId.Some? && Gate(st, req.boardId.value, caller).Failure?
            ==> r.status == Gate(st, req.boardId.value, caller).error
    ensures !r.status.IsSuccess() ==> r.store == st
    ensures r.status.IsSuccess() ==>
      && r.status == Created && r.body.Some? && req.title.Some? && req.boardId.Some?
      && var l := r.body.value;
      && Gate(st, l.board, caller).Success?
      && l.id == st.nextId && l.board == req.boardId.value && l.title == Trim(req.title.value)
      && l.position == NextListPosition(st.lists, l.board)
      && (forall x :: x in st.lists && x.board == l.board ==> x.position < l.position)
      && ((exists x :: x in st.lists && x.board == l.board) ==>
            exists x :: x in st.lists && x.board == l.board && x.position == l.position - 1)
      && ((forall x :: x in st.lists ==> x.board != l.board) ==> l.position == 0)
      && r.store.lists == st.lists + [l]
      && r.store.boards == st.boards && r.store.tasks == st.tasks
      && (!logFault ==>
            r.store.activities == st.activities
            + [Activity(st.nextId + 1, l.board, caller, ListCreated, ListEntity, l.id,
                        TitleDetails(l.title), st.clock + 1)])
      && (logFault ==> r.store.activities == st.activities)
  {
    if req.title.None? || req.title.value == "" || req.boardId.None? then Fail(st, BadRequest)
    else
      var boardId := req.boardId.value;
      match Gate(st, boardId, caller)
      case Failure(e) => Fail(st, e)
      case Success(_) =>
        var title := Trim(req.title.value);
        match SaveList(List(st.nextId, title, boardId, NextListPosition(st.lists, boardId), st.clock), st.clock)
        case None => Fail(st, ServerError)
        case Some(saved) =>
          var st1 := st.(lists := st.lists + [saved], nextId := st.nextId + 1, clock := st.clock + 1);
          var logged := LogActivity(st1, boardId, caller, ListCreated, ListEntity, saved.id,
                                    TitleDetails(title), logFault, RouteIo);
          Reply(logged.store, Created, Some(saved))
  }

  /** `PUT /lists/:id`: 404 for an unknown list, 500 when its board is gone,
      403 without access. The title changes only when it is non-blank, the
      position whenever one is given; the list never changes board. */
  function UpdateList(st: Store, caller: Id, id: Id, patch: ListPatch, logFault: bool): (r: Reply<List>)
    ensures FindList(st, id).None? ==> r.status == NotFound
    ensures FindList(st, id).Some? && GateByRef(st, FindList(st, id).value.board, caller).Failure?
            ==> r.status == GateByRef(st, FindList(st, id).value.board, caller).error
    ensures r.status == Ok <==>
      && FindList(st, id).Some? && GateByRef(st, FindList(st, id).value.board, caller).Success?
      && var prev := FindList(st, id).value;
      && 1 <= Utf16Length(UpdatedTitle(prev.title, patch.title)) <= ListTitleMax
      && patch.position.GetOr(prev.position) >= 0
    ensures !r.status.IsSuccess() ==> r.store == st
    ensures r.status.IsSuccess() ==>
      && r.status == Ok && r.body.Some? && FindList(st, id).Some?
      && var prev := FindList(st, id).value;
      && var l := r.body.value;
      && GateByRef(st, prev.board, caller).Success?
      && l.id == id && l.board == prev.board
      && l.title == UpdatedTitle(prev.title, patch.title)
      && l.position == patch.position.GetOr(prev.position)
      && ListReplaced(st.lists, r.store.lists, id, l)
      && r.store.boards == st.boards && r.store.tasks == st.tasks
      && (!logFault ==>
            r.store.activities == st.activities
            + [Activity(st.nextId, l.board, caller, ListUpdated, ListEntity, id, TitleDetails(l.title), st.clock + 1)])
      && (logFault ==> r.store.activities == st.activities)
  {
    match FindList(st, id)
    case None => Fail(st, NotFound)
    case Some(prev) =>
      match GateByRef(st, prev.board, caller)
      case Failure(e) => Fail(st, e)
      case Success(_) =>
        var l := prev.(title := UpdatedTitle(prev.title, patch.title),
                       position := patch.position.GetOr(prev.position));
        match SaveList(l, st.clock)
        case None => Fail(st, ServerError)
        case Some(saved) =>
          var st1 := st.(lists := Replace(st.lists, (x: List) => x.id == id, saved), clock := st.clock + 1);
          var logged := LogActivity(st1, prev.board, caller, ListUpdated, ListEntity, id,
                                    TitleDetails(saved.title), logFault, RouteIo);
          Reply(logged.store, Ok, Some(saved))
  }

  /** `DELETE /lists/:id`: 404, then 500 for a dangling board, then 403;
      removes the list's tasks, logs `list_deleted`, removes the list. */
  function DeleteList(st: Store, caller: Id, id: Id, logFault: bool): (r: Reply<()>)
    ensures FindList(st, id).None? ==> r.status == NotFound
    ensures FindList(st, id).Some? && GateByRef(st, FindList(st, id).value.board, caller).Failure?
            ==> r.status == GateByRef(st, FindList(st, id).value.board, caller).error
    ensures r.status == Ok <==> FindList(st, id).Some? && GateByRef(st, FindList(st, id).value.board, caller).Success?
    ensures r.status != Ok ==> r.store == st
    ensures r.status == Ok ==>
      && r.store.boards == st.boards
      && (forall t :: t in r.store.tasks <==> t in st.tasks && t.list != id)
      && (!logFault ==>
            r.store.activities == st.activities
            + [Activity(st.nextId, FindList(st, id).value.board, caller, ListDeleted, ListEntity, id,
                        TitleDetails(FindList(st, id).value.title), st.clock)])
      && (logFault ==> r.store.activities == st.activities)
  {
    match FindList(st, id)
    case None => Fail(st, NotFound)
    case Some(l) =>
      match GateByRef(st, l.board, caller)
      case Failure(e) => Fail(st, e)
      case Success(_) =>
        var st1 := st.(tasks := Filter(st.tasks, (t: Task) => t.list != id));
        FilterMembers(st.tasks, (t: Task) => t.list != id);
        var logged := LogActivity(st1, l.board, caller, ListDeleted, ListEntity, id,
                                  TitleDetails(l.title), logFault, RouteIo);
        Reply(logged.store.(lists := Filter(st.lists, (x: List) => x.id != id)), Ok, Some(()))
  }

  /** The lists a successful delete keeps: every one but the deleted. */
  lemma DeleteListRemovesOnlyIt(st: Store, caller: Id, id: Id, logFault: bool)
    requires FindList(st, id).Some? && GateByRef(st, FindList(st, id).value.board, caller).Success?
    ensures forall l :: l in DeleteList(st, caller, id, logFault).store.lists <==> l in st.lists && l.id != id
  {
    FilterMembers(st.lists, (x: List) => x.id != id);
  }

  // ----------------------------------------------------------- Reorder

  /** The list `l` as a batch leaves it: the last entry for its id decides
      its position; a batch that does not mention it leaves it alone. */
  function Reordered(l: List, batch: seq<ListPos>): List {
    match LastWhere(batch, (e: ListPos) => e.listId == l.id)
    case None => l
    case Some(e) => l.(position := e.position)
  }

  /** One `List.findByIdAndUpdate(listId, { position })`: no validators, no
      save hook, so only the position changes (even to a negative one), and
      an unknown id changes nothing. */
  function SetListPosition(lists: seq<List>, e: ListPos): (r: seq<List>)
    ensures |r| == |lists|
    ensures forall i :: 0 <= i < |lists| ==>
      r[i] == if lists[i].id == e.listId then lists[i].(position := e.position) else lists[i]
  {
    seq(|lists|, i requires 0 <= i < |lists| =>
      if lists[i].id == e.listId then lists[i].(position := e.position) else lists[i])
  }

  /** The updates of a batch, applied in array order: each list ends up as
      `Reordered` describes, whatever the other entries say. */
  function ApplyListPositions(lists: seq<List>, batch: seq<ListPos>): (r: seq<List>)
    ensures |r| == |lists|
    ensures forall i :: 0 <= i < |lists| ==> r[i] == Reordered(lists[i], batch)
    decreases |batch|
  {
    if |batch| == 0 then lists
    else
      var next := SetListPosition(lists, batch[0]);
      ApplyListPositions(next, batch[1..])
  }

  /** `PUT /lists/reorder/positions`: 400 unless `listPositions` is an
      array; otherwise every entry's list takes the entry's position. The
      route checks no access, validates nothing, logs nothing and leaves
      `updatedAt` alone. */
  function ReorderLists(st: Store, listPositions: Option<seq<ListPos>>): (r: Reply<()>)
    ensures listPositions.None? <==> r.status == BadRequest
    ensures listPositions.Some? ==> r.status == Ok
    ensures r.store.boards == st.boards && r.store.tasks == st.tasks && r.store.activities == st.activities
    ensures r.store.nextId == st.nextId && r.store.clock == st.clock
    ensures |r.store.lists| == |st.lists|
    ensures forall i :: 0 <= i < |st.lists| ==>
      && r.store.lists[i].(position := st.lists[i].position) == st.lists[i]
      && (listPositions.None? ==> r.store.lists[i] == st.lists[i])
      && (listPositions.Some? ==> r.store.lists[i] == Reordered(st.lists[i], listPositions.value))
  {
    match listPositions
    case None => Fail(st, BadRequest)
    case Some(batch) => Reply(st.(lists := ApplyListPositions(st.lists, batch)), Ok, Some(()))
  }

  /** Sending the same reorder twice is the same as sending it once. */
  lemma ReorderListsIdempotent(st: Store, batch: seq<ListPos>)
    ensures ReorderLists(ReorderLists(st, Some(batch)).store, Some(batch)).store
         == ReorderLists(st, Some(batch)).store
  {
    var once := ReorderLists(st, Some(batch)).store;
    var twice := ReorderLists(once, Some(batch)).store;
    assert twice.lists == once.lists;
  }

  /** The bulk update stores a negative position, which the schema's
      minimum forbids and which no other route writes: `PUT /lists/:id`
      rejects a negative position it is sent, and `POST /lists` computes
      one past the board's highest position. */
  lemma ReorderListsStoresNegativePosition(l: List)
    ensures var st := Store([], [l], [], [], l.id + 1, 0);
      ReorderLists(st, Some([ListPos(l.id, -1)])).store.lists == [l.(position := -1)]
  {
    var st := Store([], [l], [], [], l.id + 1, 0);
    var r := ReorderLists(st, Some([ListPos(l.id, -1)])).store.lists;
    assert r[0] == l.(position := -1);
  }

  // ---------------------------------------------------------- Invariants

  /** A successful create makes the new list's position the strict maximum
      of its board, and is accepted exactly when the trimmed title is 1 to
      100 UTF-16 units, the board admits the caller and the next position is
      not negative. */
  lemma CreateListAccepts(st: Store, caller: Id, req: NewListFields, logFault: bool)
    ensures CreateList(st, caller, req, logFault).status.IsSuccess() <==>
      && req.title.Some? && req.title.value != "" && req.boardId.Some?
      && Gate(st, req.boardId.value, caller).Success?
      && 1 <= Utf16Length(Trim(req.title.value)) <= ListTitleMax
      && NextListPosition(st.lists, req.boardId.value) >= 0
  {
  }

  /** Once a list holds a negative position, a `PUT /lists/:id` that sends
      no position fails validation and writes nothing; one that sends a
      position of 0 or more is judged on the title alone. */
  lemma NegativePositionBlocksUpdate(st: Store, caller: Id, id: Id, title: Option<string>, position: Option<int>, logFault: bool)
    requires FindList(st, id).Some? && FindList(st, id).value.position < 0
    requires GateByRef(st, FindList(st, id).value.board, caller).Success?
    ensures position.None? ==>
      UpdateList(st, caller, id, ListPatch(title, position), logFault).status == ServerError
      && UpdateList(st, caller, id, ListPatch(title, position), logFault).store == st
    ensures position.Some? && position.value >= 0 ==>
      (UpdateList(st, caller, id, ListPatch(title, position), logFault).status == Ok
       <==> 1 <= Utf16Length(UpdatedTitle(FindList(st, id).value.title, title)) <= ListTitleMax)
  {
  }

  /** Two lists created one after the other on a board that had none get
      positions 0 and then 1. */
  lemma TwoListsInFreshBoard(st: Store, caller: Id, req1: NewListFields, req2: NewListFields, f1: bool, f2: bool)
    requires req1.boardId.Some? && req2.boardId == req1.boardId
    requires forall x :: x in st.lists ==> x.board != req1.boardId.value
    ensures var r1 := CreateList(st, caller, req1, f1);
      var r2 := CreateList(r1.store, caller, req2, f2);
      r1.status.IsSuccess() && r2.status.IsSuccess() ==>
        r1.body.value.position == 0 && r2.body.value.position == 1
  {
    var r1 := CreateList(st, caller, req1, f1);
    if r1.status.IsSuccess() {
      OnlyListOfBoard(st.lists, r1.body.value, req1.boardId.value);
    }
  }

  /** After one list appended at position 0 to a board that had none, the
      next position is 1. */
  lemma OnlyListOfBoard(prev: seq<List>, l: List, board: Id)
    requires forall x :: x in prev ==> x.board != board
    requires l.board == board && l.position == 0
    ensures NextListPosition(prev + [l], board) == 1
  {
    var p := NextListPosition(prev + [l], board);
    assert l in prev + [l];
    var x :| x in prev + [l] && x.board == board && x.position == p - 1;
    assert x !in prev;
  }

  /** A list whose id is fresh for the tasks keeps every task in agreement
      with its list. */
  lemma CreateListKeepsTasksAgreeing(st: Store, caller: Id, req: NewListFields, logFault: bool)
    requires TasksAgreeWithLists(st)
    requires forall t :: t in st.tasks ==> t.list != st.nextId
    ensures TasksAgreeWithLists(CreateList(st, caller, req, logFault).store)
  {
  }

  lemma UpdateListKeepsTasksAgreeing(st: Store, caller: Id, id: Id, patch: ListPatch, logFault: bool)
    requires TasksAgreeWithLists(st)
    ensures TasksAgreeWithLists(UpdateList(st, caller, id, patch, logFault).store)
  {
    var r := UpdateList(st, caller, id, patch, logFault);
    if r.status.IsSuccess() {
      forall t, l | t in r.store.tasks && l in r.store.lists && t.list == l.id
        ensures t.board == l.board
      {
        var j :| 0 <= j < |r.store.lists| && r.store.lists[j] == l;
        assert st.lists[j] in st.lists;
      }
    }
  }

  lemma DeleteListKeepsTasksAgreeing(st: Store, caller: Id, id: Id, logFault: bool)
    requires TasksAgreeWithLists(st)
    ensures TasksAgreeWithLists(DeleteList(st, caller, id, logFault).store)
  {
    if DeleteList(st, caller, id, logFault).status == Ok {
      DeleteListRemovesOnlyIt(st, caller, id, logFault);
    }
  }

  /** The bulk list update changes positions only, so tasks stay in
      agreement with their lists. */
  lemma ReorderListsKeepsTasksAgreeing(st: Store, listPositions: Option<seq<ListPos>>)
    requires TasksAgreeWithLists(st)
    ensures TasksAgreeWithLists(ReorderLists(st, listPositions).store)
  {
    var r := ReorderLists(st, listPositions).store;
    forall t, l | t in r.tasks && l in r.lists && t.list == l.id
      ensures t.board == l.board
    {
      var j :| 0 <= j < |r.lists| && r.lists[j] == l;
      assert st.lists[j] in st.lists;
    }
  }
}
