/** The board routes: listing, reading, creating, updating and deleting
    boards, adding and removing members, and the paginated activity feed.
    Each handler is a pure function from the store, the authenticated
    caller and the request to the next store and the response. */
module BoardRoutes {
  import opened Wrappers
  import opened Seqs
  import opened Text
  import opened Schema
  import opened Store

  /** The body fields of `POST /boards` and `PUT /boards/:id`. */
  datatype BoardFields = BoardFields(title: Option<string>, description: Option<string>, background: Option<string>)

  /** The body of `GET /boards/:id`. */
  datatype BoardData = BoardData(board: Board, lists: seq<List>, tasks: seq<Task>)

  /** The body of `GET /boards/:id/activities`. */
  datatype ActivityPage = ActivityPage(activities: seq<Activity>, currentPage: int, totalPages: Option<int>, total: nat)

  function RecentlyUpdated(b: Board): int { -b.updatedAt }
  function ListPosition(l: List): int { l.position }
  function TaskPosition(t: Task): int { t.position }
  function NewestFirst(a: Activity): int { -a.createdAt }

  /** `GET /boards`: the boards the caller owns or is a member of, most
      recently updated first. */
  function ListBoards(st: Store, caller: Id): (r: Reply<seq<Board>>)
    ensures r.store == st && r.status == Ok && r.body.Some?
    ensures forall b :: b in r.body.value <==> b in st.boards && HasAccess(b, caller)
    ensures forall i, j :: 0 <= i < j < |r.body.value| ==> r.body.value[i].updatedAt >= r.body.value[j].updatedAt
  {
    var sorted := SortedWhere(st.boards, (b: Board) => HasAccess(b, caller), RecentlyUpdated);
    assert forall i, j :: 0 <= i < j < |sorted| ==> RecentlyUpdated(sorted[i]) <= RecentlyUpdated(sorted[j]);
    Reply(st, Ok, Some(sorted))
  }

  /** `GET /boards/:id`: 404, then 403, then the board with exactly its own
      lists and tasks, each ordered by position. */
  function GetBoard(st: Store, caller: Id, id: Id): (r: Reply<BoardData>)
    ensures r.store == st
    ensures Gate(st, id, caller).Failure? ==> r.status == Gate(st, id, caller).error && r.body.None?
    ensures Gate(st, id, caller).Success? ==> r.status == Ok && r.body.Some?
    ensures r.status == Ok ==>
      && r.body.value.board == FindBoard(st, id).value
      && HasAccess(r.body.value.board, caller)
      && (forall l :: l in r.body.value.lists <==> l in st.lists && l.board == id)
      && (forall t :: t in r.body.value.tasks <==> t in st.tasks && t.board == id)
      && SortedBy(r.body.value.lists, ListPosition)
      && SortedBy(r.body.value.tasks, TaskPosition)
  {
    match Gate(st, id, caller)
    case Failure(e) => Fail(st, e)
    case Success(b) =>
      var ls := SortedWhere(st.lists, (l: List) => l.board == id, ListPosition);
      var ts := SortedWhere(st.tasks, (t: Task) => t.board == id, TaskPosition);
      Reply(st, Ok, Some(BoardData(b, ls, ts)))
  }

  /** `POST /boards`. A missing or empty title is a 400; the title is then
      trimmed, so a title of blanks passes that check and is rejected by the
      schema instead (a 500), as is an over-long field or a background that
      is neither empty nor a hex colour. On success the caller is the owner and the only
      member, and one `board_created` activity is logged. */
  function CreateBoard(st: Store, caller: Id, req: BoardFields, logFault: bool): (r: Reply<Board>)
    ensures req.title.None? || req.title.value == "" ==> r.status == BadRequest && r.store == st
    ensures !r.status.IsSuccess() ==> r.store == st
    ensures r.status.IsSuccess() ==>
      && r.status == Created && r.body.Some? && req.title.Some?
      && var b := r.body.value;
      && b.id == st.nextId && b.owner == caller && b.members == [caller]
      && b.title == Trim(req.title.value)
      && b.description == req.description.GetOr("")
      && b.background == req.background.GetOr(DefaultBackground)
      && r.store.boards == st.boards + [b]
      && r.store.lists == st.lists && r.store.tasks == st.tasks
      && (!logFault ==>
            r.store.activities == st.activities
            + [Activity(st.nextId + 1, b.id, caller, BoardCreated, BoardEntity, b.id,
                        TitleDetails(b.title), st.clock + 1)])
      && (logFault ==> r.store.activities == st.activities)
  {
    if req.title.None? || req.title.value == "" then Fail(st, BadRequest)
    else
      // The sanitizer's trim followed by the schema setter's trim is one
      // trim (Text.TrimIdempotent), which NewBoard applies.
      var b := NewBoard(st.nextId, req.title.value, req.description, caller, [caller], req.background, st.clock);
      match SaveBoard(b, st.clock)
      case None => Fail(st, ServerError)
      case Some(saved) =>
        var st1 := st.(boards := st.boards + [saved], nextId := st.nextId + 1, clock := st.clock + 1);
        var logged := LogActivity(st1, saved.id, caller, BoardCreated, BoardEntity, saved.id,
                                  TitleDetails(saved.title), logFault, RouteIo);
        Reply(logged.store, Created, Some(saved))
  }

  /** `PUT /boards/:id`: 404, then 403. The title and background are
      overwritten only when given and non-empty (after trimming, for the
      title), the description whenever it is given; owner and members never
      change. */
  function UpdateBoard(st: Store, caller: Id, id: Id, req: BoardFields, logFault: bool): (r: Reply<Board>)
    ensures Gate(st, id, caller).Failure? ==> r.status == Gate(st, id, caller).error && r.store == st
    ensures r.status == Ok <==>
      && Gate(st, id, caller).Success?
      && var prev := FindBoard(st, id).value;
      && 1 <= Utf16Length(UpdatedTitle(prev.title, req.title)) <= BoardTitleMax
      && Utf16Length(req.description.GetOr(prev.description)) <= BoardDescriptionMax
      && (if req.background.Some? && req.background.value != "" then IsHexColour(req.background.value)
          else ColourAdmitted(prev.background))
    ensures !r.status.IsSuccess() ==> r.store == st
    ensures r.status.IsSuccess() ==>
      && r.status == Ok
      && var prev := FindBoard(st, id).value;
      && r.body.Some?
      && var b := r.body.value;
      && HasAccess(prev, caller)
      && b.id == id && b.owner == prev.owner
      && (prev.owner in prev.members ==> b.members == prev.members)
      && b.title == UpdatedTitle(prev.title, req.title)
      && b.description == req.description.GetOr(prev.description)
      && b.background == (if req.background.Some? && req.background.value != "" then req.background.value else prev.background)
      && BoardReplaced(st.boards, r.store.boards, id, b)
      && r.store.lists == st.lists && r.store.tasks == st.tasks
      && (!logFault ==>
            r.store.activities == st.activities
            + [Activity(st.nextId, id, caller, BoardUpdated, BoardEntity, id, TitleDetails(b.title), st.clock + 1)])
      && (logFault ==> r.store.activities == st.activities)
  {
    match Gate(st, id, caller)
    case Failure(e) => Fail(st, e)
    case Success(prev) =>
      var b := prev.(
        title := UpdatedTitle(prev.title, req.title),
        description := req.description.GetOr(prev.description),
        background := if req.background.Some? && req.background.value != "" then req.background.value else prev.background);
      match SaveBoard(b, st.clock)
      case None => Fail(st, ServerError)
      case Some(saved) =>
        var st1 := st.(boards := Replace(st.boards, (x: Board) => x.id == id, saved), clock := st.clock + 1);
        var logged := LogActivity(st1, id, caller, BoardUpdated, BoardEntity, id,
                                  TitleDetails(saved.title), logFault, RouteIo);
        Reply(logged.store, Ok, Some(saved))
  }

  /** The cascade of `DELETE /boards/:id` before the activity is logged:
      every list, task and activity of the board goes, the rest stays. */
  function PurgeBoard(st: Store, id: Id): (r: Store)
    ensures r.boards == st.boards && r.nextId == st.nextId && r.clock == st.clock
    ensures forall l :: l in r.lists <==> l in st.lists && l.board != id
    ensures forall t :: t in r.tasks <==> t in st.tasks && t.board != id
    ensures forall k :: 0 <= k < |st.activities| && st.activities[k].board != id ==> st.activities[k] in r.activities
    ensures ActivitiesOf(r.activities, id) == []
  {
    var kept := Filter(st.activities, (a: Activity) => a.board != id);
    FilterNone(kept, (x: Activity) => x.board == id);
    FilterMembers(st.lists, (l: List) => l.board != id);
    FilterMembers(st.tasks, (t: Task) => t.board != id);
    st.(lists := Filter(st.lists, (l: List) => l.board != id),
        tasks := Filter(st.tasks, (t: Task) => t.board != id),
        activities := kept)
  }

  /** `DELETE /boards/:id`: 404, then 403 for anyone but the owner. Removes
      the board and every list and task whose `board` is it, then wipes the
      board's activities before logging `board_deleted`, so that activity is
      the only one left for the deleted board. */
  function DeleteBoard(st: Store, caller: Id, id: Id, logFault: bool): (r: Reply<()>)
    ensures FindBoard(st, id).None? ==> r.status == NotFound && r.store == st
    ensures FindBoard(st, id).Some? && FindBoard(st, id).value.owner != caller ==> r.status == Forbidden && r.store == st
    ensures r.status == Ok <==> FindBoard(st, id).Some? && FindBoard(st, id).value.owner == caller
    ensures r.status == Ok && !logFault ==>
      ActivitiesOf(r.store.activities, id)
      == [Activity(st.nextId, id, caller, BoardDeleted, BoardEntity, id,
                   TitleDetails(FindBoard(st, id).value.title), st.clock)]
    ensures r.status == Ok && logFault ==> ActivitiesOf(r.store.activities, id) == []
  {
    match FindBoard(st, id)
    case None => Fail(st, NotFound)
    case Some(b) =>
      if b.owner != caller then Fail(st, Forbidden)
      else
        var st1 := PurgeBoard(st, id);
        var logged := LogActivity(st1, id, caller, BoardDeleted, BoardEntity, id,
                                  TitleDetails(b.title), logFault, RouteIo);
        var a := Activity(st.nextId, id, caller, BoardDeleted, BoardEntity, id, TitleDetails(b.title), st.clock);
        FilterAppend(st1.activities, [a], (x: Activity) => x.board == id);
        Reply(logged.store.(boards := Filter(st.boards, (x: Board) => x.id != id)), Ok, Some(()))
  }

  /** What a successful `DELETE /boards/:id` removes: the board, and
      exactly the lists and tasks that refer to it; every other board, list,
      task and activity stays. */
  lemma DeleteBoardCascades(st: Store, caller: Id, id: Id, logFault: bool)
    requires FindBoard(st, id).Some? && FindBoard(st, id).value.owner == caller
    ensures var r := DeleteBoard(st, caller, id, logFault).store;
      && (forall b :: b in r.boards <==> b in st.boards && b.id != id)
      && (forall l :: l in r.lists <==> l in st.lists && l.board != id)
      && (forall t :: t in r.tasks <==> t in st.tasks && t.board != id)
      && (forall k :: 0 <= k < |st.activities| && st.activities[k].board != id ==> st.activities[k] in r.activities)
  {
    var st1 := PurgeBoard(st, id);
    FilterMembers(st.boards, (x: Board) => x.id != id);
    assert DeleteBoard(st, caller, id, logFault).store.boards == Filter(st.boards, (x: Board) => x.id != id);
    assert DeleteBoard(st, caller, id, logFault).store.lists == st1.lists;
    assert DeleteBoard(st, caller, id, logFault).store.tasks == st1.tasks;
    assert forall a :: a in st1.activities ==> a in DeleteBoard(st, caller, id, logFault).store.activities;
  }

  /** `POST /boards/:id/members`: 404, then 403 for anyone but the owner,
      then 400 when the user already is a member; otherwise the members gain
      exactly `userId` at the end. No check that the user exists. */
  function AddMember(st: Store, caller: Id, id: Id, userId: Id, logFault: bool): (r: Reply<Board>)
    ensures FindBoard(st, id).None? ==> r.status == NotFound && r.store == st
    ensures FindBoard(st, id).Some? && FindBoard(st, id).value.owner != caller ==> r.status == Forbidden && r.store == st
    ensures (FindBoard(st, id).Some? && FindBoard(st, id).value.owner == caller
             && userId in FindBoard(st, id).value.members) ==> r.status == BadRequest && r.store == st
    ensures r.status == Ok <==>
      && FindBoard(st, id).Some? && FindBoard(st, id).value.owner == caller
      && userId !in FindBoard(st, id).value.members
      && ValidBoard(FindBoard(st, id).value)
    ensures !r.status.IsSuccess() ==> r.store == st
    ensures r.status.IsSuccess() ==>
      && r.status == Ok
      && var prev := FindBoard(st, id).value;
      && prev.owner == caller && userId !in prev.members && r.body.Some?
      && (prev.owner in prev.members ==> r.body.value.members == prev.members + [userId])
      && r.body.value.(members := prev.members, updatedAt := prev.updatedAt) == prev
      && BoardReplaced(st.boards, r.store.boards, id, r.body.value)
      && r.store.lists == st.lists && r.store.tasks == st.tasks
      && (!logFault ==>
            r.store.activities == st.activities
            + [Activity(st.nextId, id, caller, MemberAdded, MemberEntity, userId, NoDetails, st.clock + 1)])
      && (logFault ==> r.store.activities == st.activities)
  {
    match FindBoard(st, id)
    case None => Fail(st, NotFound)
    case Some(prev) =>
      if prev.owner != caller then Fail(st, Forbidden)
      else if userId in prev.members then Fail(st, BadRequest)
      else
        var b := prev.(members := prev.members + [userId]);
        assert ValidBoard(b) == ValidBoard(prev);
        match SaveBoard(b, st.clock)
        case None => Fail(st, ServerError)
        case Some(saved) =>
          var st1 := st.(boards := Replace(st.boards, (x: Board) => x.id == id, saved), clock := st.clock + 1);
          var logged := LogActivity(st1, id, caller, MemberAdded, MemberEntity, userId, NoDetails, logFault, RouteIo);
          Reply(logged.store, Ok, Some(saved))
  }

  /** `DELETE /boards/:id/members/:userId`: 404, then 403 for anyone but the
      owner; every occurrence of `userId` is dropped, and the pre-save hook
      puts the owner back if it was the one removed. Removing a non-member
      succeeds too. */
  function RemoveMember(st: Store, caller: Id, id: Id, userId: Id, logFault: bool): (r: Reply<Board>)
    ensures FindBoard(st, id).None? ==> r.status == NotFound && r.store == st
    ensures FindBoard(st, id).Some? && FindBoard(st, id).value.owner != caller ==> r.status == Forbidden && r.store == st
    ensures r.status == Ok <==>
      && FindBoard(st, id).Some? && FindBoard(st, id).value.owner == caller
      && ValidBoard(FindBoard(st, id).value)
    ensures !r.status.IsSuccess() ==> r.store == st
    ensures r.status.IsSuccess() ==>
      && r.status == Ok
      && var prev := FindBoard(st, id).value;
      && r.body.Some?
      && var ms := r.body.value.members;
      && prev.owner == caller
      && r.body.value.owner == prev.owner && prev.owner in ms
      && (forall u :: u in ms <==> (u in prev.members && u != userId) || u == prev.owner)
      && (userId != prev.owner ==> userId !in ms)
      && BoardReplaced(st.boards, r.store.boards, id, r.body.value)
      && r.store.lists == st.lists && r.store.tasks == st.tasks
      && (!logFault ==>
            r.store.activities == st.activities
            + [Activity(st.nextId, id, caller, MemberRemoved, MemberEntity, userId, NoDetails, st.clock + 1)])
      && (logFault ==> r.store.activities == st.activities)
  {
    match FindBoard(st, id)
    case None => Fail(st, NotFound)
    case Some(prev) =>
      if prev.owner != caller then Fail(st, Forbidden)
      else
        var b := prev.(members := Filter(prev.members, (m: Id) => m != userId));
        assert ValidBoard(b) == ValidBoard(prev);
        match SaveBoard(b, st.clock)
        case None => Fail(st, ServerError)
        case Some(saved) =>
          var st1 := st.(boards := Replace(st.boards, (x: Board) => x.id == id, saved), clock := st.clock + 1);
          var logged := LogActivity(st1, id, caller, MemberRemoved, MemberEntity, userId, NoDetails, logFault, RouteIo);
          Reply(logged.store, Ok, Some(saved))
  }

  /** The window `skip`/`count` of `acts`, newest first: the stable sort
      by creation time, then the offset window of it. */
  function NewestPage(acts: seq<Activity>, skip: nat, count: nat): (r: seq<Activity>)
    ensures r == SkipLimit(SortBy(acts, NewestFirst), skip, count)
    ensures count > 0 ==> |r| <= count
    ensures forall i :: 0 <= i < |r| ==> r[i] in acts
    ensures forall i, j :: 0 <= i < j < |r| ==> r[i].createdAt >= r[j].createdAt
  {
    var sorted := SortBy(acts, NewestFirst);
    SortByMembers(acts, NewestFirst);
    SkipLimitSorted(sorted, skip, count, NewestFirst);
    SkipLimitMembers(sorted, skip, count);
    var items := SkipLimit(sorted, skip, count);
    assert SortedBy(items, NewestFirst);
    items
  }

  /** `GET /boards/:id/activities?page&limit` (defaults 1 and 20): 404, then
      403; the board's activities newest first, `(page - 1) * limit`
      skipped and at most `|limit|` returned (no bound for 0), with
      `totalPages = Math.ceil(total / limit)`. A negative skip, as for a page
      below 1 with a positive limit, is refused by the database (a 500). */
  function Activities(st: Store, caller: Id, id: Id, page: int, limit: int): (r: Reply<ActivityPage>)
    ensures r.store == st
    ensures Gate(st, id, caller).Failure? ==> r.status == Gate(st, id, caller).error
    ensures Gate(st, id, caller).Success? && (page - 1) * limit < 0 ==> r.status == ServerError
    ensures r.status == Ok <==> Gate(st, id, caller).Success? && (page - 1) * limit >= 0
    ensures r.status == Ok ==>
      && r.body.Some?
      && var p := r.body.value;
      && p.total == |ActivitiesOf(st.activities, id)|
      && p.totalPages == TotalPages(p.total, limit)
      && p.currentPage == page
      && (limit != 0 ==> |p.activities| <= Abs(limit))
      && (forall i :: 0 <= i < |p.activities| ==> p.activities[i].board == id && p.activities[i] in st.activities)
      && (forall i, j :: 0 <= i < j < |p.activities| ==> p.activities[i].createdAt >= p.activities[j].createdAt)
      && p.activities == SkipLimit(SortBy(ActivitiesOf(st.activities, id), NewestFirst), (page - 1) * limit, Abs(limit))
  {
    match Gate(st, id, caller)
    case Failure(e) => Fail(st, e)
    case Success(_) =>
      var skip := (page - 1) * limit;
      if skip < 0 then Fail(st, ServerError)
      else
        var all := ActivitiesOf(st.activities, id);
        Reply(st, Ok, Some(ActivityPage(NewestPage(all, skip, Abs(limit)), page, TotalPages(|all|, limit), |all|)))
  }

  /** With a positive limit, an activity page is non-empty exactly when its
      number is between 1 and the reported `totalPages`. */
  lemma ActivitiesPageNonEmptyIff(st: Store, caller: Id, id: Id, page: int, limit: int)
    requires page >= 1 && limit >= 1
    requires Gate(st, id, caller).Success?
    ensures var p := Activities(st, caller, id, page, limit).body.value;
      |p.activities| > 0 <==> page <= p.totalPages.value
  {
    ActivitiesPageShape(st, caller, id, page, limit);
    PageNonEmptyIff(SortBy(ActivitiesOf(st.activities, id), NewestFirst), page, limit);
  }

  /** A served page of a positive limit is the window of the sorted feed,
      and `totalPages` is the ceiling of the quotient. */
  lemma ActivitiesPageShape(st: Store, caller: Id, id: Id, page: int, limit: int)
    requires page >= 1 && limit >= 1
    requires Gate(st, id, caller).Success?
    ensures Activities(st, caller, id, page, limit).status == Ok
    ensures var p := Activities(st, caller, id, page, limit).body.value;
      && p.activities == SkipLimit(SortBy(ActivitiesOf(st.activities, id), NewestFirst), (page - 1) * limit, limit)
      && p.totalPages == Some(CeilDiv(|ActivitiesOf(st.activities, id)|, limit))
  {
    assert (page - 1) * limit >= 0;
  }

  /** `POST /boards` succeeds exactly when the title is present and
      non-empty, is 1 to 100 UTF-16 units once trimmed, the description is
      at most 500 units and the background, when given, is empty or a hex
      colour. */
  lemma CreateBoardAccepts(st: Store, caller: Id, req: BoardFields, logFault: bool)
    ensures CreateBoard(st, caller, req, logFault).status.IsSuccess() <==>
      && req.title.Some? && req.title.value != ""
      && 1 <= Utf16Length(Trim(req.title.value)) <= BoardTitleMax
      && (req.description.None? || Utf16Length(req.description.value) <= BoardDescriptionMax)
      && (req.background.None? || req.background.value == "" || IsHexColour(req.background.value))
  {
    if req.title.Some? && req.title.value != "" {
      NewBoardAccepted(st.nextId, req.title.value, req.description, caller, [caller], req.background, st.clock);
    }
  }

  /** Every board route keeps each board's owner among its members. */
  lemma CreateBoardKeepsOwnersMembers(st: Store, caller: Id, req: BoardFields, logFault: bool)
    requires OwnersAreMembers(st)
    ensures OwnersAreMembers(CreateBoard(st, caller, req, logFault).store)
  {
  }

  lemma UpdateBoardKeepsOwnersMembers(st: Store, caller: Id, id: Id, req: BoardFields, logFault: bool)
    requires OwnersAreMembers(st)
    ensures OwnersAreMembers(UpdateBoard(st, caller, id, req, logFault).store)
  {
  }

  lemma DeleteBoardKeepsOwnersMembers(st: Store, caller: Id, id: Id, logFault: bool)
    requires OwnersAreMembers(st)
    ensures OwnersAreMembers(DeleteBoard(st, caller, id, logFault).store)
  {
    if DeleteBoard(st, caller, id, logFault).status == Ok {
      DeleteBoardCascades(st, caller, id, logFault);
    }
  }

  /** Deleting a board removes whole lists together with their tasks, so
      the survivors still agree. */
  lemma DeleteBoardKeepsTasksAgreeing(st: Store, caller: Id, id: Id, logFault: bool)
    requires TasksAgreeWithLists(st)
    ensures TasksAgreeWithLists(DeleteBoard(st, caller, id, logFault).store)
  {
    if DeleteBoard(st, caller, id, logFault).status == Ok {
      DeleteBoardCascades(st, caller, id, logFault);
    }
  }

  lemma MemberRoutesKeepOwnersMembers(st: Store, caller: Id, id: Id, userId: Id, logFault: bool)
    requires OwnersAreMembers(st)
    ensures OwnersAreMembers(AddMember(st, caller, id, userId, logFault).store)
    ensures OwnersAreMembers(RemoveMember(st, caller, id, userId, logFault).store)
  {
  }
}
