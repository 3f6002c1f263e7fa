/** The socket server: the token handshake, the per-board rooms and the
    relay of client events to the other clients looking at the same board.
    The server keeps no board state of its own; it forwards what it is sent
    to whoever is in the room the payload names. */
module Realtime {
  import opened Wrappers
  import opened Text
  import opened Schema

  type SocketId = nat

  /** A connected socket: the user its handshake token names and the rooms
      it has joined. */
  datatype Conn = Conn(user: Id, rooms: set<string>)

  /** Every connected socket. */
  datatype Hub = Hub(conns: map<SocketId, Conn>)

  /** An event payload: the `boardId` field the server routes by (absent
      when the client left it out) and the rest of the JSON, forwarded as
      is. */
  datatype Payload = Payload(boardId: Option<Id>, rest: string)

  /** Who receives a relayed event: everyone else in the room
      (`socket.to(room)`), or everyone in the room (`io.to(room)`). */
  datatype Scope = OthersInRoom | WholeRoom

  /** What one socket can send after connecting. */
  datatype Message =
    | JoinBoard(boardId: Option<Id>)
    | LeaveBoard(boardId: Option<Id>)
    | Emit(event: string, data: Payload)
    | Disconnect

  /** One emission: the event name and payload, and the sockets it reaches. */
  datatype Delivery = Delivery(event: string, data: Payload, targets: set<SocketId>)

  // --------------------------------------------------------- Handshake

  /** The handshake middleware: a missing or empty token, or one the
      verifier rejects (bad signature, expired), refuses the connection;
      otherwise the socket belongs to the token's user. `verify` stands for
      `jwt.verify` with the server's secret. */
  function Handshake(token: Option<string>, verify: string -> Option<Id>): (r: Option<Id>)
    ensures token.None? || token.value == "" ==> r.None?
    ensures token.Some? && token.value != "" ==> r == verify(token.value)
  {
    if token.None? || token.value == "" then None else verify(token.value)
  }

  /** A connection attempt: an accepted socket joins no room yet; a refused
      one leaves the hub unchanged. */
  function Connect(hub: Hub, sid: SocketId, token: Option<string>, verify: string -> Option<Id>): (r: Hub)
    ensures Handshake(token, verify).None? ==> r == hub
    ensures Handshake(token, verify).Some? ==>
      r.conns == hub.conns[sid := Conn(Handshake(token, verify).value, {})]
  {
    match Handshake(token, verify)
    case None => hub
    case Some(user) => Hub(hub.conns[sid := Conn(user, {})])
  }

  // ------------------------------------------------------------- Rooms

  /** `String(boardId)` as a template literal renders it: the id's digits,
      or `undefined` when the payload has no board id. */
  function BoardText(boardId: Option<Id>): (r: string)
    ensures boardId.Some? ==> r == Decimal(boardId.value)
    ensures boardId.None? ==> r == "undefined"
  {
    match boardId
    case None => "undefined"
    case Some(b) => Decimal(b)
  }

  /** The room of a board: `board-<boardId>`. */
  function RoomName(boardId: Option<Id>): (r: string)
    ensures |r| > 6 && r[..6] == "board-" && r[6..] == BoardText(boardId)
  {
    "board-" + BoardText(boardId)
  }

  /** Different boards have different rooms, and a payload without a board
      id lands in a room of its own, `board-undefined`. */
  lemma RoomNameInjective(a: Option<Id>, b: Option<Id>)
    requires RoomName(a) == RoomName(b)
    ensures a == b
  {
    var ta := BoardText(a);
    var tb := BoardText(b);
    assert ta == RoomName(a)[6..] && tb == RoomName(b)[6..];
    if a.Some? && b.Some? {
      DecimalRoundTrip(a.value);
      DecimalRoundTrip(b.value);
    }
  }

  /** The relay table of the server: fourteen events, three of them to the
      whole room, the rest to everyone in it but the sender. Any other event
      name has no handler. */
  function RelayScope(event: string): (r: Option<Scope>)
    ensures r == Some(WholeRoom) <==> event in {"board-deleted", "member-added", "member-removed"}
    ensures r == Some(OthersInRoom) <==>
      event in {"board-updated", "list-created", "list-updated", "list-deleted", "lists-reordered",
                "task-created", "task-updated", "task-deleted", "task-moved", "tasks-reordered",
                "activity-logged"}
  {
    if event == "board-deleted" || event == "member-added" || event == "member-removed" then Some(WholeRoom)
    else if event == "board-updated" || event == "list-created" || event == "list-updated"
         || event == "list-deleted" || event == "lists-reordered" || event == "task-created"
         || event == "task-updated" || event == "task-deleted" || event == "task-moved"
         || event == "tasks-reordered" || event == "activity-logged" then Some(OthersInRoom)
    else None
  }

  /** The sockets in `room`. */
  function Members(hub: Hub, room: string): (r: set<SocketId>)
    ensures forall s :: s in r <==> s in hub.conns && room in hub.conns[s].rooms
  {
    set s | s in hub.conns && room in hub.conns[s].rooms
  }

  // ----------------------------------------------------------- Handling

  /** One message from socket `sid`. A socket the hub does not know sends
      nothing (its connection was refused or has ended). Joining and leaving
      change only the sender's rooms; a relayed event changes nothing and
      reaches the room its payload names, whether or not the sender is in
      that room; an unhandled event reaches nobody; disconnecting forgets
      the socket. */
  function Handle(hub: Hub, sid: SocketId, msg: Message): (r: (Hub, Option<Delivery>))
    ensures sid !in hub.conns ==> r == (hub, None)
    ensures sid in hub.conns && msg.JoinBoard? ==>
      r.1.None? && r.0.conns == hub.conns[sid := hub.conns[sid].(rooms := hub.conns[sid].rooms + {RoomName(msg.boardId)})]
    ensures sid in hub.conns && msg.LeaveBoard? ==>
      r.1.None? && r.0.conns == hub.conns[sid := hub.conns[sid].(rooms := hub.conns[sid].rooms - {RoomName(msg.boardId)})]
    ensures sid in hub.conns && msg.Disconnect? ==> r.1.None? && r.0.conns == hub.conns - {sid}
    ensures sid in hub.conns && msg.Emit? ==> r.0 == hub
    ensures sid in hub.conns && msg.Emit? ==> (r.1.Some? <==> RelayScope(msg.event).Some?)
    ensures r.1.Some? ==>
      && sid in hub.conns && msg.Emit?
      && r.1.value.event == msg.event && r.1.value.data == msg.data
      && var room := RoomName(msg.data.boardId);
      && (forall s :: s in r.1.value.targets ==> s in hub.conns && room in hub.conns[s].rooms)
      && (forall s :: s in hub.conns && room in hub.conns[s].rooms && s != sid ==> s in r.1.value.targets)
      && (sid in r.1.value.targets <==> RelayScope(msg.event) == Some(WholeRoom) && room in hub.conns[sid].rooms)
  {
    if sid !in hub.conns then (hub, None)
    else
      var c := hub.conns[sid];
      match msg
      case JoinBoard(b) => (Hub(hub.conns[sid := c.(rooms := c.rooms + {RoomName(b)})]), None)
      case LeaveBoard(b) => (Hub(hub.conns[sid := c.(rooms := c.rooms - {RoomName(b)})]), None)
      case Disconnect => (Hub(hub.conns - {sid}), None)
      case Emit(event, data) =>
        var room := RoomName(data.boardId);
        match RelayScope(event)
        case None => (hub, None)
        case Some(OthersInRoom) => (hub, Some(Delivery(event, data, Members(hub, room) - {sid})))
        case Some(WholeRoom) => (hub, Some(Delivery(event, data, Members(hub, room))))
  }

  /** Joining a board twice is the same as joining it once. */
  lemma JoinIdempotent(hub: Hub, sid: SocketId, b: Option<Id>)
    ensures Handle(Handle(hub, sid, JoinBoard(b)).0, sid, JoinBoard(b)).0 == Handle(hub, sid, JoinBoard(b)).0
  {
    if sid in hub.conns {
      var c := hub.conns[sid];
      var once := Handle(hub, sid, JoinBoard(b)).0;
      assert once.conns[sid].rooms + {RoomName(b)} == once.conns[sid].rooms;
    }
  }

  /** Leaving a room the socket never joined changes nothing. */
  lemma LeaveUnjoinedNoop(hub: Hub, sid: SocketId, b: Option<Id>)
    requires sid in hub.conns && RoomName(b) !in hub.conns[sid].rooms
    ensures Handle(hub, sid, LeaveBoard(b)).0 == hub
  {
    var c := hub.conns[sid];
    assert c.rooms - {RoomName(b)} == c.rooms;
    assert hub.conns[sid := c] == hub.conns;
  }

  /** After leaving a board, the socket no longer receives that board's
      events; its other rooms are untouched. */
  lemma LeaveStopsDelivery(hub: Hub, sid: SocketId, b: Option<Id>, other: SocketId, event: string, rest: string)
    requires sid in hub.conns && other != sid
    ensures var left := Handle(hub, sid, LeaveBoard(b)).0;
      var d := Handle(left, other, Emit(event, Payload(b, rest))).1;
      d.Some? ==> sid !in d.value.targets
  {
  }

  /** A relay does not check that the sender has joined the board: any
      connected socket reaches every other member of any board's room. */
  lemma OutsiderReachesRoom(hub: Hub, sid: SocketId, member: SocketId, b: Id, rest: string)
    requires sid in hub.conns && member in hub.conns && member != sid
    requires RoomName(Some(b)) in hub.conns[member].rooms
    requires RoomName(Some(b)) !in hub.conns[sid].rooms
    ensures var d := Handle(hub, sid, Emit("task-created", Payload(Some(b), rest))).1;
      d.Some? && member in d.value.targets
  {
  }

  /** A disconnected socket receives nothing further, whatever anyone sends. */
  lemma DisconnectedReceivesNothing(hub: Hub, sid: SocketId, other: SocketId, msg: Message)
    requires sid in hub.conns
    ensures var gone := Handle(hub, sid, Disconnect).0;
      var d := Handle(gone, other, msg).1;
      d.Some? ==> sid !in d.value.targets
  {
  }
}
