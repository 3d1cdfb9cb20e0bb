/** The session/room store: one mutable snapshot (`user`, `rooms`,
    `currentRoom`, `messages`, `isLoading`, `error`, `socket`) and the actions
    and WebSocket callbacks that update it. Every action runs to completion
    atomically; the results of its HTTP requests are parameters. */
module Store {
  import opened ChatTypes
  import Js
  import Inbound
  import Directory

  const SetUsernameFailed := "Failed to set username"
  const FetchRoomsFailed := "Failed to fetch rooms"
  const CreateRoomFailed := "Failed to create room"
  const NoUsername := "Please set username first"
  const JoinFailed := "Failed to join room. Please check your connection."
  const ConnectionFailed := "Connection failed. Please try again."
  const CannotSend := "Unable to send message. Please try rejoining the room."
  const ConnectionLost := "Connection lost. Reconnecting..."

  /** `WebSocket.readyState` */
  datatype ReadyState = Connecting | Open | Closing | Closed

  /** One WebSocket connection, opened by one join and addressed by the room id
      and username in its URL. `outbox` lists the frames handed to the transport. */
  class Socket {
    const roomId: string
    const username: string
    var readyState: ReadyState
    var outbox: seq<OutFrame>

    constructor (roomId: string, username: string)
      ensures this.roomId == roomId && this.username == username
      ensures readyState == Connecting && outbox == []
    {
      this.roomId := roomId;
      this.username := username;
      readyState := Connecting;
      outbox := [];
    }

    /** `send`: throws while CONNECTING, transmits while OPEN, discards once closing. */
    method Send(f: OutFrame) returns (threw: bool)
      modifies this
      ensures threw <==> old(readyState) == Connecting
      ensures readyState == old(readyState)
      ensures outbox == if old(readyState) == Open then old(outbox) + [f] else old(outbox)
    {
      threw := readyState == Connecting;
      if readyState == Open {
        outbox := outbox + [f];
      }
    }

    /** `close()`: starts the closing handshake; the close event comes later. */
    method Close()
      modifies this
      ensures outbox == old(outbox)
      ensures readyState == if old(readyState) in {Connecting, Open} then Closing else old(readyState)
    {
      if readyState in {Connecting, Open} {
        readyState := Closing;
      }
    }

    /** The transport finishes the opening handshake. */
    method Established()
      requires readyState == Connecting
      modifies this
      ensures readyState == Open && outbox == old(outbox)
    {
      readyState := Open;
    }

    /** The transport reports the connection closed, from whatever state. */
    method Terminated()
      modifies this
      ensures readyState == Closed && outbox == old(outbox)
    {
      readyState := Closed;
    }
  }

  class ChatStore {
    var user: Option<User>
    var rooms: seq<Room>
    var currentRoom: Option<Room>
    var messages: seq<Message>
    var isLoading: bool
    var error: Option<string>
    var socket: Socket?

    /** A live channel is addressed to the room the store calls current. */
    ghost predicate Valid()
      reads this
    {
      socket != null && currentRoom.Some? ==> currentRoom.value.id == socket.roomId
    }

    constructor ()
      ensures Valid()
      ensures user == None && rooms == [] && currentRoom == None && messages == []
      ensures !isLoading && error == None && socket == null
    {
      user, rooms, currentRoom, messages := None, [], None, [];
      isLoading, error, socket := false, None, null;
    }

    /** What `joinRoom` leaves behind, relative to the state before the action. */
    twostate predicate JoinEffect(roomId: string, history: Response<seq<Message>>, socketCreated: bool)
      reads this, socket
    {
      if old(user).None? then
        && error == Some(NoUsername)
        && currentRoom == old(currentRoom) && messages == old(messages) && socket == old(socket)
      else if history.Ok? && socketCreated then
        && socket != null && fresh(socket)
        && socket.roomId == roomId && socket.username == old(user).value.username
        && socket.readyState == Connecting && socket.outbox == []
        && currentRoom == Directory.FindRoom(rooms, roomId)
        && messages == Js.Reversed(history.data)
        && error == None
      else
        && error == Some(JoinFailed) && socket == null
        && currentRoom == old(currentRoom) && messages == old(messages)
    }

    /** `setUsername`, with the outcome of `POST /chat/username` (and of
        persisting the identity) as `response`. */
    method SetUsername(response: Response<User>)
      requires Valid()
      modifies this
      ensures Valid()
      ensures !isLoading
      ensures response.Ok? ==> user == Some(response.data) && error == None
      ensures response.Failed? ==> user == old(user) && error == Some(SetUsernameFailed)
      ensures rooms == old(rooms) && currentRoom == old(currentRoom)
      ensures messages == old(messages) && socket == old(socket)
    {
      isLoading, error := true, None;
      if response.Ok? {
        user, isLoading := Some(response.data), false;
      } else {
        error, isLoading := Some(SetUsernameFailed), false;
      }
    }

    /** `getRooms`, with the outcome of `GET /chat/rooms` as `response`. */
    method GetRooms(response: Response<seq<Room>>)
      requires Valid()
      modifies this
      ensures Valid()
      ensures !isLoading
      ensures response.Ok? ==> rooms == response.data && error == None
      ensures response.Failed? ==> rooms == old(rooms) && error == Some(FetchRoomsFailed)
      ensures user == old(user) && currentRoom == old(currentRoom)
      ensures messages == old(messages) && socket == old(socket)
    {
      isLoading, error := true, None;
      if response.Ok? {
        rooms, isLoading := response.data, false;
      } else {
        error, isLoading := Some(FetchRoomsFailed), false;
      }
    }

    /** `createRoom`, with the outcome of `POST /chat/rooms` as `response`; on
        success it joins the new room, whose inputs are `history` and `socketCreated`. */
    method CreateRoom(response: Response<Room>, history: Response<seq<Message>>, socketCreated: bool)
      requires Valid()
      modifies this
      ensures Valid()
      ensures !isLoading && user == old(user)
      ensures response.Failed? ==>
        && error == Some(CreateRoomFailed) && rooms == old(rooms)
        && currentRoom == old(currentRoom) && messages == old(messages) && socket == old(socket)
      ensures response.Ok? ==>
        && rooms == old(rooms) + [response.data]
        && JoinEffect(response.data.id, history, socketCreated)
      ensures response.Ok? && old(user).Some? && history.Ok? && socketCreated
              && Directory.FindRoom(old(rooms), response.data.id).None? ==>
        currentRoom == Some(response.data)
    {
      isLoading, error := true, None;
      if response.Failed? {
        error, isLoading := Some(CreateRoomFailed), false;
        return;
      }
      Directory.FindAfterAppend(rooms, response.data, response.data.id);
      rooms, isLoading := rooms + [response.data], false;
      JoinRoom(response.data.id, history, socketCreated);
    }

    /** `joinRoom(roomId)`: `history` is the outcome of
        `GET /chat/rooms/{roomId}/messages` (newest first) and `socketCreated`
        says whether `new WebSocket(...)` succeeded. */
    method JoinRoom(roomId: string, history: Response<seq<Message>>, socketCreated: bool)
      requires Valid()
      modifies this
      ensures Valid()
      ensures JoinEffect(roomId, history, socketCreated)
      ensures user == old(user) && rooms == old(rooms) && isLoading == old(isLoading)
    {
      if user.None? {
        error := Some(NoUsername);
        return;
      }
      if history.Failed? || !socketCreated {
        error, socket := Some(JoinFailed), null;
        return;
      }
      var ws := new Socket(roomId, user.value.username);
      currentRoom, messages := Directory.FindRoom(rooms, roomId), Js.Reversed(history.data);
      socket, error := ws, None;
    }

    /** `leaveRoom`: announces the leave and closes the channel when channel,
        room and user are all present, then always resets the room state. */
    method LeaveRoom()
      requires Valid()
      modifies this, socket
      ensures Valid()
      ensures currentRoom == None && messages == [] && socket == null
      ensures user == old(user) && rooms == old(rooms) && isLoading == old(isLoading) && error == old(error)
      ensures old(socket) != null ==>
        var s := old(socket);
        if old(currentRoom).Some? && old(user).Some? then
          && s.outbox == old(s.outbox) + (if old(s.readyState) == Open then [LeaveOut(old(user).value.username, s.roomId)] else [])
          && s.readyState == (if old(s.readyState) in {Connecting, Open} then Closing else old(s.readyState))
        else
          s.outbox == old(s.outbox) && s.readyState == old(s.readyState)
    {
      var s := socket;
      if s != null && currentRoom.Some? && user.Some? {
        var _ := s.Send(LeaveOut(user.value.username, currentRoom.value.id));
        s.Close();
      }
      currentRoom, messages, socket := None, [], null;
    }

    /** `sendMessage(content)`. When the channel exists but is not OPEN the send
        is dropped and the store starts `joinRoom` on the same room without
        awaiting it: `rejoin` is that room id, for the caller to join next. */
    method SendMessage(content: string, now: Clock) returns (rejoin: Option<string>)
      requires Valid()
      modifies this, socket
      ensures Valid()
      ensures user == old(user) && rooms == old(rooms) && currentRoom == old(currentRoom)
      ensures messages == old(messages) && isLoading == old(isLoading) && socket == old(socket)
      ensures socket != null ==> socket.readyState == old(socket.readyState)
      ensures socket == null || currentRoom.None? || user.None? ==>
        && error == Some(CannotSend) && rejoin == None
        && (socket != null ==> socket.outbox == old(socket.outbox))
      ensures socket != null && currentRoom.Some? && user.Some? && old(socket.readyState) != Open ==>
        && error == Some(ConnectionLost) && rejoin == Some(currentRoom.value.id)
        && socket.outbox == old(socket.outbox)
      ensures socket != null && currentRoom.Some? && user.Some? && old(socket.readyState) == Open ==>
        && error == old(error) && rejoin == None
        && socket.outbox == old(socket.outbox) + [MessageOut(Js.Trim(content), user.value.username, socket.roomId, user.value.id, now.iso)]
    {
      if socket == null || currentRoom.None? || user.None? {
        error := Some(CannotSend);
        return None;
      }
      if socket.readyState != Open {
        error := Some(ConnectionLost);
        return Some(currentRoom.value.id);
      }
      var u, r := user.value, currentRoom.value;
      var _ := socket.Send(MessageOut(Js.Trim(content), u.username, r.id, u.id, now.iso));
      rejoin := None;
    }

    /** `setError` */
    method SetError(e: Option<string>)
      requires Valid()
      modifies this
      ensures Valid()
      ensures error == e
      ensures user == old(user) && rooms == old(rooms) && currentRoom == old(currentRoom)
      ensures messages == old(messages) && isLoading == old(isLoading) && socket == old(socket)
    {
      error := e;
    }

    /** `onopen` of the channel `ws`: clears the error and announces the user
        captured at join time to the room `ws` was opened for. */
    method OnOpen(ws: Socket)
      requires Valid() && ws.readyState == Open
      modifies this, ws
      ensures Valid()
      ensures error == None
      ensures ws.readyState == Open && ws.outbox == old(ws.outbox) + [JoinOut(ws.username, ws.roomId)]
      ensures user == old(user) && rooms == old(rooms) && currentRoom == old(currentRoom)
      ensures messages == old(messages) && isLoading == old(isLoading) && socket == old(socket)
    {
      error := None;
      var _ := ws.Send(JoinOut(ws.username, ws.roomId));
    }

    /** `onerror`: the channel is dead. */
    method OnError()
      requires Valid()
      modifies this
      ensures Valid()
      ensures error == Some(ConnectionFailed) && socket == null
      ensures user == old(user) && rooms == old(rooms) && currentRoom == old(currentRoom)
      ensures messages == old(messages) && isLoading == old(isLoading)
    {
      error, socket := Some(ConnectionFailed), null;
    }

    /** `onclose` of the channel `ws`: a local notice for the user captured at
        join time while a room is current; the socket handle is cleared either way. */
    method OnClose(ws: Socket, now: Clock)
      requires Valid() && ws.readyState == Closed
      modifies this
      ensures Valid()
      ensures socket == null
      ensures old(currentRoom).Some? ==>
        messages == [Inbound.SystemMessage(Inbound.LeftText(ws.username), old(currentRoom), now)] + old(messages)
      ensures old(currentRoom).None? ==> messages == old(messages)
      ensures user == old(user) && rooms == old(rooms) && currentRoom == old(currentRoom)
      ensures isLoading == old(isLoading) && error == old(error)
    {
      if currentRoom.Some? {
        messages := [Inbound.SystemMessage(Inbound.LeftText(ws.username), currentRoom, now)] + messages;
      }
      socket := null;
    }

    /** `onmessage`: one inbound frame, translated against the current snapshot. */
    method OnMessage(frame: InFrame, now: Clock)
      requires Valid()
      modifies this
      ensures Valid()
      ensures messages == Inbound.Translate(old(messages), frame, currentRoom, user, now)
      ensures user == old(user) && rooms == old(rooms) && currentRoom == old(currentRoom)
      ensures isLoading == old(isLoading) && error == old(error) && socket == old(socket)
    {
      messages := Inbound.Translate(messages, frame, currentRoom, user, now);
    }
  }
}
