/** The records the chat store holds and the frames its WebSocket channel carries. */
module ChatTypes {

  datatype Option<+T> = None | Some(value: T)

  /** Outcome of an awaited HTTP request: the response body, or a thrown error. */
  datatype Response<+T> = Ok(data: T) | Failed

  /** The identity minted by `POST /chat/username`. */
  datatype User = User(id: int, username: string, createdAt: string, expiresAt: string)

  datatype Room = Room(id: string, name: string, createdAt: string, expiresAt: string)

  /** The optional `type` field of a message: "message" (Chat) or "system" (System). */
  datatype Kind = Chat | System

  datatype Message = Message(
    id: int,
    content: string,
    createdAt: string,
    roomId: string,
    userId: int,
    username: string,
    kind: Option<Kind>)

  /** A reading of the wall clock: `Date.now()` and `new Date().toISOString()`. */
  datatype Clock = Clock(millis: int, iso: string)

  /** The nested `message` object of an inbound `message` frame; absent fields are None. */
  datatype Payload = Payload(
    content: string,
    id: Option<int>,
    createdAt: Option<string>,
    username: Option<string>,
    sender: Option<string>)

  /** An inbound frame after `JSON.parse`, tagged by its `event` field. */
  datatype InFrame =
    | MessageFrame(message: Option<Payload>, userId: Option<int>)
    | JoinFrame(username: Option<string>)
    | LeaveFrame(username: Option<string>)
    | OtherFrame

  /** An outbound frame before `JSON.stringify`. */
  datatype OutFrame =
    | JoinOut(username: string, roomId: string)
    | LeaveOut(username: string, roomId: string)
    | MessageOut(content: string, username: string, roomId: string, userId: int, createdAt: string)
}
