/** Whole-session runs of the store, each checked against what the chat client
    is meant to show its user. */
module Scenarios {
  import opened ChatTypes
  import Store
  import Js
  import Inbound
  import Directory

  const Alice := User(1, "alice", "t0", "t9")
  const General := Room("r1", "general", "t0", "t9")

  /** Joining "r1" as alice with a one-message history. */
  method JoinScenario() returns (roomId: Option<string>, count: int, err: Option<string>)
    ensures roomId == Some("r1") && count == 1 && err == None
  {
    var store := new Store.ChatStore();
    store.SetUsername(Ok(Alice));
    store.GetRooms(Ok([General]));
    store.JoinRoom("r1", Ok([Message(1, "hi", "t1", "r1", 2, "bob", None)]), true);
    roomId := if store.currentRoom.Some? then Some(store.currentRoom.value.id) else None;
    count := |store.messages|;
    err := store.error;
  }

  /** Alice announces herself and sends " hi": the channel carries the join
      and the trimmed message, and nothing is added to her log locally. */
  method SendScenario() returns (sent: seq<OutFrame>, count: int)
    ensures sent == [JoinOut("alice", "r1"), MessageOut("hi", "alice", "r1", 1, "t5")]
    ensures count == 0
  {
    var store := new Store.ChatStore();
    store.SetUsername(Ok(Alice));
    store.GetRooms(Ok([General]));
    FindGeneral();
    store.JoinRoom("r1", Ok([]), true);
    assert store.currentRoom == Some(General) && store.user == Some(Alice);
    var ws := store.socket;
    ws.Established();
    store.OnOpen(ws);
    assert ws.outbox == [JoinOut("alice", "r1")];
    TrimExample();
    var _ := store.SendMessage(" hi", Clock(5, "t5"));
    sent := ws.outbox;
    count := |store.messages|;
  }

  /** The server's echo of that message, delivered twice, is logged once. */
  method EchoScenario() returns (count: int)
    ensures count == 1
  {
    var store := new Store.ChatStore();
    store.SetUsername(Ok(Alice));
    store.GetRooms(Ok([General]));
    store.JoinRoom("r1", Ok([]), true);
    var echo := MessageFrame(Some(Payload("hi", Some(9), Some("t5"), Some("alice"), None)), Some(1));
    store.OnMessage(echo, Clock(6, "t6"));
    Inbound.EchoRecordedOnce([], echo, Some(General), Some(Alice), Clock(6, "t6"), Clock(7, "t7"));
    store.OnMessage(echo, Clock(7, "t7"));
    count := |store.messages|;
  }

  lemma FindGeneral()
    ensures Directory.FindRoom([General], "r1") == Some(General)
  {
    assert Directory.IndexFrom([General], "r1", 0) == 0;
  }

  lemma TrimExample()
    ensures Js.Trim(" hi") == "hi"
  {
    assert Js.IsSpace(' ') && !Js.IsSpace('h') && !Js.IsSpace('i');
    assert " hi"[1..] == "hi";
    assert Js.TrimStart(" hi") == Js.TrimStart("hi") == "hi";
  }

  /** Without a channel a send is refused with an error, and leaving still
      resets the room state. */
  method NoChannelScenario() returns (err: Option<string>, rejoin: Option<string>, room: Option<Room>, count: int, connected: bool)
    ensures err == Some(Store.CannotSend) && rejoin == None
    ensures room == None && count == 0 && !connected
  {
    var store := new Store.ChatStore();
    store.SetUsername(Ok(Alice));
    store.GetRooms(Ok([General]));
    store.JoinRoom("r1", Ok([Message(1, "hi", "t1", "r1", 2, "bob", None)]), false);
    rejoin := store.SendMessage("hello", Clock(5, "t5"));
    err := store.error;
    store.LeaveRoom();
    room, count, connected := store.currentRoom, |store.messages|, store.socket != null;
  }

  /** A send on a channel that is still connecting is dropped and asks for a
      re-join of the same room. */
  method ReconnectScenario() returns (rejoin: Option<string>, sent: seq<OutFrame>, err: Option<string>)
    ensures rejoin == Some("r1") && sent == [] && err == Some(Store.ConnectionLost)
  {
    var store := new Store.ChatStore();
    store.SetUsername(Ok(Alice));
    store.GetRooms(Ok([General]));
    FindGeneral();
    store.JoinRoom("r1", Ok([]), true);
    assert store.currentRoom == Some(General) && store.user == Some(Alice);
    var first := store.socket;
    rejoin := store.SendMessage("hello", Clock(5, "t5"));
    sent, err := first.outbox, store.error;
  }

  /** After a re-join, the close event of the abandoned channel still clears
      the new handle and adds a notice: callbacks are not fenced by channel. */
  method StaleCloseScenario() returns (connected: bool, notice: string)
    ensures !connected && notice == "alice has left the room"
  {
    var store := new Store.ChatStore();
    store.SetUsername(Ok(Alice));
    store.GetRooms(Ok([General]));
    FindGeneral();
    store.JoinRoom("r1", Ok([]), true);
    var first := store.socket;
    assert first.username == "alice";
    store.JoinRoom("r1", Ok([]), true);
    assert store.currentRoom == Some(General) && store.messages == [];
    first.Terminated();
    assert store.currentRoom == Some(General) && store.messages == [];
    store.OnClose(first, Clock(6, "t6"));
    assert store.messages == [Inbound.SystemMessage(Inbound.LeftText("alice"), Some(General), Clock(6, "t6"))];
    connected := store.socket != null;
    notice := store.messages[0].content;
  }
}
