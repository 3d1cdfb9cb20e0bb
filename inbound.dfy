/** Translation of inbound WebSocket frames into changes of the message log.
    The log is kept newest-first: new entries go to the front. */
module Inbound {
  import opened ChatTypes
  import Js

  // ------------------------------------------------------- record construction

  /** `currentRoom?.id || ""` */
  function RoomIdOf(current: Option<Room>): (id: string) {
    if current.Some? then current.value.id else ""
  }

  function UserNameOf(user: Option<User>): (name: Option<string>) {
    if user.Some? then Some(user.value.username) else None
  }

  function UserIdOf(user: Option<User>): (id: Option<int>) {
    if user.Some? then Some(user.value.id) else None
  }

  /** The sender's name: payload `username`, then payload `sender`, then the
      current user's name, then "unknown"; the first truthy one wins. */
  function ResolveUsername(p: Payload, user: Option<User>): (r: string)
    ensures r != ""
    ensures Js.Truthy(p.username) ==> r == p.username.value
    ensures !Js.Truthy(p.username) && Js.Truthy(p.sender) ==> r == p.sender.value
    ensures !Js.Truthy(p.username) && !Js.Truthy(p.sender) && Js.Truthy(UserNameOf(user)) ==> r == user.value.username
    ensures r == "unknown" || Some(r) == p.username || Some(r) == p.sender || Some(r) == UserNameOf(user)
  {
    Js.Or(p.username, Js.Or(p.sender, Js.Or(UserNameOf(user), "unknown")))
  }

  /** The Message record built from an inbound `message` frame. */
  function NewMessage(p: Payload, frameUserId: Option<int>, current: Option<Room>, user: Option<User>, now: Clock): (m: Message)
    ensures m.content == p.content && m.kind == Some(Chat)
    ensures m.username == ResolveUsername(p, user)
    ensures m.roomId == RoomIdOf(current)
    ensures m.id == (if Js.TruthyNum(p.id) then p.id.value else now.millis)
    ensures m.createdAt == (if Js.Truthy(p.createdAt) then p.createdAt.value else now.iso)
    ensures m.userId == Js.OrNum(frameUserId, Js.OrNum(UserIdOf(user), 0))
  {
    Message(
      Js.OrNum(p.id, now.millis),
      p.content,
      Js.Or(p.createdAt, now.iso),
      RoomIdOf(current),
      Js.OrNum(frameUserId, Js.OrNum(UserIdOf(user), 0)),
      ResolveUsername(p, user),
      Some(Chat))
  }

  /** The room of a record never comes from the payload, only from the store. */
  lemma RoomIdIgnoresPayload(p: Payload, q: Payload, u: Option<int>, v: Option<int>, current: Option<Room>, user: Option<User>, now: Clock)
    ensures NewMessage(p, u, current, user, now).roomId == NewMessage(q, v, current, user, now).roomId
    ensures current.None? ==> NewMessage(p, u, current, user, now).roomId == ""
  {
  }

  // ------------------------------------------------------------------ dedup

  /** The triple the dedup rule compares. */
  predicate SameKey(a: Message, b: Message) {
    a.content == b.content && a.username == b.username && a.createdAt == b.createdAt
  }

  /** `log.some(e => SameKey(e, m))` */
  function Contains(log: seq<Message>, m: Message): (r: bool)
    ensures r <==> exists i :: 0 <= i < |log| && SameKey(log[i], m)
  {
    if log == [] then false
    else if SameKey(log[0], m) then true
    else
      var r := Contains(log[1..], m);
      assert forall i :: 1 <= i < |log| ==> log[i] == log[1..][i - 1];
      r
  }

  /** Adds a chat record unless an entry with the same key is already present. */
  function Receive(log: seq<Message>, m: Message): (r: seq<Message>)
    ensures Contains(r, m)
    ensures Contains(log, m) ==> r == log
    ensures !Contains(log, m) ==> r == [m] + log
  {
    if Contains(log, m) then log else [m] + log
  }

  /** No two entries of the log share a key. */
  predicate Unique(log: seq<Message>) {
    forall i, j :: 0 <= i < j < |log| ==> !SameKey(log[i], log[j])
  }

  /** Receiving keeps a duplicate-free log duplicate-free. */
  lemma ReceiveKeepsUnique(log: seq<Message>, m: Message)
    requires Unique(log)
    ensures Unique(Receive(log, m))
  {
    var r := Receive(log, m);
    if !Contains(log, m) {
      forall i, j | 0 <= i < j < |r| ensures !SameKey(r[i], r[j]) {
        if i == 0 {
          assert r[j] == log[j - 1];
        } else {
          assert r[i] == log[i - 1] && r[j] == log[j - 1];
        }
      }
    }
  }

  // --------------------------------------------------------- presence notices

  /** The notice text of a `join`/`leave` frame AS WRITTEN in the source:
      `${data.username} has ${data.event}ed the room`. */
  function PresenceTextAsWritten(name: Option<string>, event: string): (text: string) {
    Js.Show(name) + " has " + event + "ed the room"
  }

  /** As written, a `leave` frame announces "leaveed", not "left". */
  lemma LeaveNoticeAsWritten()
    ensures PresenceTextAsWritten(Some("bob"), "leave") == "bob has leaveed the room"
    ensures PresenceTextAsWritten(Some("bob"), "leave") != "bob has left the room"
  {
    assert PresenceTextAsWritten(Some("bob"), "leave")[10] == 'a';
    assert "bob has left the room"[10] == 'f';
  }

  /** The notice text of a `join`/`leave` frame with the past tense spelled right. */
  function PresenceText(name: Option<string>, joined: bool): (text: string) {
    Js.Show(name) + (if joined then " has joined the room" else " has left the room")
  }

  /** The local notice that `onclose` adds for the user who joined. */
  function LeftText(username: string): (text: string) {
    username + " has left the room"
  }

  /** The corrected text agrees with the source for `join` and, for `leave`,
      reads like the notice the store writes itself when its channel closes. */
  lemma PresenceTextCorrected(name: Option<string>)
    ensures PresenceText(name, true) == PresenceTextAsWritten(name, "join")
    ensures name.Some? ==> PresenceText(name, false) == LeftText(name.value)
    ensures PresenceText(name, false) != PresenceTextAsWritten(name, "leave")
  {
    var n := Js.Show(name);
    assert PresenceTextAsWritten(name, "join") == n + " has joined the room";
    assert PresenceText(name, false)[|n| + 7] == 'f';
    assert PresenceTextAsWritten(name, "leave")[|n| + 7] == 'a';
  }

  /** A locally synthesised notice: id and timestamp from the clock, user 0, "System". */
  function SystemMessage(content: string, current: Option<Room>, now: Clock): (m: Message)
    ensures m.username == "System" && m.userId == 0 && m.kind == Some(System)
    ensures m.content == content && m.roomId == RoomIdOf(current)
    ensures m.id == now.millis && m.createdAt == now.iso
  {
    Message(now.millis, content, now.iso, RoomIdOf(current), 0, "System", Some(System))
  }

  // ------------------------------------------------------------ onmessage

  /** The `event` name of a presence frame, as the notice text interpolates it. */
  function EventName(frame: InFrame): (e: string)
    requires frame.JoinFrame? || frame.LeaveFrame?
  {
    if frame.JoinFrame? then "join" else "leave"
  }

  /** The new log after one inbound frame, as the source computes it. A
      `message` frame without its nested `message` object makes the handler
      throw before it changes anything. */
  function Translate(log: seq<Message>, frame: InFrame, current: Option<Room>, user: Option<User>, now: Clock): (r: seq<Message>)
    ensures |log| <= |r| <= |log| + 1
  {
    match frame
    case MessageFrame(payload, uid) =>
      if payload.None? then log
      else Receive(log, NewMessage(payload.value, uid, current, user, now))
    case JoinFrame(name) => [SystemMessage(PresenceTextAsWritten(name, "join"), current, now)] + log
    case LeaveFrame(name) => [SystemMessage(PresenceTextAsWritten(name, "leave"), current, now)] + log
    case OtherFrame => log
  }

  /** Translation never removes or reorders what the log holds and adds at most
      one entry: nothing for other events and for message frames without their
      `message` object, a notice for every presence frame, and a chat record
      through the dedup rule. */
  lemma TranslateShape(log: seq<Message>, frame: InFrame, current: Option<Room>, user: Option<User>, now: Clock)
    ensures var r := Translate(log, frame, current, user, now);
      && |log| <= |r| <= |log| + 1 && r[|r| - |log|..] == log
      && (frame.OtherFrame? || (frame.MessageFrame? && frame.message.None?) ==> r == log)
      && (frame.JoinFrame? || frame.LeaveFrame? ==>
            r == [SystemMessage(PresenceTextAsWritten(frame.username, EventName(frame)), current, now)] + log)
      && (frame.MessageFrame? && frame.message.Some? ==>
            var m := NewMessage(frame.message.value, frame.userId, current, user, now);
            Contains(r, m) && r == (if Contains(log, m) then log else [m] + log))
  {
    var r := Translate(log, frame, current, user, now);
    match frame
    case MessageFrame(payload, uid) =>
      if payload.Some? {
        var m := NewMessage(payload.value, uid, current, user, now);
        assert r == Receive(log, m);
      }
    case JoinFrame(name) =>
      assert r[1..] == log;
    case LeaveFrame(name) =>
      assert r[1..] == log;
    case OtherFrame =>
  }

  /** The translation with the leave notice spelled "has left the room". */
  function TranslateIntended(log: seq<Message>, frame: InFrame, current: Option<Room>, user: Option<User>, now: Clock): (r: seq<Message>)
  {
    match frame
    case JoinFrame(name) => [SystemMessage(PresenceText(name, true), current, now)] + log
    case LeaveFrame(name) => [SystemMessage(PresenceText(name, false), current, now)] + log
    case _ => Translate(log, frame, current, user, now)
  }

  /** The intended translation differs from the source's only in the text of
      the notice a leave frame adds. */
  lemma TranslateIntendedDiffers(log: seq<Message>, frame: InFrame, current: Option<Room>, user: Option<User>, now: Clock)
    ensures !frame.LeaveFrame? ==> TranslateIntended(log, frame, current, user, now) == Translate(log, frame, current, user, now)
    ensures frame.LeaveFrame? ==>
      var a, b := Translate(log, frame, current, user, now), TranslateIntended(log, frame, current, user, now);
      && |a| == |b| == |log| + 1 && a[1..] == b[1..] == log
      && a[0].content != b[0].content && a[0].(content := b[0].content) == b[0]
      && b[0].content == PresenceText(frame.username, false)
  {
    if frame.JoinFrame? || frame.LeaveFrame? {
      PresenceTextCorrected(frame.username);
    }
  }

  /** A `message` frame whose key is already in the log leaves the log as it is. */
  lemma DuplicateIgnored(log: seq<Message>, frame: InFrame, current: Option<Room>, user: Option<User>, now: Clock, i: nat)
    requires frame.MessageFrame? && frame.message.Some?
    requires i < |log| && SameKey(log[i], NewMessage(frame.message.value, frame.userId, current, user, now))
    ensures Translate(log, frame, current, user, now) == log
  {
  }

  /** Delivering the same timestamped frame twice records it once, whatever the
      clock says at the second delivery. */
  lemma EchoRecordedOnce(log: seq<Message>, frame: InFrame, current: Option<Room>, user: Option<User>, t1: Clock, t2: Clock)
    requires frame.MessageFrame? && frame.message.Some?
    requires Js.Truthy(frame.message.value.createdAt) || t1.iso == t2.iso
    ensures var once := Translate(log, frame, current, user, t1);
      Translate(once, frame, current, user, t2) == once
  {
    var p := frame.message.value;
    var m1 := NewMessage(p, frame.userId, current, user, t1);
    var m2 := NewMessage(p, frame.userId, current, user, t2);
    assert SameKey(m1, m2);
    var once := Translate(log, frame, current, user, t1);
    var i :| 0 <= i < |once| && SameKey(once[i], m1);
    assert SameKey(once[i], m2);
  }

  /** A message frame keeps a duplicate-free log duplicate-free. */
  lemma MessageFrameKeepsUnique(log: seq<Message>, frame: InFrame, current: Option<Room>, user: Option<User>, now: Clock)
    requires frame.MessageFrame? && Unique(log)
    ensures Unique(Translate(log, frame, current, user, now))
  {
    if frame.message.Some? {
      ReceiveKeepsUnique(log, NewMessage(frame.message.value, frame.userId, current, user, now));
    }
  }

  // ---------------------------------------------------------- arrival order

  /** The log after a stream of chat records arrives, first arrival first. */
  function ReceiveAll(log: seq<Message>, ms: seq<Message>): (r: seq<Message>)
    decreases |ms|
  {
    if ms == [] then log else ReceiveAll(Receive(log, ms[0]), ms[1..])
  }

  /** No two records in the stream share a key, and none shares one with the log. */
  predicate Fresh(log: seq<Message>, ms: seq<Message>) {
    && (forall i, j :: 0 <= i < j < |ms| ==> !SameKey(ms[i], ms[j]))
    && (forall i, k :: 0 <= i < |ms| && 0 <= k < |log| ==> !SameKey(ms[i], log[k]))
  }

  /** Once the first arrival is in the log, the rest of the stream is still fresh. */
  lemma FreshTail(log: seq<Message>, ms: seq<Message>)
    requires ms != [] && Fresh(log, ms)
    ensures !Contains(log, ms[0])
    ensures Fresh([ms[0]] + log, ms[1..])
  {
    var log', tail := [ms[0]] + log, ms[1..];
    forall i, k | 0 <= i < |tail| && 0 <= k < |log'| ensures !SameKey(tail[i], log'[k]) {
      assert tail[i] == ms[i + 1];
      if k > 0 {
        assert log'[k] == log[k - 1];
      }
    }
    forall i, j | 0 <= i < j < |tail| ensures !SameKey(tail[i], tail[j]) {
      assert tail[i] == ms[i + 1] && tail[j] == ms[j + 1];
    }
  }

  /** One arrival more: the first record of the stream goes behind the later ones. */
  lemma PrependStep(log: seq<Message>, ms: seq<Message>)
    requires ms != [] && !Contains(log, ms[0])
    requires ReceiveAll([ms[0]] + log, ms[1..]) == Js.Reversed(ms[1..]) + ([ms[0]] + log)
    ensures ReceiveAll(log, ms) == Js.Reversed(ms) + log
  {
    var m, tail := ms[0], ms[1..];
    var rt := Js.Reversed(tail);
    calc {
      ReceiveAll(log, ms);
      ReceiveAll(Receive(log, m), tail);
      { assert Receive(log, m) == [m] + log; }
      ReceiveAll([m] + log, tail);
      rt + ([m] + log);
      { assert rt + ([m] + log) == (rt + [m]) + log; }
      (rt + [m]) + log;
      Js.Reversed(ms) + log;
    }
  }

  /** Distinct arrivals are all kept, newest first, in front of the old log. */
  lemma {:induction false} ArrivalsPrepended(log: seq<Message>, ms: seq<Message>)
    requires Fresh(log, ms)
    ensures ReceiveAll(log, ms) == Js.Reversed(ms) + log
    decreases |ms|
  {
    if ms != [] {
      FreshTail(log, ms);
      ArrivalsPrepended([ms[0]] + log, ms[1..]);
      PrependStep(log, ms);
    }
  }

  /** The display order (the log reversed once more) lists distinct arrivals in
      the order they arrived, after the earlier history. */
  lemma DisplayOrderIsArrivalOrder(log: seq<Message>, ms: seq<Message>)
    requires Fresh(log, ms)
    ensures Js.Reversed(ReceiveAll(log, ms)) == Js.Reversed(log) + ms
  {
    ArrivalsPrepended(log, ms);
    Js.ReversedConcat(Js.Reversed(ms), log);
    Js.ReversedTwice(ms);
  }
}
