/** The room directory the store keeps: lookup by id and the effect of
    appending a created room. */
module Directory {
  import opened ChatTypes

  /** Index of the first room with the given id at or after position `from`, or -1. */
  function IndexFrom(rooms: seq<Room>, id: string, from: nat): (k: int)
    requires from <= |rooms|
    ensures k == -1 || from <= k < |rooms|
    ensures k >= 0 ==> rooms[k].id == id && (forall j :: from <= j < k ==> rooms[j].id != id)
    ensures k == -1 ==> forall j :: from <= j < |rooms| ==> rooms[j].id != id
    decreases |rooms| - from
  {
    if from == |rooms| then -1
    else if rooms[from].id == id then from
    else IndexFrom(rooms, id, from + 1)
  }

  /** `rooms.find(r => r.id === id)`: the first room with that id, if any. */
  function FindRoom(rooms: seq<Room>, id: string): (r: Option<Room>)
    ensures r.None? <==> (forall j :: 0 <= j < |rooms| ==> rooms[j].id != id)
    ensures r.Some? ==> exists k :: 0 <= k < |rooms| && rooms[k] == r.value && r.value.id == id
                         && (forall j :: 0 <= j < k ==> rooms[j].id != id)
  {
    var k := IndexFrom(rooms, id, 0);
    if k == -1 then None else Some(rooms[k])
  }

  /** Appending a room keeps every earlier lookup as it was; the appended room is
      found by its own id unless an earlier room already carries that id. */
  lemma FindAfterAppend(rooms: seq<Room>, room: Room, id: string)
    ensures FindRoom(rooms, id).Some? ==> FindRoom(rooms + [room], id) == FindRoom(rooms, id)
    ensures FindRoom(rooms, id).None? ==> FindRoom(rooms + [room], id) == (if room.id == id then Some(room) else None)
  {
    var ext := rooms + [room];
    var r := FindRoom(rooms, id);
    var e := FindRoom(ext, id);
    if r.Some? {
      var k :| 0 <= k < |rooms| && rooms[k] == r.value && r.value.id == id && (forall j :: 0 <= j < k ==> rooms[j].id != id);
      assert ext[k].id == id;
      var k' :| 0 <= k' < |ext| && ext[k'] == e.value && e.value.id == id && (forall j :: 0 <= j < k' ==> ext[j].id != id);
      assert k' == k;
    } else if room.id == id {
      assert ext[|rooms|].id == id;
      var k' :| 0 <= k' < |ext| && ext[k'] == e.value && e.value.id == id && (forall j :: 0 <= j < k' ==> ext[j].id != id);
    } else {
      assert forall j :: 0 <= j < |ext| ==> ext[j].id != id by {
        forall j | 0 <= j < |ext| ensures ext[j].id != id {
          if j < |rooms| {
            assert ext[j] == rooms[j];
          }
        }
      }
    }
  }
}
