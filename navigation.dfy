/**
 * The two look-ups the game loop of adventure.c makes over the loaded rooms:
 * inputMatch, which classifies what the player typed against the current
 * room's connections and the "time" command, and the scans over all rooms
 * that find the start room (findStart) and the room a move leads to.
 */
module Navigation {
  import opened Rooms

  /** Which string of a room a scan compares against. */
  datatype Field = Name | Type

  function Get(r: Room, f: Field): string {
    match f
    case Name => r.name
    case Type => r.roomType
  }

  /**
   * The index a forward scan over rooms[0 .. n-1] ends on when it keeps
   * the last room whose field equals `key`, starting from `fallback`.
   */
  function LastWith(rooms: seq<Room>, f: Field, key: string, fallback: nat, n: nat): (k: nat)
    requires n <= |rooms|
    ensures if exists i :: 0 <= i < n && Get(rooms[i], f) == key
            then k < n && Get(rooms[k], f) == key && forall j :: k < j < n ==> Get(rooms[j], f) != key
            else k == fallback
    decreases n
  {
    if n == 0 then fallback
    else if Get(rooms[n - 1], f) == key then n - 1
    else LastWith(rooms, f, key, fallback, n - 1)
  }

  /**
   * inputMatch: 1 when the input equals one of the counted connections,
   * otherwise 2 when it is the command "time", otherwise 0. A connection
   * named "time" is a move, not the command.
   */
  method InputMatch(input: string, room: Room) returns (m: int)
    requires CountedInTable(room)
    ensures m == 0 || m == 1 || m == 2
    ensures m == 1 <==> Connected(room, input)
    ensures m == 2 <==> !Connected(room, input) && input == TIME
    ensures m == 0 <==> !Connected(room, input) && input != TIME
  {
    m := 0;
    var i := 0;
    while i < room.numCxns
      invariant 0 <= i <= room.numCxns
      invariant m == 0 || m == 1
      invariant m == 1 <==> exists k :: 0 <= k < i && room.cxns[k] == input
    {
      if input == room.cxns[i] {
        m := 1;
      }
      i := i + 1;
    }
    if m == 0 && input == TIME {
      m := 2;
    }
  }

  /**
   * findStart: the last room typed START_ROOM, or the first room when
   * none is.
   */
  method FindStart(rooms: seq<Room>) returns (a: nat)
    requires |rooms| == NUM_ROOMS
    ensures a < |rooms|
    ensures a == LastWith(rooms, Type, START_ROOM, 0, |rooms|)
    ensures (exists i :: 0 <= i < |rooms| && rooms[i].roomType == START_ROOM) ==>
      rooms[a].roomType == START_ROOM && forall j :: a < j < |rooms| ==> rooms[j].roomType != START_ROOM
    ensures (forall i :: 0 <= i < |rooms| ==> rooms[i].roomType != START_ROOM) ==> a == 0
  {
    a := 0;
    for i := 0 to NUM_ROOMS
      invariant a < |rooms|
      invariant a == LastWith(rooms, Type, START_ROOM, 0, i)
    {
      if rooms[i].roomType == START_ROOM {
        a := i;
      }
    }
    assert forall i :: 0 <= i < |rooms| ==> Get(rooms[i], Type) == rooms[i].roomType;
  }

  /**
   * The move's room update: scanning every room, the current room becomes
   * the last one named `input`; it stays as it is when none is.
   */
  method FindNamed(rooms: seq<Room>, input: string, current: nat) returns (k: nat)
    requires |rooms| == NUM_ROOMS && current < |rooms|
    ensures k < |rooms|
    ensures k == LastWith(rooms, Name, input, current, |rooms|)
    ensures (exists i :: 0 <= i < |rooms| && rooms[i].name == input) ==>
      rooms[k].name == input && forall j :: k < j < |rooms| ==> rooms[j].name != input
    ensures (forall i :: 0 <= i < |rooms| ==> rooms[i].name != input) ==> k == current
  {
    k := current;
    for i := 0 to NUM_ROOMS
      invariant k < |rooms|
      invariant k == LastWith(rooms, Name, input, current, i)
    {
      if input == rooms[i].name {
        k := i;
      }
    }
    assert forall i :: 0 <= i < |rooms| ==> Get(rooms[i], Name) == rooms[i].name;
  }
}
