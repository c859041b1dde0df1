/**
 * The room record shared by the loader and the game loop of adventure.c
 * (struct room_adventure) and the fixed sizes the program is built around.
 */
module Rooms {

  /** Connection slots per room (MAX_CXNS). */
  const MAX_CXNS: nat := 6
  /** Rooms in one game (NUM_ROOMS). */
  const NUM_ROOMS: nat := 7
  /** Entries of the path history kept by the game loop. */
  const PATH_SLOTS: nat := 100

  const START_ROOM: string := "START_ROOM"
  const END_ROOM: string := "END_ROOM"
  /** The reserved command that asks for the current time. */
  const TIME: string := "time"

  /**
   * One room: its name, its type tag, the connection table (MAX_CXNS slots
   * once loaded) and the count of connection lines read for it.
   */
  datatype Room = Room(name: string, roomType: string, cxns: seq<string>, numCxns: int)

  /** The counted prefix of the connection table is inside the table. */
  predicate CountedInTable(r: Room) {
    0 <= r.numCxns <= |r.cxns|
  }

  /** `input` is one of the counted connections cxns[0 .. numCxns-1]. */
  ghost predicate Connected(r: Room, input: string) {
    exists i :: 0 <= i < r.numCxns && i < |r.cxns| && r.cxns[i] == input
  }
}
