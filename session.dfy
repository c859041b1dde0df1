/**
 * runGame in adventure.c: the start room is found, the path history is
 * started with its name, and each word the player types is one turn. A
 * turn that names a counted connection of the current room is a move: it
 * counts a step, records the input in the path history and moves to the
 * last room of that name. "time" asks for the clock and changes nothing
 * here, anything else is rejected. Whenever the current room is the end
 * room, its name is written over the newest path entry and the game is done.
 */
module Session {
  import opened Rooms
  import opened Navigation

  /** The loop's variables: current room (an index into the rooms), steps, done, and pathHistory. */
  datatype State = State(room: nat, steps: nat, done: bool, path: seq<string>)

  /** The rooms as main hands them to the game: NUM_ROOMS records with MAX_CXNS slots whose counts fit them. */
  ghost predicate WellFormed(rooms: seq<Room>) {
    |rooms| == NUM_ROOMS
    && forall i :: 0 <= i < |rooms| ==> |rooms[i].cxns| == MAX_CXNS && CountedInTable(rooms[i])
  }

  /**
   * What holds of the loop's variables between turns: the path history
   * starts with the start room, the game is still at the start until a step
   * is taken, the current room is an unfinished end room only at the start,
   * and once done the newest entry is the end room's name.
   */
  ghost predicate Inv(rooms: seq<Room>, start: nat, s: State) {
    WellFormed(rooms) && start < |rooms| && s.room < |rooms|
    && |s.path| == PATH_SLOTS && s.steps < PATH_SLOTS
    && s.path[0] == rooms[start].name
    && (s.steps == 0 ==> s.room == start)
    && (!s.done && rooms[s.room].roomType == END_ROOM ==> s.steps == 0)
    && (s.done ==> rooms[s.room].roomType == END_ROOM && s.path[s.steps] == rooms[s.room].name)
  }

  /** The state before the first turn. Entries 1.. of the path history are not yet written; here they are empty. */
  function Initial(rooms: seq<Room>): State
    requires |rooms| == NUM_ROOMS
  {
    var a := LastWith(rooms, Type, START_ROOM, 0, |rooms|);
    State(a, 0, false, [rooms[a].name] + seq(PATH_SLOTS - 1, _ => ""))
  }

  lemma InitialInv(rooms: seq<Room>)
    requires WellFormed(rooms)
    ensures Inv(rooms, Initial(rooms).room, Initial(rooms))
  {
  }

  /** A turn may be taken: a move has a free path entry to write. */
  ghost predicate CanTurn(rooms: seq<Room>, s: State, input: string) {
    s.room < |rooms| && |s.path| == PATH_SLOTS && s.steps < PATH_SLOTS
    && (Connected(rooms[s.room], input) ==> s.steps + 1 < PATH_SLOTS)
  }

  /** One pass of the loop body after the player typed `input`. */
  ghost function Step(rooms: seq<Room>, s: State, input: string): State
    requires CanTurn(rooms, s, input)
  {
    var moved :=
      if Connected(rooms[s.room], input) then
        State(LastWith(rooms, Name, input, s.room, |rooms|), s.steps + 1, s.done, s.path[s.steps + 1 := input])
      else s;
    if rooms[moved.room].roomType == END_ROOM then
      moved.(done := true, path := moved.path[moved.steps := rooms[moved.room].name])
    else moved
  }

  /** Every turn keeps the invariant and takes at most one step. */
  lemma StepKeepsInv(rooms: seq<Room>, start: nat, s: State, input: string)
    requires Inv(rooms, start, s) && !s.done && CanTurn(rooms, s, input)
    ensures Inv(rooms, start, Step(rooms, s, input))
    ensures s.steps <= Step(rooms, s, input).steps <= s.steps + 1
  {
    var t := Step(rooms, s, input);
    if Connected(rooms[s.room], input) {
      assert t.path[0] == s.path[0];
    }
  }

  /**
   * A turn that is not a move (the input is "time" or matches nothing)
   * leaves the room, the steps and the path history as they are.
   */
  lemma StepWithoutMove(rooms: seq<Room>, start: nat, s: State, input: string)
    requires Inv(rooms, start, s) && !s.done && CanTurn(rooms, s, input)
    requires !Connected(rooms[s.room], input)
    ensures Step(rooms, s, input).room == s.room
    ensures Step(rooms, s, input).steps == s.steps
    ensures Step(rooms, s, input).path == s.path
  {
    if rooms[s.room].roomType == END_ROOM {
      assert s.path[s.steps := rooms[s.room].name] == s.path;
    }
  }

  /**
   * A move counts one step, goes to the last room named by the input (or
   * stays when no room has that name), records the input at the new step,
   * and leaves every other path entry as it was.
   */
  lemma StepMove(rooms: seq<Room>, start: nat, s: State, input: string)
    requires Inv(rooms, start, s) && !s.done && CanTurn(rooms, s, input)
    requires Connected(rooms[s.room], input)
    ensures Step(rooms, s, input).steps == s.steps + 1
    ensures Step(rooms, s, input).room == LastWith(rooms, Name, input, s.room, |rooms|)
    ensures |Step(rooms, s, input).path| == |s.path|
    ensures forall k :: 0 <= k < |s.path| && k != s.steps + 1 ==> Step(rooms, s, input).path[k] == s.path[k]
    ensures (exists i :: 0 <= i < |rooms| && rooms[i].name == input) ==>
      Step(rooms, s, input).path[s.steps + 1] == input
    ensures rooms[Step(rooms, s, input).room].roomType != END_ROOM ==>
      Step(rooms, s, input).path[s.steps + 1] == input
  {
  }

  /** The game is done after a turn exactly when the room it ends in is the end room. */
  lemma StepDone(rooms: seq<Room>, start: nat, s: State, input: string)
    requires Inv(rooms, start, s) && !s.done && CanTurn(rooms, s, input)
    ensures Step(rooms, s, input).done <==> rooms[Step(rooms, s, input).room].roomType == END_ROOM
    ensures Step(rooms, s, input).done ==>
      Step(rooms, s, input).path[Step(rooms, s, input).steps] == rooms[Step(rooms, s, input).room].name
  {
  }

  /** `x` is a counted connection of some room, so typing it may be a move. */
  ghost predicate MayMove(rooms: seq<Room>, x: string) {
    exists i :: 0 <= i < |rooms| && Connected(rooms[i], x)
  }

  /** How many of the inputs may be moves: an upper bound on the path entries they can use. */
  ghost function MoveCount(rooms: seq<Room>, inputs: seq<string>): nat
    decreases |inputs|
  {
    if inputs == [] then 0
    else (if MayMove(rooms, inputs[0]) then 1 else 0) + MoveCount(rooms, inputs[1..])
  }

  /**
   * While the inputs that may be moves fit in the free path entries, the
   * next turn can be taken and the rest of the inputs still fit afterwards.
   */
  lemma TurnWithinPath(rooms: seq<Room>, start: nat, s: State, inputs: seq<string>)
    requires Inv(rooms, start, s) && !s.done && inputs != []
    requires s.steps + MoveCount(rooms, inputs) < PATH_SLOTS
    ensures CanTurn(rooms, s, inputs[0])
    ensures Inv(rooms, start, Step(rooms, s, inputs[0]))
    ensures Step(rooms, s, inputs[0]).steps + MoveCount(rooms, inputs[1..]) <= s.steps + MoveCount(rooms, inputs)
  {
    if Connected(rooms[s.room], inputs[0]) {
      assert MayMove(rooms, inputs[0]);
    }
    StepKeepsInv(rooms, start, s, inputs[0]);
  }

  /**
   * The inputs can be played from `s` without writing past the path
   * history: every turn taken before the game is done that is a move still
   * finds a free path entry. Turns that are not moves need no entry.
   */
  ghost predicate Fits(rooms: seq<Room>, s: State, inputs: seq<string>)
    decreases |inputs|
  {
    inputs == [] || s.done
    || (CanTurn(rooms, s, inputs[0]) && Fits(rooms, Step(rooms, s, inputs[0]), inputs[1..]))
  }

  /** Inputs whose possible moves fit in the free path entries can be played. */
  lemma {:induction false} MovesFit(rooms: seq<Room>, start: nat, s: State, inputs: seq<string>)
    requires Inv(rooms, start, s) && s.steps + MoveCount(rooms, inputs) < PATH_SLOTS
    ensures Fits(rooms, s, inputs)
    decreases |inputs|
  {
    if inputs != [] && !s.done {
      TurnWithinPath(rooms, start, s, inputs);
      MovesFit(rooms, start, Step(rooms, s, inputs[0]), inputs[1..]);
    }
  }

  /**
   * Any number of inputs that are not connections of the current room can
   * be played, whatever else they name: none of them moves.
   */
  lemma {:induction false} StayingFits(rooms: seq<Room>, start: nat, s: State, inputs: seq<string>)
    requires Inv(rooms, start, s)
    requires forall k :: 0 <= k < |inputs| ==> !Connected(rooms[s.room], inputs[k])
    ensures Fits(rooms, s, inputs)
    decreases |inputs|
  {
    if inputs != [] && !s.done {
      assert !Connected(rooms[s.room], inputs[0]);
      StepKeepsInv(rooms, start, s, inputs[0]);
      StepWithoutMove(rooms, start, s, inputs[0]);
      StayingFits(rooms, start, Step(rooms, s, inputs[0]), inputs[1..]);
    }
  }

  /** A prefix of inputs that can be played can be played. */
  lemma {:induction false} FitsPrefix(rooms: seq<Room>, s: State, a: seq<string>, b: seq<string>)
    requires Fits(rooms, s, a + b)
    ensures Fits(rooms, s, a)
    decreases |a|
  {
    if a != [] && !s.done {
      assert (a + b)[0] == a[0] && (a + b)[1..] == a[1..] + b;
      FitsPrefix(rooms, Step(rooms, s, a[0]), a[1..], b);
    }
  }

  /** The loop over a sequence of inputs: turns are taken until the game is done or the inputs run out. */
  ghost function Run(rooms: seq<Room>, s: State, inputs: seq<string>): State
    requires Fits(rooms, s, inputs)
    decreases |inputs|
  {
    if inputs == [] || s.done then s
    else Run(rooms, Step(rooms, s, inputs[0]), inputs[1..])
  }

  /**
   * Over any number of turns the invariant holds, steps never decrease,
   * only inputs that may be moves add a step, and the path entries already
   * written (the start room's name first) are never changed.
   */
  lemma {:induction false} RunKeepsHistory(rooms: seq<Room>, start: nat, s: State, inputs: seq<string>)
    requires Inv(rooms, start, s) && Fits(rooms, s, inputs)
    ensures Inv(rooms, start, Run(rooms, s, inputs))
    ensures s.steps <= Run(rooms, s, inputs).steps <= s.steps + MoveCount(rooms, inputs)
    ensures forall k :: 0 <= k <= s.steps ==> Run(rooms, s, inputs).path[k] == s.path[k]
    decreases |inputs|
  {
    if inputs != [] && !s.done {
      var t := Step(rooms, s, inputs[0]);
      StepKeepsInv(rooms, start, s, inputs[0]);
      RunKeepsHistory(rooms, start, t, inputs[1..]);
      if Connected(rooms[s.room], inputs[0]) {
        assert MayMove(rooms, inputs[0]);
        StepMove(rooms, start, s, inputs[0]);
      } else {
        StepWithoutMove(rooms, start, s, inputs[0]);
      }
    }
  }

  /** The game loop's variables. The rooms are read-only once loaded. */
  class Game {
    const rooms: seq<Room>
    const start: nat
    const pathHistory: array<string>
    var room: nat
    var steps: nat
    var done: bool

    function Snapshot(): State
      reads this, pathHistory
    {
      State(room, steps, done, pathHistory[..])
    }

    ghost predicate Valid()
      reads this, pathHistory
    {
      Inv(rooms, start, Snapshot())
    }

    /** The prologue of runGame: find the start room and record it as the first path entry. */
    constructor (rooms: seq<Room>)
      requires WellFormed(rooms)
      ensures Valid() && fresh(pathHistory)
      ensures this.rooms == rooms && start == Initial(rooms).room
      ensures Snapshot() == Initial(rooms)
    {
      this.rooms := rooms;
      var a := FindStart(rooms);
      start := a;
      pathHistory := new string[PATH_SLOTS](_ => "");
      room := a;
      steps := 0;
      done := false;
      new;
      pathHistory[0] := rooms[a].name;
      assert pathHistory[..] == Initial(rooms).path;
    }

    /** One pass of the loop after the player typed `input`; the returned value is inputMatch's. */
    method Turn(input: string) returns (m: int)
      requires Valid() && !done
      requires Connected(rooms[room], input) ==> steps + 1 < PATH_SLOTS
      modifies this, pathHistory
      ensures Valid()
      ensures m == 0 || m == 1 || m == 2
      ensures m == 1 <==> Connected(rooms[old(room)], input)
      ensures m == 2 <==> !Connected(rooms[old(room)], input) && input == TIME
      ensures Snapshot() == Step(rooms, old(Snapshot()), input)
    {
      ghost var s := Snapshot();
      m := InputMatch(input, rooms[room]);
      if m == 0 {
      } else if m == 2 {
      } else {
        steps := steps + 1;
        pathHistory[steps] := input;
        room := FindNamed(rooms, input, room);
      }
      assert Snapshot() == if Connected(rooms[s.room], input)
        then State(LastWith(rooms, Name, input, s.room, |rooms|), s.steps + 1, s.done, s.path[s.steps + 1 := input])
        else s;
      if rooms[room].roomType == END_ROOM {
        pathHistory[steps] := rooms[room].name;
        done := true;
      }
      StepKeepsInv(rooms, start, s, input);
    }

    /**
     * The loop over the inputs the player types, ending when the end room
     * is reached; `consumed` counts the inputs it read.
     */
    method Play(inputs: seq<string>) returns (consumed: nat)
      requires Valid() && Fits(rooms, Snapshot(), inputs)
      modifies this, pathHistory
      ensures Valid()
      ensures consumed <= |inputs| && (done || consumed == |inputs|)
      ensures Snapshot() == Run(rooms, old(Snapshot()), inputs)
      ensures Fits(rooms, old(Snapshot()), inputs[..consumed])
      ensures Snapshot() == Run(rooms, old(Snapshot()), inputs[..consumed])
      ensures consumed > 0 ==>
        Fits(rooms, old(Snapshot()), inputs[..consumed - 1]) && !Run(rooms, old(Snapshot()), inputs[..consumed - 1]).done
    {
      consumed := 0;
      PlayStart(rooms, start, Snapshot(), inputs);
      while !done && consumed < |inputs|
        invariant Valid() && consumed <= |inputs|
        invariant PlayedSoFar(rooms, start, old(Snapshot()), inputs, consumed, Snapshot())
        invariant consumed > 0 ==>
          Fits(rooms, old(Snapshot()), inputs[..consumed - 1]) && !Run(rooms, old(Snapshot()), inputs[..consumed - 1]).done
      {
        ConsumeOne(rooms, start, old(Snapshot()), inputs, consumed, Snapshot());
        var m := Turn(inputs[consumed]);
        consumed := consumed + 1;
      }
      PlayEnd(rooms, start, old(Snapshot()), inputs, consumed, Snapshot());
    }
  }

  /**
   * The loop of Play after reading c inputs from state s0 is in state s:
   * s is Run over those inputs, and Run over the rest from s finishes the
   * run over all of them.
   */
  ghost predicate PlayedSoFar(rooms: seq<Room>, start: nat, s0: State, inputs: seq<string>, c: nat, s: State) {
    Inv(rooms, start, s0) && Fits(rooms, s0, inputs)
    && c <= |inputs| && Inv(rooms, start, s)
    && Fits(rooms, s, inputs[c..]) && Fits(rooms, s0, inputs[..c])
    && Run(rooms, s0, inputs) == Run(rooms, s, inputs[c..])
    && Run(rooms, s0, inputs[..c]) == s
  }

  lemma PlayStart(rooms: seq<Room>, start: nat, s0: State, inputs: seq<string>)
    requires Inv(rooms, start, s0) && Fits(rooms, s0, inputs)
    ensures PlayedSoFar(rooms, start, s0, inputs, 0, s0)
  {
    assert inputs[..0] == [] && inputs[0..] == inputs;
  }

  lemma PlayEnd(rooms: seq<Room>, start: nat, s0: State, inputs: seq<string>, c: nat, s: State)
    requires PlayedSoFar(rooms, start, s0, inputs, c, s) && (s.done || c == |inputs|)
    ensures Fits(rooms, s0, inputs[..c])
    ensures s == Run(rooms, s0, inputs) && s == Run(rooms, s0, inputs[..c])
  {
    if !s.done {
      assert inputs[c..] == [];
    }
  }

  /** The step the loop of Play takes: one more input read is one more turn of Run. */
  lemma ConsumeOne(rooms: seq<Room>, start: nat, s0: State, inputs: seq<string>, c: nat, s: State)
    requires PlayedSoFar(rooms, start, s0, inputs, c, s) && c < |inputs| && !s.done
    ensures CanTurn(rooms, s, inputs[c])
    ensures PlayedSoFar(rooms, start, s0, inputs, c + 1, Step(rooms, s, inputs[c]))
  {
    var x := inputs[c];
    assert inputs[c..][0] == x && inputs[c..][1..] == inputs[c + 1..];
    StepKeepsInv(rooms, start, s, x);
    assert inputs[..c + 1] == inputs[..c] + [x];
    assert inputs[..c + 1] + inputs[c + 1..] == inputs;
    FitsPrefix(rooms, s0, inputs[..c + 1], inputs[c + 1..]);
    RunPrefix(rooms, start, s0, inputs[..c], x);
  }

  /** Taking one more input after a run that left the game unfinished is one more turn. */
  lemma {:induction false} RunPrefix(rooms: seq<Room>, start: nat, s: State, inputs: seq<string>, x: string)
    requires Inv(rooms, start, s) && Fits(rooms, s, inputs + [x])
    ensures Fits(rooms, s, inputs)
    ensures Inv(rooms, start, Run(rooms, s, inputs))
    ensures !Run(rooms, s, inputs).done ==> CanTurn(rooms, Run(rooms, s, inputs), x)
    ensures !Run(rooms, s, inputs).done ==>
      Run(rooms, s, inputs + [x]) == Step(rooms, Run(rooms, s, inputs), x)
    decreases |inputs|
  {
    FitsPrefix(rooms, s, inputs, [x]);
    RunKeepsHistory(rooms, start, s, inputs);
    if inputs == [] {
      assert [] + [x] == [x];
      assert [x][0] == x && [x][1..] == [];
    } else if !s.done {
      assert (inputs + [x])[0] == inputs[0];
      assert (inputs + [x])[1..] == inputs[1..] + [x];
      StepKeepsInv(rooms, start, s, inputs[0]);
      RunPrefix(rooms, start, Step(rooms, s, inputs[0]), inputs[1..], x);
    }
  }
}
