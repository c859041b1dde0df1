# Escape room: a Dafny model of the loader and game loop of adventure.c

adventure.c is a text adventure. It loads seven room files into records.
Each record holds a name, a type tag (`START_ROOM`, `MID_ROOM` or `END_ROOM`) and a table of up to six connection names.
The player then walks from the start room to the end room by typing the names of connected rooms.
Typing `time` prints the clock instead.

This project models the sequential core of that program:

- `rooms.dfy` (module `Rooms`) holds the room record as a value, and the program's constants: 6 connection slots, 7 rooms and 100 path entries.
  It also defines `Connected`: a name is one of the counted connections `cxns[0 .. numCxns-1]`.
- `cstrings.dfy` (module `CStrings`) models the two C library routines the loader depends on.
  `strtok` is modelled as `Strtok`, `LaterTokens` and `LineTokens`: the first call on a line splits on `" :"`, later calls on `" :\n"`.
  `atoi` is modelled as `Atoi`.
  Lemmas show how a room-file line `KEY K: V` followed by a newline splits into tokens.
- `room_parser.dfy` (module `RoomParser`) models the token loop of `readFiles`.
  - `RoomRecord` is the record being filled. Its connection table is an `array`.
  - `ReadLine` runs the C flag machine over one line's tokens, and `ReadFile` runs it over every line of a file.
  - Both are proved against the specification functions `ScanFrom`, `ScanLine` and `ScanFile`.
  - Lemmas give each line shape's effect, and the effect of a whole room file.
  - The slot index is a parameter. `AsWritten` is `atoi(num)`, the code as written. `Decremented` is the `atoi(num) - 1` of the commented-out line.
- `navigation.dfy` (module `Navigation`) models the read-only scans:
  - `InputMatch` is inputMatch;
  - `FindStart` is findStart;
  - `FindNamed` is the by-name room lookup inside a move.

  All three are loops, proved against the reference function `LastWith` or the predicate `Connected`.
- `session.dfy` (module `Session`) models runGame.
  - The class `Game` holds the rooms, the start room, the 100-entry `pathHistory` array, the current room (as an index), `steps` and `done`.
  - The constructor models the prologue.
  - `Turn` is one pass of the `while (done != 1)` body after the input is read. `Play` is the loop over a sequence of inputs.
  - Both are proved against the pure functions `Step` and `Run`. Lemmas give the properties of those functions and the invariant `Inv` they keep.

Behaviours of the code that a reader might not expect, all modelled as the code has them:

- Loading validates nothing. There is no check of the room count, of unique start and end rooms, or of dangling connection names.
- The start room is the last room typed `START_ROOM`. When there is none, it is the first room.
- A move goes to the last room with the typed name. When no room has that name, the player stays put, but the step is still counted and recorded.
- The end-room check runs after every turn, not only after moves.
- A connection literally named `time` is a move, not the time command.
- Connection numbers in the room files are used as slot indices without subtracting one. This is the finding below.

## Model

| member | source | states |
|---|---|---|
| CStrings.SkipDelimsSuffix | adventure.c:188 | what strtok skips is a leading run of delimiters: the rest is a suffix starting with a non-delimiter |
| CStrings.TokenLengthMaximal | adventure.c:188 | a strtok token runs up to the first delimiter: it holds none, and the character after it is one |
| CStrings.StrtokToken | adventure.c:188 | every token strtok returns is non-empty and free of the delimiters it was called with |
| CStrings.StrtokWord | adventure.c:188 | after delimiters, a word followed by a delimiter comes back as that word, and the scan resumes after the delimiter |
| CStrings.LaterTokensAreWords | adventure.c:197-200 | every token of the `strtok(NULL, " :\n")` calls is non-empty and holds no space, colon or newline |
| CStrings.LineTokensAreWords | adventure.c:188-200 | every token of a line is non-empty; the first has no space or colon, the later ones also no newline |
| CStrings.KeyValueLineTokens | adventure.c:188-200 | a line `A B: C` followed by a newline splits into exactly the tokens A, B, C |
| CStrings.AtoiOfDigits | adventure.c:210 | atoi of a string of decimal digits is its decimal value |
| CStrings.AtoiDigitString | adventure.c:210 | atoi reads back the numeral of a digit, and that numeral is one delimiter-free token |
| CStrings.Strtok | adventure.c:188 | one strtok call consumes at least one character when it returns a token |
| RoomParser.ScanFile | adventure.c:185-217 | the record after every line of a file, first to last, keeps a connection table of MAX_CXNS slots |
| RoomParser.ScanFrom | adventure.c:190-216 | the record after the loop has examined the tokens from index i on keeps a connection table of MAX_CXNS slots |
| RoomParser.KeylessTokensUnchanged | adventure.c:190-216 | tokens that are not NAME, TYPE or CONNECTION leave the record unchanged |
| RoomParser.NameOrTypeLine | adventure.c:191-207 | the token after NAME becomes the name, the token after TYPE becomes the type, nothing else changes |
| RoomParser.ConnectionLine | adventure.c:195-215 | `CONNECTION n X` writes X into slot atoi(n) (or atoi(n) - 1 in the corrected rule) and counts one more connection, nothing else changes |
| RoomParser.ConnectionTriple | adventure.c:195-215 | the line `CONNECTION d c` alone stores c in the slot d names and counts it |
| RoomParser.ScanFileAppend | adventure.c:185-217 | reading two parts of a file one after the other is the same as reading the whole file |
| RoomParser.RoomFileTokenized | adventure.c:185-200 | strtok splits each line of a room file into the three tokens the loop expects |
| RoomParser.ConnectionLinesScan | adventure.c:185-216 | connection lines 1..k put the listed names, in order, into the slots from the rule's offset on, and add k to the count |
| RoomParser.RoomFileScan | adventure.c:185-216 | a whole room file sets the name and type, places the listed connections, and adds their number to the count |
| RoomParser.AsWrittenRoomFile | adventure.c:210-213 | as written, the counted slots of a file with 1..5 connections are the old slot 0 followed by all listed connections but the last |
| RoomParser.AsWrittenLosesLastConnection | adventure.c:208-213 | as written, the last listed connection of a room file is not a connection inputMatch can find |
| RoomParser.AsWrittenSixConnections | adventure.c:210-211 | as written, a file with six connections writes past the six-slot table |
| RoomParser.DecrementedRoomFile | adventure.c:212 | with the slot decremented, any file of up to six connections loads: counted slots equal the listed names in order, and a name is a connection exactly when the file lists it |
| RoomParser.CountedConnected | adventure.c:242-243 | a name is a connection exactly when it is among the counted slots |
| RoomParser.RoomRecord.constructor | adventure.c:59-66 | a fresh record has six empty slots and no counted connections |
| RoomParser.RoomRecord.ReadFile | adventure.c:185-217 | reading a file line by line leaves the record equal to ScanFile of the file's tokens |
| RoomParser.RoomRecord.ReadLine | adventure.c:188-216 | the flag machine over one line leaves the record equal to ScanLine of the line's tokens |
| Navigation.LastWith | adventure.c:229-233 | a forward scan keeping the last match ends on the highest index whose field equals the key, with no match after it, or on its starting value when nothing matches |
| Navigation.InputMatch | adventure.c:240-250 | the result is 0, 1 or 2: 1 exactly when the input is a counted connection, 2 exactly when it is not and is "time", 0 otherwise |
| Navigation.FindStart | adventure.c:226-236 | the result is the last room typed START_ROOM, and no later room has that type; when no room has it, the result is room 0 |
| Navigation.FindNamed | adventure.c:369-374 | the new room is the last one whose name is the input; the room is unchanged when none has that name |
| Session.InitialInv | adventure.c:313-328 | the starting state has the start room as current room and as path entry 0, no steps, not done |
| Session.StepKeepsInv | adventure.c:330-381 | a turn keeps the loop invariant (path entry 0 is the start room, done only in the end room with its name as the newest entry) and takes at most one step |
| Session.StepWithoutMove | adventure.c:353-381 | a turn classified 0 or 2 leaves the room, the steps and every path entry unchanged |
| Session.StepMove | adventure.c:364-381 | a move adds one step, goes to the last room named by the input or stays, records the input at the new step, and changes no other path entry |
| Session.StepDone | adventure.c:377-381 | after a turn, done holds exactly when the current room is the end room, and then the newest path entry is its name |
| Session.TurnWithinPath | adventure.c:330-381 | while the inputs that may be moves fit in the free path entries, the next turn can be taken, keeps the invariant, and the rest still fit |
| Session.MovesFit | adventure.c:364-367 | inputs whose possible moves (connections of any room) fit in the free path entries never make a move without a free entry |
| Session.StayingFits | adventure.c:353-363 | any number of inputs that are not connections of the current room can be played, whatever other room's connection they name: none of them moves |
| Session.FitsPrefix | adventure.c:330-382 | a prefix of inputs that can be played without overrunning the path can be played too |
| Session.RunKeepsHistory | adventure.c:330-382 | over any inputs that never move without a free path entry, the invariant holds, only moves add steps (at most one per input that is some room's connection), and path entries already written are never changed |
| Session.RunPrefix | adventure.c:330-382 | when the inputs and one more can be played, the inputs alone can, and the extra input after an unfinished run is one more turn |
| Session.Game.constructor | adventure.c:313-328 | the game starts at findStart's room with its name as path entry 0, no steps, not done |
| Session.Game.Turn | adventure.c:349-381 | one turn returns inputMatch's classification and leaves the state equal to Step of the old state |
| Session.Game.Play | adventure.c:330-382 | the loop stops when done or out of input, leaving the state equal to Run over all the inputs and over the inputs it read; no input is read after the winning turn (the game was not done before the last input read); it requires only that no move is made without a free path entry |
| Session.PlayStart | adventure.c:330 | before the first turn the loop invariant holds with nothing consumed |
| Session.ConsumeOne | adventure.c:330-381 | one more turn of an unfinished loop can be taken and keeps the loop invariant with one more input consumed |
| Session.PlayEnd | adventure.c:330-382 | when the loop stops, its state is Run over all inputs and over the inputs consumed |

## Left out

- findDir, the directory scan that picks the newest rooms directory, is not part of this model.
- The file handling in readFiles is not modelled: `opendir`, `readdir`, `fopen`, the skipping of `.` and `..` by starting the room index at -2, and the order in which files are read. `ReadFile` takes one file's lines as a sequence of strings.
- fgets reads at most 99 characters per line. Lines are modelled whole.
- writeTime and readTime are not modelled: the second thread, the mutex, and creating, reading and deleting the time file. A `time` turn changes no navigation state, and that is all the model says about it.
- main's allocation and freeing of memory, and the banners, are not modelled. So are all prompts, the connection list printed each turn, the victory message, and scanf. `Play` takes the player's words as a sequence.
- The lengths of the fixed-size char buffers are not modelled, and no precondition bounds them: the 12-character `name` and `roomType`, the 10-character `pathHistory` entries and the 50-character `input`. Strings are unbounded, so a word longer than its buffer (an overflow in C) is stored whole.
- Other overflows are excluded by preconditions rather than given behaviour:
  - a NAME, TYPE or CONNECTION key without a value after it (a NULL token), excluded by `LineOk`;
  - a slot number outside the table, excluded by `LineOk`;
  - more counted connections than the table has slots, excluded by `CountedInTable` (`numCxns` at most the table's length) in `Navigation.InputMatch` and in `Session.WellFormed`, whose tables have the six slots main allocates. A file with seven CONNECTION lines that reuse slots loads with `numCxns` 7, and inputMatch would then read `cxns[6]`, past the table;
  - a move with no path entry left, excluded by `Turn`'s precondition that a connection of the current room is typed only while `steps + 1 < 100`. `Play`, `Run` and `RunKeepsHistory` require `Fits`: of the turns taken before the game is done, every move finds a free entry. Only a move writes a path entry, so inputs that are not connections of the room they are typed in (`time`, wrong guesses, even another room's connection) are unbounded in number, as `StayingFits` states.
- Buffers the C code never initialises are modelled as empty strings: the name, type and connection slots of a fresh record, and path entries 1 to 99.
- CStrings.Strtok: its contract only says the rest is shorter than the input, which makes the token functions terminate. What the token is, is stated by StrtokToken, StrtokWord and TokenLengthMaximal.
- RoomParser.ScanFrom and RoomParser.ScanFile: their contracts only say the table keeps its six slots. Their effect on a record is stated by KeylessTokensUnchanged, NameOrTypeLine, ConnectionLine, ScanFileAppend and RoomFileScan.
- Atoi: overflow of C's `int` on long digit strings is not modelled. The value is an unbounded integer.
- Session.Game.Play: an input stream that ends before the game is done just stops the loop. In C, scanf at end of input keeps the old word and the loop repeats it.
- The game loop's `match` variable only decides whether the prompt is printed, so it is not a field of `Game`.

## Findings

| source | as written | input that shows it | evidently intended | confidence | as-written member | corrected member |
|---|---|---|---|---|---|---|
| adventure.c:210-212 | the connection on line `CONNECTION n: X` is stored in `cxns[atoi(num)]`, but inputMatch scans `cxns[0 .. numCxns-1]` | a room file with connections `CONNECTION 1: A` and `CONNECTION 2: B` loads A into slot 1 and B into slot 2 and counts 2, so B cannot be entered and slot 0 (never written) is offered instead. A file with six connections writes slot 6, past the table | `cxns[atoi(num) - 1]`, the commented-out line 212, so that line n fills slot n-1 | not executed | RoomParser.AsWrittenLosesLastConnection | RoomParser.DecrementedRoomFile |
