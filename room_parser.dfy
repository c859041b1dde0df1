/**
 * The token loop of readFiles in adventure.c: each line of a room file is
 * split with strtok, and a small flag machine copies the value after NAME
 * into the room's name, the value after TYPE into its type, and for
 * CONNECTION reads a slot number and stores the following token in that
 * slot of the connection table, counting one more connection.
 *
 * The slot is atoi of the number token, not decremented (the `- 1` form is
 * commented out in the source). SlotRule names both readings so that the
 * lemmas at the end can compare the code as written with the intended one.
 */
module RoomParser {
  import opened Rooms
  import opened CStrings

  const NAME_KEY: string := "NAME"
  const TYPE_KEY: string := "TYPE"
  const CONNECTION_KEY: string := "CONNECTION"

  predicate IsKey(t: string) {
    t == NAME_KEY || t == TYPE_KEY || t == CONNECTION_KEY
  }

  /** AsWritten: cxns[atoi(num)]. Decremented: cxns[atoi(num) - 1], the evident intent. */
  datatype SlotRule = AsWritten | Decremented

  function Slot(num: string, rule: SlotRule): int {
    match rule
    case AsWritten => Atoi(num)
    case Decremented => Atoi(num) - 1
  }

  /**
   * The loop never reads past the line's tokens and never writes outside the
   * connection table, starting from the token at index i: a NAME or TYPE token
   * has a value after it, a CONNECTION token has a number and a value after it
   * and the number names one of the MAX_CXNS slots.
   */
  predicate LineOk(toks: seq<string>, i: nat, rule: SlotRule)
    decreases |toks| - i
  {
    if i >= |toks| then true
    else if toks[i] == NAME_KEY || toks[i] == TYPE_KEY then
      i + 1 < |toks| && LineOk(toks, i + 1, rule)
    else if toks[i] == CONNECTION_KEY then
      i + 2 < |toks| && 0 <= Slot(toks[i + 1], rule) < MAX_CXNS && LineOk(toks, i + 2, rule)
    else
      LineOk(toks, i + 1, rule)
  }

  /**
   * The record after the loop has examined the tokens from index i on. The
   * value token after a key is examined next (it is where strtok stands);
   * the number token after CONNECTION is not.
   */
  function ScanFrom(r: Room, toks: seq<string>, i: nat, rule: SlotRule): (r': Room)
    requires |r.cxns| == MAX_CXNS && LineOk(toks, i, rule)
    ensures |r'.cxns| == MAX_CXNS
    decreases |toks| - i
  {
    if i >= |toks| then r
    else if toks[i] == NAME_KEY then
      ScanFrom(r.(name := toks[i + 1]), toks, i + 1, rule)
    else if toks[i] == TYPE_KEY then
      ScanFrom(r.(roomType := toks[i + 1]), toks, i + 1, rule)
    else if toks[i] == CONNECTION_KEY then
      var a := Slot(toks[i + 1], rule);
      ScanFrom(r.(cxns := r.cxns[a := toks[i + 2]], numCxns := r.numCxns + 1), toks, i + 2, rule)
    else
      ScanFrom(r, toks, i + 1, rule)
  }

  function ScanLine(r: Room, toks: seq<string>, rule: SlotRule): Room
    requires |r.cxns| == MAX_CXNS && LineOk(toks, 0, rule)
  {
    ScanFrom(r, toks, 0, rule)
  }

  predicate FileOk(lines: seq<seq<string>>, rule: SlotRule) {
    forall j :: 0 <= j < |lines| ==> LineOk(lines[j], 0, rule)
  }

  /** The record after every line of a file, first to last. */
  function ScanFile(r: Room, lines: seq<seq<string>>, rule: SlotRule): (r': Room)
    requires |r.cxns| == MAX_CXNS && FileOk(lines, rule)
    ensures |r'.cxns| == MAX_CXNS
    decreases |lines|
  {
    if lines == [] then r
    else
      var init := lines[..|lines| - 1];
      assert FileOk(init, rule) by {
        forall j | 0 <= j < |init| ensures LineOk(init[j], 0, rule) {
          assert init[j] == lines[j];
        }
      }
      ScanLine(ScanFile(r, init, rule), lines[|lines| - 1], rule)
  }

  /** Tokens from index i on that are not keys leave the record as it is. */
  lemma {:induction false} KeylessTokensUnchanged(r: Room, toks: seq<string>, i: nat, rule: SlotRule)
    requires |r.cxns| == MAX_CXNS
    requires forall k :: i <= k < |toks| ==> !IsKey(toks[k])
    ensures LineOk(toks, i, rule) && ScanFrom(r, toks, i, rule) == r
    decreases |toks| - i
  {
    if i < |toks| {
      KeylessTokensUnchanged(r, toks, i + 1, rule);
    }
  }

  /** A line whose only key is NAME (or TYPE) at index j sets the name (or type) to the token after it. */
  lemma {:induction false} NameOrTypeLine(r: Room, toks: seq<string>, i: nat, j: nat, rule: SlotRule)
    requires |r.cxns| == MAX_CXNS
    requires i <= j && j + 1 < |toks| && (toks[j] == NAME_KEY || toks[j] == TYPE_KEY)
    requires forall k :: i <= k < |toks| && k != j ==> !IsKey(toks[k])
    ensures LineOk(toks, i, rule)
    ensures ScanFrom(r, toks, i, rule)
         == if toks[j] == NAME_KEY then r.(name := toks[j + 1]) else r.(roomType := toks[j + 1])
    decreases j - i
  {
    if i < j {
      NameOrTypeLine(r, toks, i + 1, j, rule);
    } else {
      var r' := if toks[j] == NAME_KEY then r.(name := toks[j + 1]) else r.(roomType := toks[j + 1]);
      KeylessTokensUnchanged(r', toks, j + 1, rule);
    }
  }

  /**
   * A line whose only key is CONNECTION at index j writes the token two
   * after it into the slot the token after it names, and counts one more
   * connection. The number token itself is never examined as a key.
   */
  lemma {:induction false} ConnectionLine(r: Room, toks: seq<string>, i: nat, j: nat, rule: SlotRule)
    requires |r.cxns| == MAX_CXNS
    requires i <= j && j + 2 < |toks| && toks[j] == CONNECTION_KEY
    requires 0 <= Slot(toks[j + 1], rule) < MAX_CXNS
    requires forall k :: i <= k < |toks| && k != j && k != j + 1 ==> !IsKey(toks[k])
    ensures LineOk(toks, i, rule)
    ensures ScanFrom(r, toks, i, rule)
         == r.(cxns := r.cxns[Slot(toks[j + 1], rule) := toks[j + 2]], numCxns := r.numCxns + 1)
    decreases j - i
  {
    if i < j {
      ConnectionLine(r, toks, i + 1, j, rule);
    } else {
      var r' := r.(cxns := r.cxns[Slot(toks[j + 1], rule) := toks[j + 2]], numCxns := r.numCxns + 1);
      KeylessTokensUnchanged(r', toks, j + 2, rule);
    }
  }

  /** Reading two pieces of a file one after the other is reading the whole. */
  lemma {:induction false} ScanFileAppend(r: Room, a: seq<seq<string>>, b: seq<seq<string>>, rule: SlotRule)
    requires |r.cxns| == MAX_CXNS && FileOk(a, rule) && FileOk(b, rule)
    ensures FileOk(a + b, rule)
    ensures ScanFile(r, a + b, rule) == ScanFile(ScanFile(r, a, rule), b, rule)
    decreases |b|
  {
    assert FileOk(a + b, rule) by {
      forall j | 0 <= j < |a + b| ensures LineOk((a + b)[j], 0, rule) {
        if j < |a| { assert (a + b)[j] == a[j]; } else { assert (a + b)[j] == b[j - |a|]; }
      }
    }
    if b == [] {
      assert a + b == a;
    } else {
      var n := |b| - 1;
      assert FileOk(b[..n], rule) by {
        forall j | 0 <= j < n ensures LineOk(b[..n][j], 0, rule) { assert b[..n][j] == b[j]; }
      }
      ScanFileAppend(r, a, b[..n], rule);
      assert (a + b)[..|a + b| - 1] == a + b[..n];
      assert (a + b)[|a + b| - 1] == b[n];
    }
  }

  /** A token the generator may write as a name or type: non-empty, no delimiter, not a key. */
  predicate IsWord(w: string) {
    w != [] && NoDelims(w, NEXT_DELIMS) && !IsKey(w)
  }

  /** Connection lines numbered from 1, as a room file lists them. */
  function ConnectionText(cs: seq<string>): seq<string>
    requires |cs| <= 9
  {
    seq(|cs|, k requires 0 <= k < |cs| => "CONNECTION " + DigitString(k + 1) + ": " + cs[k] + "\n")
  }

  function ConnectionTokens(cs: seq<string>): seq<seq<string>>
    requires |cs| <= 9
  {
    seq(|cs|, k requires 0 <= k < |cs| => [CONNECTION_KEY, DigitString(k + 1), cs[k]])
  }

  /** A room file: its name line, its numbered connection lines, its type line. */
  function RoomFileText(name: string, cs: seq<string>, roomType: string): seq<string>
    requires |cs| <= 9
  {
    ["ROOM NAME: " + name + "\n"] + ConnectionText(cs) + ["ROOM TYPE: " + roomType + "\n"]
  }

  function RoomFileTokens(name: string, cs: seq<string>, roomType: string): seq<seq<string>>
    requires |cs| <= 9
  {
    [["ROOM", NAME_KEY, name]] + ConnectionTokens(cs) + [["ROOM", TYPE_KEY, roomType]]
  }

  lemma KeyTokensAreWords()
    ensures NoDelims("ROOM", NEXT_DELIMS) && NoDelims(NAME_KEY, NEXT_DELIMS)
    ensures NoDelims(TYPE_KEY, NEXT_DELIMS) && NoDelims(CONNECTION_KEY, NEXT_DELIMS)
  {
  }

  lemma NameLineTokens(name: string)
    requires IsWord(name)
    ensures LineTokens("ROOM NAME: " + name + "\n") == ["ROOM", NAME_KEY, name]
  {
    KeyTokensAreWords();
    assert "ROOM NAME: " + name + "\n" == "ROOM" + " " + NAME_KEY + ": " + name + "\n";
    KeyValueLineTokens("ROOM", NAME_KEY, name);
  }

  lemma TypeLineTokens(roomType: string)
    requires IsWord(roomType)
    ensures LineTokens("ROOM TYPE: " + roomType + "\n") == ["ROOM", TYPE_KEY, roomType]
  {
    KeyTokensAreWords();
    assert "ROOM TYPE: " + roomType + "\n" == "ROOM" + " " + TYPE_KEY + ": " + roomType + "\n";
    KeyValueLineTokens("ROOM", TYPE_KEY, roomType);
  }

  lemma ConnectionLineTokens(cs: seq<string>, k: nat)
    requires |cs| <= 9 && k < |cs| && IsWord(cs[k])
    ensures LineTokens(ConnectionText(cs)[k]) == ConnectionTokens(cs)[k]
  {
    var d := DigitString(k + 1);
    assert d != [] && NoDelims(d, NEXT_DELIMS) by {
      AtoiDigitString(k + 1);
    }
    assert ConnectionText(cs)[k] == CONNECTION_KEY + " " + d + ": " + cs[k] + "\n";
    KeyTokensAreWords();
    KeyValueLineTokens(CONNECTION_KEY, d, cs[k]);
  }

  /** strtok splits every line of a room file into the three tokens the loop expects. */
  lemma RoomFileTokenized(name: string, cs: seq<string>, roomType: string)
    requires |cs| <= 9 && IsWord(name) && IsWord(roomType)
    requires forall k :: 0 <= k < |cs| ==> IsWord(cs[k])
    ensures Tokenized(RoomFileText(name, cs, roomType)) == RoomFileTokens(name, cs, roomType)
  {
    var text := RoomFileText(name, cs, roomType);
    var lines := RoomFileTokens(name, cs, roomType);
    forall j | 0 <= j < |text| ensures LineTokens(text[j]) == lines[j] {
      if j == 0 {
        NameLineTokens(name);
      } else if j <= |cs| {
        assert text[j] == ConnectionText(cs)[j - 1];
        assert lines[j] == ConnectionTokens(cs)[j - 1];
        ConnectionLineTokens(cs, j - 1);
      } else {
        TypeLineTokens(roomType);
      }
    }
  }

  /** How many slots late the k-th listed connection (counting from 0) lands. */
  function Offset(rule: SlotRule): nat {
    if rule == AsWritten then 1 else 0
  }

  /** The line "CONNECTION k+1: cs[k]" names slot k + Offset(rule). */
  lemma ConnectionTokensAt(cs: seq<string>, k: nat, rule: SlotRule)
    requires |cs| <= 9 && k < |cs|
    ensures ConnectionTokens(cs)[k] == [CONNECTION_KEY, DigitString(k + 1), cs[k]]
    ensures Slot(DigitString(k + 1), rule) == k + Offset(rule)
  {
    AtoiDigitString(k + 1);
  }

  lemma ConnectionTokensOk(cs: seq<string>, rule: SlotRule)
    requires |cs| + Offset(rule) <= MAX_CXNS
    requires forall k :: 0 <= k < |cs| ==> !IsKey(cs[k])
    ensures FileOk(ConnectionTokens(cs), rule)
  {
    var lines := ConnectionTokens(cs);
    forall j | 0 <= j < |lines| ensures LineOk(lines[j], 0, rule) {
      ConnectionTokensAt(cs, j, rule);
      var e := Rooms.Room("", "", seq(MAX_CXNS, _ => ""), 0);
      ConnectionLine(e, lines[j], 0, 0, rule);
    }
  }

  /** `cs` written over `slots` from index `off` on; the slots outside keep their contents. */
  function Placed(slots: seq<string>, cs: seq<string>, off: nat): (r: seq<string>)
    requires off + |cs| <= |slots|
  {
    slots[..off] + cs + slots[off + |cs|..]
  }

  lemma PlacedSnoc(slots: seq<string>, cs: seq<string>, off: nat)
    requires cs != [] && off + |cs| <= |slots|
    ensures Placed(slots, cs[..|cs| - 1], off)[off + |cs| - 1 := cs[|cs| - 1]] == Placed(slots, cs, off)
  {
    var n := |cs| - 1;
    var a := Placed(slots, cs[..n], off)[off + n := cs[n]];
    var b := Placed(slots, cs, off);
    assert |a| == |b|;
    forall k | 0 <= k < |a| ensures a[k] == b[k] {
      if k < off {
      } else if k < off + n {
        assert a[k] == cs[..n][k - off];
      } else if k == off + n {
      } else {
        assert a[k] == slots[k];
      }
    }
  }

  /** Connection lines 1..|cs| write cs into the slots from Offset(rule) on and count |cs| more connections. */
  lemma {:induction false} ConnectionLinesScan(r: Room, cs: seq<string>, rule: SlotRule)
    requires |r.cxns| == MAX_CXNS && |cs| + Offset(rule) <= MAX_CXNS
    requires forall k :: 0 <= k < |cs| ==> !IsKey(cs[k])
    ensures FileOk(ConnectionTokens(cs), rule)
    ensures ScanFile(r, ConnectionTokens(cs), rule)
         == r.(cxns := Placed(r.cxns, cs, Offset(rule)), numCxns := r.numCxns + |cs|)
    decreases |cs|
  {
    ConnectionTokensOk(cs, rule);
    var lines := ConnectionTokens(cs);
    if cs == [] {
      assert lines == [];
      assert Placed(r.cxns, cs, Offset(rule)) == r.cxns;
    } else {
      var init := cs[..|cs| - 1];
      ConnectionLinesScan(r, init, rule);
      ConnectionLinesStep(r, cs, rule);
    }
  }

  lemma ConnectionLinesStep(r: Room, cs: seq<string>, rule: SlotRule)
    requires |r.cxns| == MAX_CXNS && |cs| + Offset(rule) <= MAX_CXNS && cs != []
    requires forall k :: 0 <= k < |cs| ==> !IsKey(cs[k])
    requires FileOk(ConnectionTokens(cs), rule)
    requires FileOk(ConnectionTokens(cs[..|cs| - 1]), rule)
    requires ScanFile(r, ConnectionTokens(cs[..|cs| - 1]), rule)
          == r.(cxns := Placed(r.cxns, cs[..|cs| - 1], Offset(rule)), numCxns := r.numCxns + |cs| - 1)
    ensures ScanFile(r, ConnectionTokens(cs), rule)
         == r.(cxns := Placed(r.cxns, cs, Offset(rule)), numCxns := r.numCxns + |cs|)
  {
    var n := |cs| - 1;
    var before := ScanFile(r, ConnectionTokens(cs[..n]), rule);
    ConnectionLinesLast(r, cs, rule);
    OneConnectionLine(before, cs, n, rule);
    PlacedSnoc(r.cxns, cs, Offset(rule));
  }

  lemma ConnectionLinesLast(r: Room, cs: seq<string>, rule: SlotRule)
    requires |r.cxns| == MAX_CXNS && |cs| <= 9 && cs != []
    requires FileOk(ConnectionTokens(cs), rule)
    ensures FileOk(ConnectionTokens(cs[..|cs| - 1]), rule)
    ensures ScanFile(r, ConnectionTokens(cs), rule)
         == ScanLine(ScanFile(r, ConnectionTokens(cs[..|cs| - 1]), rule), ConnectionTokens(cs)[|cs| - 1], rule)
  {
    var lines := ConnectionTokens(cs);
    assert lines[..|lines| - 1] == ConnectionTokens(cs[..|cs| - 1]);
    ScanFileLast(r, lines, rule);
  }

  lemma OneConnectionLine(before: Room, cs: seq<string>, n: nat, rule: SlotRule)
    requires |before.cxns| == MAX_CXNS && n < |cs| && |cs| + Offset(rule) <= MAX_CXNS && !IsKey(cs[n])
    ensures LineOk(ConnectionTokens(cs)[n], 0, rule)
    ensures ScanLine(before, ConnectionTokens(cs)[n], rule)
         == before.(cxns := before.cxns[n + Offset(rule) := cs[n]], numCxns := before.numCxns + 1)
  {
    var d := DigitString(n + 1);
    assert ConnectionTokens(cs)[n] == [CONNECTION_KEY, d, cs[n]] && Slot(d, rule) == n + Offset(rule) by {
      ConnectionTokensAt(cs, n, rule);
    }
    ConnectionTriple(before, d, cs[n], rule);
  }

  /** The line "CONNECTION d c" alone. */
  lemma ConnectionTriple(r: Room, d: string, c: string, rule: SlotRule)
    requires |r.cxns| == MAX_CXNS && 0 <= Slot(d, rule) < MAX_CXNS && !IsKey(c)
    ensures LineOk([CONNECTION_KEY, d, c], 0, rule)
    ensures ScanLine(r, [CONNECTION_KEY, d, c], rule)
         == r.(cxns := r.cxns[Slot(d, rule) := c], numCxns := r.numCxns + 1)
  {
    ConnectionLine(r, [CONNECTION_KEY, d, c], 0, 0, rule);
  }

  /** The last line is read last. */
  lemma ScanFileLast(r: Room, lines: seq<seq<string>>, rule: SlotRule)
    requires |r.cxns| == MAX_CXNS && FileOk(lines, rule) && lines != []
    ensures FileOk(lines[..|lines| - 1], rule)
    ensures ScanFile(r, lines, rule) == ScanLine(ScanFile(r, lines[..|lines| - 1], rule), lines[|lines| - 1], rule)
  {
  }

  /**
   * What the loop makes of a whole room file under either slot rule: the
   * name and type lines set the name and type, and the connection lines put
   * the listed targets, in order, into the slots from Offset(rule) on.
   */
  lemma RoomFileScan(r: Room, name: string, cs: seq<string>, roomType: string, rule: SlotRule)
    requires |r.cxns| == MAX_CXNS && |cs| + Offset(rule) <= MAX_CXNS
    requires IsWord(name) && IsWord(roomType) && forall k :: 0 <= k < |cs| ==> IsWord(cs[k])
    ensures FileOk(Tokenized(RoomFileText(name, cs, roomType)), rule)
    ensures ScanFile(r, Tokenized(RoomFileText(name, cs, roomType)), rule)
         == Room(name, roomType, Placed(r.cxns, cs, Offset(rule)), r.numCxns + |cs|)
  {
    var nameLines: seq<seq<string>> := [["ROOM", NAME_KEY, name]];
    var typeLines: seq<seq<string>> := [["ROOM", TYPE_KEY, roomType]];
    var conns := ConnectionTokens(cs);
    var r1 := r.(name := name);
    assert FileOk(nameLines, rule) && ScanFile(r, nameLines, rule) == r1 by {
      NameOrTypeLineFile(r, NAME_KEY, name, rule);
    }
    var r2 := r1.(cxns := Placed(r.cxns, cs, Offset(rule)), numCxns := r.numCxns + |cs|);
    assert FileOk(conns, rule) && ScanFile(r1, conns, rule) == r2 by {
      ConnectionLinesScan(r1, cs, rule);
    }
    assert FileOk(typeLines, rule) && ScanFile(r2, typeLines, rule) == r2.(roomType := roomType) by {
      NameOrTypeLineFile(r2, TYPE_KEY, roomType, rule);
    }
    assert FileOk(nameLines + conns, rule) && ScanFile(r, nameLines + conns, rule) == r2 by {
      ScanFileAppend(r, nameLines, conns, rule);
    }
    assert Tokenized(RoomFileText(name, cs, roomType)) == nameLines + conns + typeLines by {
      RoomFileTokenized(name, cs, roomType);
    }
    ScanFileAppend(r, nameLines + conns, typeLines, rule);
  }

  /** A file of the single line "ROOM NAME: x" (or "ROOM TYPE: x") sets the name (or type) to x. */
  lemma NameOrTypeLineFile(r: Room, key: string, x: string, rule: SlotRule)
    requires |r.cxns| == MAX_CXNS && (key == NAME_KEY || key == TYPE_KEY) && IsWord(x)
    ensures FileOk([["ROOM", key, x]], rule)
    ensures ScanFile(r, [["ROOM", key, x]], rule)
         == if key == NAME_KEY then r.(name := x) else r.(roomType := x)
  {
    var line: seq<string> := ["ROOM", key, x];
    NameOrTypeLine(r, line, 0, 1, rule);
    assert [line][..0] == [];
  }

  /** The counted prefix of a room's connection table. */
  function Counted(v: Room): seq<string>
    requires CountedInTable(v)
  {
    v.cxns[..v.numCxns]
  }

  /**
   * As written, connection line k (numbered from 1) lands in slot k, so the
   * counted slots 0 .. |cs|-1 hold slot 0's previous contents and all listed
   * targets but the last.
   */
  lemma AsWrittenRoomFile(r: Room, name: string, cs: seq<string>, roomType: string)
    requires |r.cxns| == MAX_CXNS && r.numCxns == 0 && 1 <= |cs| < MAX_CXNS
    requires IsWord(name) && IsWord(roomType) && forall k :: 0 <= k < |cs| ==> IsWord(cs[k])
    ensures FileOk(Tokenized(RoomFileText(name, cs, roomType)), AsWritten)
    ensures var v := ScanFile(r, Tokenized(RoomFileText(name, cs, roomType)), AsWritten);
      CountedInTable(v) && Counted(v) == [r.cxns[0]] + cs[..|cs| - 1]
  {
    RoomFileScan(r, name, cs, roomType, AsWritten);
    PlacedOneLate(r.cxns, cs);
  }

  /** Placing `cs` from slot 1 on and keeping the first |cs| slots drops the last of `cs`. */
  lemma PlacedOneLate(slots: seq<string>, cs: seq<string>)
    requires 1 <= |cs| && 1 + |cs| <= |slots|
    ensures Placed(slots, cs, 1)[..|cs|] == [slots[0]] + cs[..|cs| - 1]
  {
    var p := Placed(slots, cs, 1);
    forall k | 0 <= k < |cs| ensures p[k] == ([slots[0]] + cs[..|cs| - 1])[k] {
      if k > 0 {
        assert p[k] == cs[k - 1];
      }
    }
  }

  /**
   * The input that shows the off-by-one: a room file whose last listed
   * connection appears nowhere else leaves that connection unreachable.
   */
  lemma AsWrittenLosesLastConnection(r: Room, name: string, cs: seq<string>, roomType: string)
    requires |r.cxns| == MAX_CXNS && r.numCxns == 0 && 1 <= |cs| < MAX_CXNS
    requires IsWord(name) && IsWord(roomType) && forall k :: 0 <= k < |cs| ==> IsWord(cs[k])
    requires cs[|cs| - 1] !in cs[..|cs| - 1] && cs[|cs| - 1] != r.cxns[0]
    ensures FileOk(Tokenized(RoomFileText(name, cs, roomType)), AsWritten)
    ensures !Connected(ScanFile(r, Tokenized(RoomFileText(name, cs, roomType)), AsWritten), cs[|cs| - 1])
  {
    AsWrittenRoomFile(r, name, cs, roomType);
    var v := ScanFile(r, Tokenized(RoomFileText(name, cs, roomType)), AsWritten);
    var counted := [r.cxns[0]] + cs[..|cs| - 1];
    assert Counted(v) == counted;
    forall i | 0 <= i < v.numCxns && i < |v.cxns| ensures v.cxns[i] != cs[|cs| - 1] {
      assert v.cxns[i] == counted[i];
      if i > 0 {
        assert counted[i] in cs[..|cs| - 1];
      }
    }
  }

  /** As written, a room with six connections makes line six write past the table: no such file can be read. */
  lemma AsWrittenSixConnections(name: string, cs: seq<string>, roomType: string)
    requires |cs| == MAX_CXNS
    requires IsWord(name) && IsWord(roomType) && forall k :: 0 <= k < |cs| ==> IsWord(cs[k])
    ensures !FileOk(Tokenized(RoomFileText(name, cs, roomType)), AsWritten)
  {
    RoomFileTokenized(name, cs, roomType);
    SixthConnectionOutOfTable(name, cs, roomType);
  }

  lemma SixthConnectionOutOfTable(name: string, cs: seq<string>, roomType: string)
    requires |cs| == MAX_CXNS
    ensures !LineOk(RoomFileTokens(name, cs, roomType)[MAX_CXNS], 0, AsWritten)
  {
    var line := RoomFileTokens(name, cs, roomType)[MAX_CXNS];
    assert line == ConnectionTokens(cs)[MAX_CXNS - 1];
    ConnectionTokensAt(cs, MAX_CXNS - 1, AsWritten);
  }

  /**
   * With the slot decremented, every room file of up to MAX_CXNS connections
   * can be read, the counted slots are exactly the listed targets in order,
   * and a name is a connection exactly when the file lists it.
   */
  lemma DecrementedRoomFile(r: Room, name: string, cs: seq<string>, roomType: string, x: string)
    requires |r.cxns| == MAX_CXNS && r.numCxns == 0 && |cs| <= MAX_CXNS
    requires IsWord(name) && IsWord(roomType) && forall k :: 0 <= k < |cs| ==> IsWord(cs[k])
    ensures FileOk(Tokenized(RoomFileText(name, cs, roomType)), Decremented)
    ensures var v := ScanFile(r, Tokenized(RoomFileText(name, cs, roomType)), Decremented);
      v.name == name && v.roomType == roomType && CountedInTable(v) && Counted(v) == cs
      && (Connected(v, x) <==> x in cs)
  {
    RoomFileScan(r, name, cs, roomType, Decremented);
    var v := ScanFile(r, Tokenized(RoomFileText(name, cs, roomType)), Decremented);
    assert Counted(v) == cs by {
      assert v.cxns == cs + r.cxns[|cs|..];
    }
    CountedConnected(v, x);
  }

  /** A name is a connection of a room exactly when it is among the counted slots. */
  lemma CountedConnected(v: Room, x: string)
    requires CountedInTable(v)
    ensures Connected(v, x) <==> x in Counted(v)
  {
    if x in Counted(v) {
      var i :| 0 <= i < |Counted(v)| && Counted(v)[i] == x;
      assert v.cxns[i] == x;
    }
    if Connected(v, x) {
      var i :| 0 <= i < v.numCxns && i < |v.cxns| && v.cxns[i] == x;
      assert Counted(v)[i] == x;
    }
  }

  /**
   * One room record being filled from its file. The table has MAX_CXNS
   * slots; `numCxns` counts the connection lines read.
   */
  class RoomRecord {
    var name: string
    var roomType: string
    const cxns: array<string>
    var numCxns: int

    ghost predicate Valid()
      reads this
    {
      cxns.Length == MAX_CXNS
    }

    /** The record as a value. */
    function Value(): Room
      reads this, cxns
    {
      Room(name, roomType, cxns[..], numCxns)
    }

    /**
     * A record as main allocates it: no connections counted. Its name, type
     * and slots are uninitialised buffers in the source; here they start empty.
     */
    constructor ()
      ensures Valid() && fresh(cxns)
      ensures Value() == Room("", "", seq(MAX_CXNS, _ => ""), 0)
    {
      name := "";
      roomType := "";
      cxns := new string[MAX_CXNS](_ => "");
      numCxns := 0;
      new;
      assert cxns[..] == seq(MAX_CXNS, _ => "");
    }

    /**
     * Reads one room file, line by line, into this record; `rule` picks the
     * slot index, AsWritten being the code's own.
     */
    method ReadFile(text: seq<string>, rule: SlotRule)
      requires Valid() && FileOk(Tokenized(text), rule)
      modifies this, cxns
      ensures Valid()
      ensures Value() == ScanFile(old(Value()), Tokenized(text), rule)
    {
      var j := 0;
      while j < |text|
        invariant 0 <= j <= |text|
        invariant Value() == ScanFile(old(Value()), Tokenized(text)[..j], rule)
      {
        var toks := LineTokens(text[j]);
        assert toks == Tokenized(text)[j];
        ReadLine(toks, rule);
        j := j + 1;
        assert Tokenized(text)[..j][..j - 1] == Tokenized(text)[..j - 1];
      }
      assert Tokenized(text)[..|text|] == Tokenized(text);
    }

    /**
     * The token loop over one line. The source keeps `flag` across lines, but
     * every iteration that sets it also clears it, so it is 0 at each line start.
     */
    method ReadLine(toks: seq<string>, rule: SlotRule)
      requires Valid() && LineOk(toks, 0, rule)
      modifies this, cxns
      ensures Valid()
      ensures Value() == ScanLine(old(Value()), toks, rule)
    {
      var flag := 0;
      var i := 0;
      while i < |toks|
        invariant 0 <= i <= |toks|
        invariant flag == 0
        invariant LineOk(toks, i, rule)
        invariant ScanFrom(Value(), toks, i, rule) == ScanLine(old(Value()), toks, rule)
      {
        var token := toks[i];
        var num := "";
        if token == NAME_KEY {
          flag := 1;
        }
        if token == TYPE_KEY {
          flag := 2;
        }
        if token == CONNECTION_KEY {
          flag := 3;
          num := toks[i + 1];
          i := i + 1;
        }
        i := i + 1;
        if flag == 1 {
          name := toks[i];
          flag := 0;
        }
        if flag == 2 {
          roomType := toks[i];
          flag := 0;
        }
        if flag == 3 {
          var a := Slot(num, rule);
          cxns[a] := toks[i];
          numCxns := numCxns + 1;
          flag := 0;
        }
      }
    }
  }
}
