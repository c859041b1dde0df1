/**
 * Value models of the two C library routines the room loader relies on:
 * strtok, which splits a line into tokens, and atoi, which reads the
 * connection number.
 */
module CStrings {

  datatype Option<T> = None | Some(value: T)

  /** Delimiters of the first strtok call on a line. */
  const FIRST_DELIMS: set<char> := {' ', ':'}
  /** Delimiters of every later strtok call on the same line. */
  const NEXT_DELIMS: set<char> := {' ', ':', '\n'}
  /** The characters C's isspace accepts, skipped by atoi. */
  const SPACES: set<char> := {' ', '\t', '\n', '\r', '\U{0B}', '\U{0C}'}

  /** No character of `w` is one of `delims`. */
  predicate NoDelims(w: string, delims: set<char>) {
    forall k :: 0 <= k < |w| ==> w[k] !in delims
  }

  /** Drops the leading run of characters from `delims`. */
  function SkipDelims(s: string, delims: set<char>): (r: string)
    ensures |r| <= |s|
    decreases |s|
  {
    if s != [] && s[0] in delims then SkipDelims(s[1..], delims) else s
  }

  /**
   * What strtok skips is a leading run of delimiters: every skipped
   * character is one, and what is left is a suffix starting outside `delims`.
   */
  lemma {:induction false} SkipDelimsSuffix(s: string, delims: set<char>)
    ensures SkipDelims(s, delims) == s[|s| - |SkipDelims(s, delims)|..]
    ensures SkipDelims(s, delims) != [] ==> SkipDelims(s, delims)[0] !in delims
    ensures forall k :: 0 <= k < |s| - |SkipDelims(s, delims)| ==> s[k] in delims
    decreases |s|
  {
    if s != [] && s[0] in delims {
      SkipDelimsSuffix(s[1..], delims);
      forall k | 1 <= k < |s| - |SkipDelims(s, delims)| ensures s[k] in delims {
        assert s[k] == s[1..][k - 1];
      }
    }
  }

  /** Length of the longest prefix of `s` free of `delims`. */
  function TokenLength(s: string, delims: set<char>): (n: nat)
    ensures n <= |s|
    decreases |s|
  {
    if s == [] || s[0] in delims then 0 else 1 + TokenLength(s[1..], delims)
  }

  /** The token is free of `delims`, stops at a delimiter or the end, and is empty only before a delimiter. */
  lemma {:induction false} TokenLengthMaximal(s: string, delims: set<char>)
    ensures NoDelims(s[..TokenLength(s, delims)], delims)
    ensures TokenLength(s, delims) < |s| ==> s[TokenLength(s, delims)] in delims
    ensures s != [] && s[0] !in delims ==> TokenLength(s, delims) > 0
    decreases |s|
  {
    if s != [] && s[0] !in delims {
      TokenLengthMaximal(s[1..], delims);
      var n := TokenLength(s, delims);
      forall k | 0 <= k < n ensures s[..n][k] !in delims {
        if k > 0 {
          assert s[..n][k] == s[1..][..n - 1][k - 1];
        }
      }
    }
  }

  /**
   * One strtok call: skip leading delimiters, take the token up to the next
   * delimiter, and consume that delimiter. None when only delimiters remain.
   */
  function Strtok(s: string, delims: set<char>): (r: Option<(string, string)>)
    ensures r.Some? ==> |r.value.1| < |s|
  {
    var t := SkipDelims(s, delims);
    if t == [] then None
    else
      var n := TokenLength(t, delims);
      Some((t[..n], if n < |t| then t[n + 1..] else []))
  }

  /** A token strtok returns is non-empty and free of `delims`. */
  lemma StrtokToken(s: string, delims: set<char>)
    ensures Strtok(s, delims).Some? ==>
      Strtok(s, delims).value.0 != [] && NoDelims(Strtok(s, delims).value.0, delims)
  {
    var t := SkipDelims(s, delims);
    if t != [] {
      SkipDelimsSuffix(s, delims);
      TokenLengthMaximal(t, delims);
    }
  }

  /** The tokens returned by the strtok(NULL, " :\n") calls that follow the first one. */
  function LaterTokens(s: string): seq<string>
    decreases |s|
  {
    match Strtok(s, NEXT_DELIMS)
    case None => []
    case Some((tok, rest)) => [tok] + LaterTokens(rest)
  }

  /**
   * The tokens of one line as the loader sees them: the first split on
   * " :" (so it may still hold a newline), the rest on " :\n".
   */
  function LineTokens(line: string): seq<string> {
    match Strtok(line, FIRST_DELIMS)
    case None => []
    case Some((tok, rest)) => [tok] + LaterTokens(rest)
  }

  /** Every later token is a non-empty run of characters outside " :\n". */
  lemma {:induction false} LaterTokensAreWords(s: string)
    ensures forall k :: 0 <= k < |LaterTokens(s)| ==>
      LaterTokens(s)[k] != [] && NoDelims(LaterTokens(s)[k], NEXT_DELIMS)
    decreases |s|
  {
    match Strtok(s, NEXT_DELIMS)
    case None =>
    case Some((tok, rest)) =>
      StrtokToken(s, NEXT_DELIMS);
      LaterTokensAreWords(rest);
  }

  /**
   * Every token of a line is non-empty; the first holds no ' ' or ':' and
   * every later one no ' ', ':' or newline.
   */
  lemma LineTokensAreWords(line: string)
    ensures forall k :: 0 <= k < |LineTokens(line)| ==> LineTokens(line)[k] != []
    ensures |LineTokens(line)| > 0 ==> NoDelims(LineTokens(line)[0], FIRST_DELIMS)
    ensures forall k :: 1 <= k < |LineTokens(line)| ==> NoDelims(LineTokens(line)[k], NEXT_DELIMS)
  {
    match Strtok(line, FIRST_DELIMS)
    case None =>
    case Some((tok, rest)) =>
      StrtokToken(line, FIRST_DELIMS);
      LaterTokensAreWords(rest);
  }

  /** Every line of a file, split into tokens. */
  function Tokenized(text: seq<string>): seq<seq<string>> {
    seq(|text|, j requires 0 <= j < |text| => LineTokens(text[j]))
  }

  predicate IsDigit(c: char) {
    '0' as int <= c as int <= '9' as int
  }

  /** Length of the leading run of decimal digits. */
  function DigitRun(s: string): (n: nat)
    ensures n <= |s|
    decreases |s|
  {
    if s == [] || !IsDigit(s[0]) then 0 else 1 + DigitRun(s[1..])
  }

  /** Value of a string of decimal digits, most significant first. */
  function DecimalValue(ds: string): int
    decreases |ds|
  {
    if ds == [] then 0
    else DecimalValue(ds[..|ds| - 1]) * 10 + (ds[|ds| - 1] as int - '0' as int)
  }

  /**
   * C's atoi: skip white space, read an optional sign, then the longest run
   * of digits; 0 when there is none. Overflow of `int` is not modelled.
   */
  function Atoi(s: string): int {
    var t := SkipDelims(s, SPACES);
    if t != [] && (t[0] == '-' || t[0] == '+') then
      var ds := t[1..][..DigitRun(t[1..])];
      if t[0] == '-' then -DecimalValue(ds) else DecimalValue(ds)
    else
      DecimalValue(t[..DigitRun(t)])
  }

  /** The one-character decimal numeral of `d`. */
  function DigitString(d: nat): (s: string)
    requires d <= 9
  {
    [('0' as int + d) as char]
  }

  lemma AtoiOfDigits(ds: string)
    requires ds != [] && DigitRun(ds) == |ds|
    ensures Atoi(ds) == DecimalValue(ds)
  {
    SkipDigits(ds);
    assert Atoi(ds) == DecimalValue(ds[..DigitRun(ds)]);
    assert ds[..|ds|] == ds;
  }

  lemma SkipDigits(ds: string)
    requires ds != [] && IsDigit(ds[0])
    ensures SkipDelims(ds, SPACES) == ds && ds[0] != '-' && ds[0] != '+'
  {
    assert ds[0] !in SPACES;
  }

  /** atoi reads back the numeral of a digit: the connection numbers of a room file. */
  lemma AtoiDigitString(d: nat)
    requires d <= 9
    ensures DigitString(d) != [] && NoDelims(DigitString(d), NEXT_DELIMS)
    ensures Atoi(DigitString(d)) == d
  {
    var s := DigitString(d);
    AtoiOfDigits(s);
    assert s[..0] == [];
  }

  /** A strtok call on a delimiter-free word followed by a delimiter returns the word and what follows. */
  lemma {:induction false} TokenLengthOfWord(w: string, tail: string, delims: set<char>)
    requires NoDelims(w, delims) && tail != [] && tail[0] in delims
    ensures TokenLength(w + tail, delims) == |w|
    decreases |w|
  {
    if w != [] {
      assert (w + tail)[1..] == w[1..] + tail;
      TokenLengthOfWord(w[1..], tail, delims);
    } else {
      assert w + tail == tail;
    }
  }

  lemma StrtokWord(pre: string, w: string, d: char, rest: string, delims: set<char>)
    requires forall k :: 0 <= k < |pre| ==> pre[k] in delims
    requires w != [] && NoDelims(w, delims) && d in delims
    ensures Strtok(pre + w + [d] + rest, delims) == Some((w, rest))
  {
    var t := w + ([d] + rest);
    var s := pre + w + [d] + rest;
    assert s == pre + t;
    SkipPrefix(pre, t, delims);
    TokenLengthOfWord(w, [d] + rest, delims);
    StrtokSplit(s, t, |w|, delims);
    assert t[..|w|] == w;
    assert t[|w| + 1..] == rest;
  }

  /** Strtok once the skipped prefix and the token length are known. */
  lemma StrtokSplit(s: string, t: string, n: nat, delims: set<char>)
    requires SkipDelims(s, delims) == t && TokenLength(t, delims) == n && n < |t|
    ensures Strtok(s, delims) == Some((t[..n], t[n + 1..]))
  {
    assert t != [];
  }

  lemma {:induction false} SkipPrefix(pre: string, s: string, delims: set<char>)
    requires forall k :: 0 <= k < |pre| ==> pre[k] in delims
    requires s != [] && s[0] !in delims
    ensures SkipDelims(pre + s, delims) == s
    decreases |pre|
  {
    if pre != [] {
      assert (pre + s)[1..] == pre[1..] + s;
      SkipPrefix(pre[1..], s, delims);
    } else {
      assert pre + s == s;
    }
  }

  lemma LaterTokensOfLastWord(c: string)
    requires c != [] && NoDelims(c, NEXT_DELIMS)
    ensures LaterTokens(" " + c + "\n") == [c]
  {
    StrtokWord(" ", c, '\n', [], NEXT_DELIMS);
    assert " " + c + "\n" == " " + c + ['\n'] + [];
    assert Strtok([], NEXT_DELIMS).None?;
  }

  lemma LaterTokensOfValue(b: string, c: string)
    requires b != [] && NoDelims(b, NEXT_DELIMS)
    requires c != [] && NoDelims(c, NEXT_DELIMS)
    ensures LaterTokens(b + ": " + c + "\n") == [b, c]
  {
    var rest := " " + c + "\n";
    StrtokWord([], b, ':', rest, NEXT_DELIMS);
    assert b + ": " + c + "\n" == [] + b + [':'] + rest;
    LaterTokensOfLastWord(c);
  }

  /**
   * A line "A B: C" followed by a newline, the shape of every line of a room
   * file, splits into exactly [A, B, C].
   */
  lemma KeyValueLineTokens(a: string, b: string, c: string)
    requires a != [] && NoDelims(a, NEXT_DELIMS)
    requires b != [] && NoDelims(b, NEXT_DELIMS)
    requires c != [] && NoDelims(c, NEXT_DELIMS)
    ensures LineTokens(a + " " + b + ": " + c + "\n") == [a, b, c]
  {
    var rest := b + ": " + c + "\n";
    assert NoDelims(a, FIRST_DELIMS);
    StrtokWord([], a, ' ', rest, FIRST_DELIMS);
    assert a + " " + b + ": " + c + "\n" == [] + a + [' '] + rest;
    LaterTokensOfValue(b, c);
  }
}
