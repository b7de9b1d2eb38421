/**
 Quoted strings: the form that `%q` gives a string (addquoted in lstrlib.c) and how the lexer
 reads a string between delimiters (read_string in llex.c).
 */
module Quoted {

  const BACKSLASH := '\\'
  const NEWLINE := '\n'
  const RETURN := '\r'

  // ------------------------------------------------------------- %q

  /** One turn of the loop of `addquoted`. */
  function QuoteChar(c: char): string {
    if c == '"' || c == BACKSLASH || c == NEWLINE then [BACKSLASH, c]
    else if c == RETURN then [BACKSLASH, 'r']
    else if c == '\0' then [BACKSLASH, '0', '0', '0']
    else [c]
  }

  function QuoteAll(s: string): string {
    if s == [] then [] else QuoteChar(s[0]) + QuoteAll(s[1..])
  }

  /** `addquoted` */
  function Quote(s: string): string {
    ['"'] + QuoteAll(s) + ['"']
  }

  // ------------------------------------------------------------- read_string

  datatype LexError = Unfinished | TooLarge

  /** The bytes between the delimiters, the place behind them, and the lines that were passed. */
  datatype Lexed = Str(s: string, rest: string, lines: nat) | Failed(error: LexError)

  predicate IsNewline(c: char) {
    c == NEWLINE || c == RETURN
  }

  predicate IsDigit(c: char) {
    '0' <= c <= '9'
  }

  /** `inclinenumber`: one line end, whichever way it is written. */
  function SkipNewline(z: string): (r: string)
    requires z != [] && IsNewline(z[0])
    ensures |r| < |z|
  {
    if |z| > 1 && IsNewline(z[1]) && z[1] != z[0] then z[2..] else z[1..]
  }

  /** The digits of a decimal escape, three at most, and its value. */
  function Digits(z: string, n: nat): nat
    ensures Digits(z, n) <= n && Digits(z, n) <= |z|
  {
    if n == 0 || z == [] || !IsDigit(z[0]) then 0 else 1 + Digits(z[1..], n - 1)
  }

  function Value(z: string, acc: nat): nat {
    if z == [] then acc else Value(z[1..], 10 * acc + (if z[0] >= '0' then z[0] as int - '0' as int else 0))
  }

  /** The characters that a letter behind a backslash stands for. */
  function Letter(c: char): (r: string)
    ensures |r| <= 1
  {
    match c
    case 'a' => [7 as char]
    case 'b' => [8 as char]
    case 'f' => [12 as char]
    case 'n' => [NEWLINE]
    case 'r' => [RETURN]
    case 't' => [9 as char]
    case 'v' => [11 as char]
    case _ => []
  }

  function Saved(s: string, lines: nat, r: Lexed): Lexed {
    match r
    case Str(t, rest, n) => Str(s + t, rest, lines + n)
    case Failed(_) => r
  }

  /** The loop of `read_string`; `z` is what the lexer still has to read, and bytes are codes up to 255. */
  function Read(z: string, del: char): Lexed
    decreases |z|
  {
    if z == [] then Failed(Unfinished)
    else if z[0] == del then Str([], z[1..], 0)
    else if IsNewline(z[0]) then Failed(Unfinished)
    else if z[0] != BACKSLASH then Saved([z[0]], 0, Read(z[1..], del))
    else if |z| == 1 then Failed(Unfinished)
    else
      var c := z[1];
      if Letter(c) != [] then Saved(Letter(c), 0, Read(z[2..], del))
      else if IsNewline(c) then Saved([NEWLINE], 1, Read(SkipNewline(z[1..]), del))
      else if !IsDigit(c) then Saved([c], 0, Read(z[2..], del))
      else
        var n := Digits(z[1..], 3);
        var v := Value(z[1..1 + n], 0);
        if v > 255 then Failed(TooLarge) else Saved([v as char], 0, Read(z[1 + n..], del))
  }

  /** `read_string`, called at the delimiter */
  function ReadString(z: string): Lexed {
    if z == [] then Failed(Unfinished) else Read(z[1..], z[0])
  }

  // ------------------------------------------------------------- reading undoes quoting

  function Newlines(s: string): nat {
    if s == [] then 0 else (if s[0] == NEWLINE then 1 else 0) + Newlines(s[1..])
  }

  /** One step of `read_string`. */
  lemma ReadCases(z: string, del: char)
    ensures z == [] ==> Read(z, del) == Failed(Unfinished)
    ensures z != [] && z[0] == del ==> Read(z, del) == Str([], z[1..], 0)
    ensures z != [] && z[0] != del && IsNewline(z[0]) ==> Read(z, del) == Failed(Unfinished)
    ensures z != [] && z[0] != del && !IsNewline(z[0]) && z[0] != BACKSLASH ==> Read(z, del) == Saved([z[0]], 0, Read(z[1..], del))
    ensures z == [BACKSLASH] && BACKSLASH != del ==> Read(z, del) == Failed(Unfinished)
    ensures |z| > 1 && z[0] == BACKSLASH != del ==>
              var c := z[1];
              Read(z, del) == if Letter(c) != [] then Saved(Letter(c), 0, Read(z[2..], del))
                              else if IsNewline(c) then Saved([NEWLINE], 1, Read(SkipNewline(z[1..]), del))
                              else if !IsDigit(c) then Saved([c], 0, Read(z[2..], del))
                              else
                                var n := Digits(z[1..], 3);
                                if Value(z[1..1 + n], 0) > 255 then Failed(TooLarge)
                                else Saved([Value(z[1..1 + n], 0) as char], 0, Read(z[1 + n..], del))
  {
    hide Letter, Value, Digits;
  }

  /** What stands for one byte is read as that byte, whatever follows in the quoted form. */
  lemma ReadsChar(c: char, z: string)
    requires z != [] && !IsNewline(z[0])
    ensures Read(QuoteChar(c) + z, '"') == Saved([c], if c == NEWLINE then 1 else 0, Read(z, '"'))
  {
    hide Read, Saved, Letter, Value, Digits;
    var q := QuoteChar(c) + z;
    ReadCases(q, '"');
    Letters(c);
    if c == NEWLINE {
      assert q[1..] == [NEWLINE] + z;
      assert SkipNewline([NEWLINE] + z) == z;
    } else if c == '\0' {
      assert q[1..] == ['0', '0', '0'] + z;
      ThreeZeros(z);
      assert q[1..4] == ['0', '0', '0'] && q[4..] == z;
    } else if c == '"' || c == BACKSLASH || c == RETURN {
      assert q[2..] == z && q[1] == if c == RETURN then 'r' else c;
    } else {
      assert q[1..] == z;
    }
  }

  /** The characters behind the backslashes of a quoted form. */
  lemma Letters(c: char)
    ensures c == '"' || c == BACKSLASH || c == NEWLINE ==> Letter(c) == [] && !IsDigit(c)
    ensures Letter('r') == [RETURN] && Letter('0') == [] && IsDigit('0') && !IsNewline('0')
  {
  }

  lemma ThreeZeros(z: string)
    ensures Digits(['0', '0', '0'] + z, 3) == 3 && Value(['0', '0', '0'], 0) == 0
  {
    var q := ['0', '0', '0'] + z;
    assert q[1..] == ['0', '0'] + z;
    assert q[1..][1..] == ['0'] + z;
    assert Digits(q[1..][1..], 1) == 1;
    assert Digits(q[1..], 2) == 2;
    var v := ['0', '0', '0'];
    assert v[1..] == ['0', '0'] && v[1..][1..] == ['0'] && v[1..][1..][1..] == [];
  }

  lemma QuotedBegins(s: string, rest: string)
    ensures var z := QuoteAll(s) + ['"'] + rest; z != [] && !IsNewline(z[0])
  {
  }

  lemma {:induction false} ReadsAll(s: string, rest: string)
    ensures Read(QuoteAll(s) + ['"'] + rest, '"') == Str(s, rest, Newlines(s))
    decreases |s|
  {
    if s == [] {
      assert (QuoteAll(s) + ['"'] + rest)[1..] == rest;
    } else {
      ReadsAll(s[1..], rest);
      QuotedBegins(s[1..], rest);
      ReadsChar(s[0], QuoteAll(s[1..]) + ['"'] + rest);
      assert QuoteAll(s) + ['"'] + rest == QuoteChar(s[0]) + (QuoteAll(s[1..]) + ['"'] + rest);
      assert [s[0]] + s[1..] == s;
    }
  }

  /** Reading the quoted form of any string gives the string back and ends right behind the closing
      quote; the lexer has passed as many lines as the string has. */
  lemma ReadUndoesQuote(s: string, rest: string)
    ensures ReadString(Quote(s) + rest) == Str(s, rest, Newlines(s))
  {
    ReadsAll(s, rest);
    assert (Quote(s) + rest)[1..] == QuoteAll(s) + ['"'] + rest;
  }

  // ------------------------------------------------------------- as it is written

  /** `addquoted`, into a buffer */
  method AddQuoted(s: string) returns (b: string)
    ensures b == Quote(s)
  {
    hide QuoteChar;
    b := ['"'];
    var i := 0;
    while i < |s|
      invariant 0 <= i <= |s| && b + QuoteAll(s[i..]) == ['"'] + QuoteAll(s)
    {
      assert s[i..][1..] == s[i + 1..];
      var q := AddChar(s[i]);
      assert b + QuoteAll(s[i..]) == (b + q) + QuoteAll(s[i + 1..]);
      b := b + q;
      i := i + 1;
    }
    assert s[i..] == [];
    b := b + ['"'];
  }

  /** The `switch` of `addquoted` */
  method AddChar(c: char) returns (b: string)
    ensures b == QuoteChar(c)
  {
    if c == '"' || c == BACKSLASH || c == NEWLINE {
      b := [BACKSLASH, c];
    } else if c == RETURN {
      b := [BACKSLASH, 'r'];
    } else if c == '\0' {
      b := [BACKSLASH, '0', '0', '0'];
    } else {
      b := [c];
    }
  }
}
