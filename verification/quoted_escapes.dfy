/**
 String literals as the manual describes them (section 2.1 of the Lua 5.1 Reference Manual): which text
 stands for which bytes, and the proof that the lexer reads exactly that, for every text.
 */
module QuotedEscapes {
  import opened Quoted

  // ------------------------------------------------------------- what stands for what

  /** The codes of the characters that are written by a letter. */
  const LETTER_CODES: map<char, int> := map['a' := 7, 'b' := 8, 't' := 9, 'n' := 10, 'v' := 11, 'f' := 12, 'r' := 13]

  predicate Digit(c: char) {
    c in "0123456789"
  }

  function DigitCode(c: char): int {
    c as int - 48
  }

  /** The number that one to three digits write in base ten. */
  function Decimal(d: string): int
    requires 1 <= |d| <= 3
  {
    if |d| == 1 then DigitCode(d[0])
    else if |d| == 2 then 10 * DigitCode(d[0]) + DigitCode(d[1])
    else 100 * DigitCode(d[0]) + 10 * DigitCode(d[1]) + DigitCode(d[2])
  }

  /** One to three digits, as many as there are. */
  predicate IsDecimal(d: string, next: string) {
    && 1 <= |d| <= 3 && (forall i :: 0 <= i < |d| ==> Digit(d[i]))
    && (|d| < 3 && next != [] ==> !Digit(next[0]))
  }

  /** The four ways to write a line end. */
  predicate LineEnd(d: string) {
    d == "\n" || d == "\r" || d == "\n\r" || d == "\r\n"
  }

  /** A line end, with its second character if it has one. */
  predicate IsLineEnd(d: string, next: string) {
    LineEnd(d) && (|d| == 1 && next != [] ==> !LineEnd(d + [next[0]]))
  }

  /** The text `p`, in front of `next`, stands for the byte `c` in a string delimited by `del`. */
  predicate StandsFor(p: string, next: string, del: char, c: char) {
    || (p == [c] && c !in [del, '\\', '\n', '\r'])
    || (|p| >= 2 && p[0] == '\\' &&
        (|| (|p| == 2 && p[1] in LETTER_CODES && c as int == LETTER_CODES[p[1]])
         || (IsDecimal(p[1..], next) && c as int == Decimal(p[1..]) <= 255)
         || (IsLineEnd(p[1..], next) && c as int == 10)
         || (p == ['\\', c] && c !in LETTER_CODES && !Digit(c) && c !in ['\n', '\r'])))
  }

  /** The lines that it passes. */
  function Passed(p: string): nat {
    if |p| >= 2 && p[0] == '\\' && p[1] in ['\n', '\r'] then 1 else 0
  }

  /** Up to `rest`, the text `z` stands for the bytes `s` and passes `n` lines. */
  ghost predicate Spells(z: string, del: char, s: string, n: nat, rest: string)
    decreases |s|
  {
    if s == [] then z == rest && n == 0
    else exists k :: 0 < k <= |z| && SpellsFrom(z, del, s, n, rest, k)
  }

  /** The first byte takes `k` characters. */
  ghost predicate SpellsFrom(z: string, del: char, s: string, n: nat, rest: string, k: nat)
    requires s != [] && 0 < k <= |z|
    decreases |s|, 0
  {
    && StandsFor(z[..k], z[k..], del, s[0])
    && n >= Passed(z[..k]) && Spells(z[k..], del, s[1..], n - Passed(z[..k]), rest)
  }

  /** The text does not go on as a string: it is over, or the line is. */
  predicate BreaksOff(z: string) {
    z == [] || z[0] in ['\n', '\r'] || z == ['\\']
  }

  /** A decimal escape that is no byte. */
  ghost predicate Overflows(z: string) {
    exists k :: 1 < k <= |z| && z[0] == '\\' && IsDecimal(z[1..k], z[k..]) && Decimal(z[1..k]) > 255
  }

  // ------------------------------------------------------------- one piece

  lemma DigitIs(c: char)
    ensures Digit(c) <==> IsDigit(c)
  {
    if IsDigit(c) {
      assert "0123456789"[c as int - 48] == c;
    }
  }

  lemma LetterIs(c: char)
    ensures Letter(c) == if c in LETTER_CODES then [LETTER_CODES[c] as char] else []
    ensures c in LETTER_CODES ==> !Digit(c) && !IsNewline(c) && 0 <= LETTER_CODES[c] < 256
  {
  }

  lemma LineEndText(d: string)
    ensures LineEnd(d) <==> (|d| == 1 && IsNewline(d[0])) || (|d| == 2 && IsNewline(d[0]) && IsNewline(d[1]) && d[0] != d[1])
  {
    if |d| == 1 {
      assert d == [d[0]];
    } else if |d| == 2 {
      assert d == [d[0], d[1]];
    }
  }

  lemma LineEndIs(z: string, k: nat)
    requires z != [] && IsNewline(z[0]) && 0 < k <= |z|
    ensures IsLineEnd(z[..k], z[k..]) <==> SkipNewline(z) == z[k..]
  {
    hide LineEnd;
    LineEndText(z[..k]);
    if k == 1 && |z| > 1 {
      assert z[..1] + [z[1..][0]] == [z[0], z[1]];
      LineEndText([z[0], z[1]]);
    }
    if SkipNewline(z) == z[k..] {
      assert |SkipNewline(z)| == |z| - k;
    }
  }

  lemma DigitsAre(z: string, n: nat)
    ensures var k := Digits(z, n);
            && (forall i :: 0 <= i < k ==> Digit(z[i]))
            && (k < n && k < |z| ==> !Digit(z[k]))
    decreases n
  {
    if n > 0 && z != [] {
      DigitIs(z[0]);
      if Digit(z[0]) {
        DigitsAre(z[1..], n - 1);
      }
    }
  }

  lemma ValueIs(d: string)
    requires 1 <= |d| <= 3 && forall i :: 0 <= i < |d| ==> Digit(d[i])
    ensures Value(d, 0) == Decimal(d) >= 0
  {
    hide Digit;
    DigitIs(d[0]);
    if |d| == 1 {
      assert Value(d[1..], DigitCode(d[0])) == DigitCode(d[0]);
    } else {
      DigitIs(d[1]);
      assert d[1..][0] == d[1];
      if |d| == 2 {
        assert Value(d[1..][1..], 10 * DigitCode(d[0]) + DigitCode(d[1])) == Decimal(d);
      } else {
        DigitIs(d[2]);
        assert d[1..][1..][0] == d[2];
        assert Value(d[1..][1..][1..], Decimal(d)) == Decimal(d);
        assert Value(d[1..][1..], 10 * DigitCode(d[0]) + DigitCode(d[1])) == Decimal(d);
      }
    }
  }

  // ------------------------------------------------------------- the lexer reads it so

  predicate Delimiter(del: char) {
    del == '"' || del == '\''
  }

  /** What stands for a byte in front of the rest is read as this byte. */
  lemma PieceIsRead(z: string, del: char, k: nat, c: char)
    requires Delimiter(del) && 0 < k <= |z| && StandsFor(z[..k], z[k..], del, c)
    ensures Read(z, del) == Saved([c], Passed(z[..k]), Read(z[k..], del))
  {
    hide Read, Saved, Letter, Digits, Value, SkipNewline, Digit, Decimal, LineEnd, IsLineEnd, IsDecimal;
    ReadCases(z, del);
    var p := z[..k];
    assert forall i :: 0 <= i < k ==> p[i] == z[i];
    if k == 1 {
      assert z[0] == c;
    } else {
      LetterIs(z[1]);
      DigitIs(z[1]);
      DecimalFirst(p[1..], z[k..]);
      assert z[1..][..k - 1] == p[1..] && z[1..][k - 1..] == z[k..];
      if IsLineEnd(p[1..], z[k..]) {
        LineEndFirst(p[1..], z[k..]);
        LineEndIs(z[1..], k - 1);
      } else if IsDecimal(p[1..], z[k..]) {
        DecimalIs(z[1..], k - 1);
      }
    }
  }

  lemma LineEndFirst(d: string, next: string)
    requires IsLineEnd(d, next)
    ensures d != [] && IsNewline(d[0])
  {
    LineEndText(d);
  }

  lemma DecimalFirst(d: string, next: string)
    ensures IsDecimal(d, next) ==> d != [] && Digit(d[0])
  {
  }

  /** The digits of a decimal escape. */
  lemma DecimalIs(z: string, k: nat)
    requires 0 < k <= |z|
    ensures IsDecimal(z[..k], z[k..]) <==> Digits(z, 3) == k
    ensures IsDecimal(z[..k], z[k..]) ==> IsDigit(z[0]) && Value(z[..k], 0) == Decimal(z[..k]) >= 0
  {
    hide Value, Decimal, Digit;
    DigitsAre(z, 3);
    DigitIs(z[0]);
    var n := Digits(z, 3);
    if IsDecimal(z[..k], z[k..]) {
      assert forall i :: 0 <= i < k ==> Digit(z[..k][i]) && z[..k][i] == z[i];
      assert k < 3 && k < |z| ==> !Digit(z[k..][0]) && z[k..][0] == z[k];
      ValueIs(z[..k]);
      assert n == k;
    }
  }

  /** Every turn of the loop reads a piece, or the string ends, or breaks off, or overflows. */
  lemma TurnReadsPiece(z: string, del: char) returns (k: nat, c: char)
    requires Delimiter(del) && !BreaksOff(z) && z[0] != del && !Overflows(z)
    ensures 0 < k <= |z| && StandsFor(z[..k], z[k..], del, c)
  {
    hide Digit, Decimal, LineEnd, IsLineEnd, IsDecimal, Digits, SkipNewline;
    if z[0] != '\\' {
      k, c := 1, z[0];
      assert z[..1] == [c];
    } else {
      LetterIs(z[1]);
      DigitIs(z[1]);
      assert z[..2] == ['\\', z[1]] && z[..2][1..] == [z[1]];
      if z[1] in LETTER_CODES {
        k, c := 2, LETTER_CODES[z[1]] as char;
      } else if IsNewline(z[1]) {
        k, c := 1 + (|z| - 1 - |SkipNewline(z[1..])|), '\n';
        LineEndIs(z[1..], k - 1);
        SkipIsSuffix(z[1..]);
        assert z[1..][..k - 1] == z[..k][1..] && z[1..][k - 1..] == z[k..];
      } else if IsDigit(z[1]) {
        k := 1 + Digits(z[1..], 3);
        DigitsSome(z[1..]);
        DecimalIs(z[1..], k - 1);
        assert z[1..][..k - 1] == z[..k][1..] == z[1..k] && z[1..][k - 1..] == z[k..];
        c := Decimal(z[1..k]) as char;
      } else {
        k, c := 2, z[1];
      }
    }
  }

  lemma SkipIsSuffix(z: string)
    requires z != [] && IsNewline(z[0])
    ensures SkipNewline(z) == z[|z| - |SkipNewline(z)|..]
  {
  }

  lemma DigitsSome(z: string)
    requires z != [] && IsDigit(z[0])
    ensures 1 <= Digits(z, 3) <= |z|
  {
  }

  // ------------------------------------------------------------- whole strings

  lemma SavedTwice(c: char, s: string, m: nat, n: nat, r: Lexed)
    ensures Saved([c], m, Saved(s, n, r)) == Saved([c] + s, m + n, r)
  {
    if r.Str? {
      assert [c] + (s + r.s) == [c] + s + r.s;
    }
  }

  lemma SavedNone(r: Lexed)
    ensures Saved([], 0, r) == r
  {
    if r.Str? {
      assert [] + r.s == r.s;
    }
  }

  /** What a text spells is read before its rest is. */
  lemma {:induction false} SpelledIsRead(z: string, del: char, s: string, n: nat, rest: string)
    requires Delimiter(del) && Spells(z, del, s, n, rest)
    ensures Read(z, del) == Saved(s, n, Read(rest, del))
    decreases |s|
  {
    hide Read, Saved, StandsFor, Passed;
    if s == [] {
      SavedNone(Read(rest, del));
    } else {
      var k :| 0 < k <= |z| && SpellsFrom(z, del, s, n, rest, k);
      PieceIsRead(z, del, k, s[0]);
      SpelledIsRead(z[k..], del, s[1..], n - Passed(z[..k]), rest);
      SavedTwice(s[0], s[1..], Passed(z[..k]), n - Passed(z[..k]), Read(rest, del));
      assert [s[0]] + s[1..] == s;
    }
  }

  /** Every text spells something, up to its delimiter or to where it is in error. */
  lemma {:induction false} SpellsUpTo(z: string, del: char) returns (s: string, n: nat, rest: string)
    requires Delimiter(del)
    ensures Spells(z, del, s, n, rest) && (BreaksOff(rest) || (rest != [] && rest[0] == del) || Overflows(rest))
    decreases |z|
  {
    hide StandsFor, Passed, Overflows;
    if BreaksOff(z) || z[0] == del || Overflows(z) {
      s, n, rest := [], 0, z;
    } else {
      var k, c := TurnReadsPiece(z, del);
      var s1, n1;
      s1, n1, rest := SpellsUpTo(z[k..], del);
      s, n := [c] + s1, n1 + Passed(z[..k]);
      assert s[1..] == s1 && s[0] == c;
      assert SpellsFrom(z, del, s, n, rest, k);
    }
  }

  lemma EndIsRead(z: string, del: char)
    requires Delimiter(del)
    ensures BreaksOff(z) ==> Read(z, del) == Failed(Unfinished)
    ensures Overflows(z) ==> Read(z, del) == Failed(TooLarge)
    ensures z != [] && z[0] == del ==> Read(z, del) == Str([], z[1..], 0)
  {
    hide Read, Saved, Letter, Digits, Value, SkipNewline, Digit, Decimal;
    ReadCases(z, del);
    if Overflows(z) {
      var k :| 1 < k <= |z| && z[0] == '\\' && IsDecimal(z[1..k], z[k..]) && Decimal(z[1..k]) > 255;
      assert z[1..][..k - 1] == z[1..k] && z[1..][k - 1..] == z[k..];
      DecimalIs(z[1..], k - 1);
      LetterIs(z[1]);
      DigitIs(z[1]);
    }
  }

  /** Behind its delimiter, a text is read as the string `s`, with `rest` behind the closing delimiter,
      if and only if it spells `s` up to there. */
  lemma ReadsWhatIsSpelled(z: string, del: char, s: string, n: nat, rest: string)
    requires Delimiter(del)
    ensures Read(z, del) == Str(s, rest, n) <==> Spells(z, del, s, n, [del] + rest)
  {
    hide Read, Spells, BreaksOff, Overflows;
    var s1, n1, rest1 := SpellsUpTo(z, del);
    SpelledIsRead(z, del, s1, n1, rest1);
    EndIsRead(rest1, del);
    EndIsRead([del] + rest, del);
    assert ([del] + rest)[1..] == rest;
    assert s + [] == s && s1 + [] == s1;
    if Spells(z, del, s, n, [del] + rest) {
      SpelledIsRead(z, del, s, n, [del] + rest);
    }
    if Read(z, del) == Str(s, rest, n) {
      assert rest1 == [del] + rest1[1..];
    }
  }

  /** It is in error if and only if it spells something up to where it breaks off, or to an escape
      that is no byte. */
  lemma FailsWhere(z: string, del: char)
    requires Delimiter(del)
    ensures Read(z, del) == Failed(Unfinished) <==> exists s, n, rest :: Spells(z, del, s, n, rest) && BreaksOff(rest)
    ensures Read(z, del) == Failed(TooLarge) <==> exists s, n, rest :: Spells(z, del, s, n, rest) && Overflows(rest)
  {
    hide Read, Spells, BreaksOff, Overflows;
    var s1, n1, rest1 := SpellsUpTo(z, del);
    SpelledIsRead(z, del, s1, n1, rest1);
    EndIsRead(rest1, del);
    assert Spells(z, del, s1, n1, rest1);
    forall s, n, rest | Spells(z, del, s, n, rest) && (BreaksOff(rest) || Overflows(rest))
      ensures (BreaksOff(rest) ==> Read(z, del) == Failed(Unfinished)) && (Overflows(rest) ==> Read(z, del) == Failed(TooLarge))
    {
      SpelledIsRead(z, del, s, n, rest);
      EndIsRead(rest, del);
    }
  }

  /** `read_string` at a delimiter. */
  lemma LiteralIff(z: string, s: string, n: nat, rest: string)
    requires z != [] && Delimiter(z[0])
    ensures ReadString(z) == Str(s, rest, n) <==> Spells(z[1..], z[0], s, n, [z[0]] + rest)
  {
    ReadsWhatIsSpelled(z[1..], z[0], s, n, rest);
  }
}
