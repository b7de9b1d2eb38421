/**
 What a pattern class contains, stated by its characters (section 5.4.1 of the Lua 5.1 Reference Manual,
 the functions of `ctype.h` in the C locale), and what the text of a set means.
 */
module PatternClasses {
  import opened Patterns
  import opened PatternDecode

  const SMALL := "abcdefghijklmnopqrstuvwxyz"
  const CAPITAL := "ABCDEFGHIJKLMNOPQRSTUVWXYZ"
  const DIGITS := "0123456789"
  const HEXADECIMAL := "0123456789abcdefABCDEF"
  const SPACES := " \t\n\r\U{0B}\U{0C}"
  const PUNCTUATION := "!\"#$%&'()*+,-./" + ":;<=>?@" + "[\\]^_`" + "{|}~"

  /** The letters that name a class. */
  const CLASS_LETTERS := "acdlpsuwxzACDLPSUWXZ"

  // ------------------------------------------------------------- the letters

  /** A row of neighbours. */
  predicate Row(row: string, first: char) {
    forall i :: 0 <= i < |row| ==> row[i] as int == first as int + i
  }

  lemma InRow(row: string, first: char, c: char)
    requires Row(row, first)
    ensures c in row <==> first as int <= c as int < first as int + |row|
  {
    if first as int <= c as int < first as int + |row| {
      assert row[c as int - first as int] == c;
    }
  }

  lemma SmallAre(c: char)
    ensures IsLower(c) <==> c in SMALL
  {
    assert Row(SMALL, 'a');
    InRow(SMALL, 'a', c);
  }

  lemma CapitalAre(c: char)
    ensures IsUpper(c) <==> c in CAPITAL
  {
    assert Row(CAPITAL, 'A');
    InRow(CAPITAL, 'A', c);
  }

  lemma DigitsAre(c: char)
    ensures IsDigit(c) <==> c in DIGITS
  {
    if IsDigit(c) {
      assert DIGITS[c as int - '0' as int] == c;
    }
  }

  lemma HexadecimalAre(c: char)
    ensures IsHex(c) <==> c in HEXADECIMAL
  {
    if '0' <= c <= '9' {
      assert HEXADECIMAL[c as int - '0' as int] == c;
    } else if 'a' <= c <= 'f' {
      assert HEXADECIMAL[c as int - 'a' as int + 10] == c;
    } else if 'A' <= c <= 'F' {
      assert HEXADECIMAL[c as int - 'A' as int + 16] == c;
    }
  }

  lemma SpacesAre(c: char)
    ensures IsSpace(c) <==> c in SPACES
  {
    if IsSpace(c) {
      assert SPACES[if c == ' ' then 0 else if c == '\t' then 1 else if c == '\n' then 2 else if c == '\r' then 3 else c as int - 7] == c;
    }
  }

  lemma PunctuationAre(c: char)
    ensures IsPunct(c) <==> c in PUNCTUATION
  {
    FirstPunctuation(c);
    assert Row(":;<=>?@", ':') && Row("[\\]^_`", '[') && Row("{|}~", '{');
    InRow(":;<=>?@", ':', c);
    InRow("[\\]^_`", '[', c);
    InRow("{|}~", '{', c);
    InFour("!\"#$%&'()*+,-./", ":;<=>?@", "[\\]^_`", "{|}~", c);
  }

  lemma FirstPunctuation(c: char)
    ensures c in "!\"#$%&'()*+,-./" <==> '!' <= c <= '/'
  {
    assert Row("!\"#$%&'()*+,-./", '!');
    InRow("!\"#$%&'()*+,-./", '!', c);
  }

  lemma InFour(s1: string, s2: string, s3: string, s4: string, c: char)
    ensures c in s1 + s2 + s3 + s4 <==> c in s1 || c in s2 || c in s3 || c in s4
  {
  }

  /** Each class letter has its characters. */
  lemma ClassHas(c: char)
    ensures InClass(c, 'a') <==> c in SMALL || c in CAPITAL
    ensures InClass(c, 'c') <==> (c as int) < 32 || (c as int) == 127
    ensures InClass(c, 'd') <==> c in DIGITS
    ensures InClass(c, 'l') <==> c in SMALL
    ensures InClass(c, 'p') <==> c in PUNCTUATION
    ensures InClass(c, 's') <==> c in SPACES
    ensures InClass(c, 'u') <==> c in CAPITAL
    ensures InClass(c, 'w') <==> c in SMALL || c in CAPITAL || c in DIGITS
    ensures InClass(c, 'x') <==> c in HEXADECIMAL
    ensures InClass(c, 'z') <==> (c as int) == 0
  {
    hide IsPunct, IsHex, IsSpace, SMALL, CAPITAL, DIGITS, HEXADECIMAL, SPACES, PUNCTUATION;
    SmallAre(c);
    CapitalAre(c);
    DigitsAre(c);
    HexadecimalAre(c);
    SpacesAre(c);
    PunctuationAre(c);
  }

  /** The capital letter names the complement. */
  lemma CapitalIsComplement(c: char)
    ensures InClass(c, 'A') <==> !InClass(c, 'a')
    ensures InClass(c, 'C') <==> !InClass(c, 'c')
    ensures InClass(c, 'D') <==> !InClass(c, 'd')
    ensures InClass(c, 'L') <==> !InClass(c, 'l')
    ensures InClass(c, 'P') <==> !InClass(c, 'p')
    ensures InClass(c, 'S') <==> !InClass(c, 's')
    ensures InClass(c, 'U') <==> !InClass(c, 'u')
    ensures InClass(c, 'W') <==> !InClass(c, 'w')
    ensures InClass(c, 'X') <==> !InClass(c, 'x')
    ensures InClass(c, 'Z') <==> !InClass(c, 'z')
  {
    hide IsPunct, IsHex, IsSpace, IsControl, IsAlpha, IsDigit;
  }

  /** Behind `%`, any other character stands for itself only. */
  lemma OthersAreThemselves(c: char, cl: char)
    requires cl !in CLASS_LETTERS
    ensures InClass(c, cl) <==> c == cl
  {
    hide IsPunct, IsHex, IsSpace, IsControl, IsAlpha, IsDigit;
    forall i | 0 <= i < |CLASS_LETTERS|
      ensures CLASS_LETTERS[i] != cl
    {
    }
    assert CLASS_LETTERS[..10] == "acdlpsuwxz" && CLASS_LETTERS[10..] == "ACDLPSUWXZ";
    assert cl != CLASS_LETTERS[0] && cl != CLASS_LETTERS[1] && cl != CLASS_LETTERS[2] && cl != CLASS_LETTERS[3] && cl != CLASS_LETTERS[4];
    assert cl != CLASS_LETTERS[5] && cl != CLASS_LETTERS[6] && cl != CLASS_LETTERS[7] && cl != CLASS_LETTERS[8] && cl != CLASS_LETTERS[9];
    assert cl != CLASS_LETTERS[10] && cl != CLASS_LETTERS[11] && cl != CLASS_LETTERS[12] && cl != CLASS_LETTERS[13] && cl != CLASS_LETTERS[14];
    assert cl != CLASS_LETTERS[15] && cl != CLASS_LETTERS[16] && cl != CLASS_LETTERS[17] && cl != CLASS_LETTERS[18] && cl != CLASS_LETTERS[19];
  }

  // ------------------------------------------------------------- the text of a set

  /** How a member of a set is written. */
  function Spelling(m: Member): string {
    match m
    case Class(cl) => [ESC, cl]
    case Range(lo, hi) => [lo, '-', hi]
    case One(c) => [c]
  }

  function Text(ms: seq<Member>): string {
    if ms == [] then [] else Spelling(ms[0]) + Text(ms[1..])
  }

  /** Written like this, the members are told apart: `%` always begins a class, and a hyphen behind a
      character begins a range unless it is the last of the set. */
  predicate ToldApart(ms: seq<Member>) {
    ms != [] ==>
      && ToldApart(ms[1..])
      && match ms[0]
         case Class(_) => true
         case Range(lo, _) => lo != ESC
         case One(c) => c != ESC && !(|Text(ms[1..])| >= 2 && Text(ms[1..])[0] == '-')
  }

  lemma TextCons(m: Member, ms: seq<Member>)
    ensures Text([m] + ms) == Spelling(m) + Text(ms)
    ensures ToldApart([m] + ms) <==>
              (ToldApart(ms) && match m
                                case Class(_) => true
                                case Range(lo, _) => lo != ESC
                                case One(c) => c != ESC && !(|Text(ms)| >= 2 && Text(ms)[0] == '-'))
  {
    assert ([m] + ms)[1..] == ms;
  }

  lemma MembersStep(pat: string, q: nat, ec: nat)
    requires q < ec <= |pat|
    ensures pat[q] == ESC ==> Members(pat, q, ec) == [Class(At(pat, q + 1))] + Members(pat, q + 2, ec)
    ensures pat[q] != ESC && At(pat, q + 1) == '-' && q + 2 < ec ==> Members(pat, q, ec) == [Range(pat[q], pat[q + 2])] + Members(pat, q + 3, ec)
    ensures pat[q] != ESC && !(At(pat, q + 1) == '-' && q + 2 < ec) ==> Members(pat, q, ec) == [One(pat[q])] + Members(pat, q + 1, ec)
  {
  }

  /** The text of members that are told apart is read as these members. */
  lemma {:induction false} TextIsRead(pat: string, q: nat, ec: nat, ms: seq<Member>)
    requires q <= ec <= |pat| && pat[q..ec] == Text(ms) && ToldApart(ms)
    ensures Members(pat, q, ec) == ms
    decreases |ms|
  {
    hide Members, ToldApart;
    if ms != [] {
      var m, rest := ms[0], ms[1..];
      assert ms == [m] + rest;
      TextCons(m, rest);
      TextSplit(pat, q, ec, Spelling(m), Text(rest));
      TextIsRead(pat, q + |Spelling(m)|, ec, rest);
      MembersStep(pat, q, ec);
    } else {
      NoMembers(pat, q, ec);
    }
  }

  lemma TextSplit(pat: string, q: nat, ec: nat, a: string, b: string)
    requires q <= ec <= |pat| && pat[q..ec] == a + b
    ensures q + |a| <= ec && pat[q + |a|..ec] == b
    ensures forall i :: 0 <= i < |a| ==> pat[q + i] == a[i]
    ensures |b| > 0 ==> pat[q + |a|] == b[0]
  {
    assert forall i :: 0 <= i < |a| ==> pat[q + i] == pat[q..ec][i];
    assert pat[q + |a|..ec] == pat[q..ec][|a|..];
  }

  /** And whatever is read is members that are told apart, written like the text. An escape in front of
      the end takes the character at the end with it. */
  lemma {:induction false} ReadIsText(pat: string, q: nat, ec: nat)
    requires q <= ec < |pat|
    ensures var ms := Members(pat, q, ec);
            ToldApart(ms) && (Text(ms) == pat[q..ec] || (q < ec && pat[ec - 1] == ESC && Text(ms) == pat[q..ec + 1]))
    decreases ec - q
  {
    if q < ec {
      hide Members;
      MembersStep(pat, q, ec);
      if pat[q] == ESC {
        if q + 2 <= ec {
          ReadIsText(pat, q + 2, ec);
          TextCons(Class(pat[q + 1]), Members(pat, q + 2, ec));
          Joined(pat, q, q + 2, ec);
        } else {
          NoMembers(pat, q + 2, ec);
          TextCons(Class(pat[q + 1]), []);
          assert pat[q..ec + 1] == [ESC, pat[q + 1]];
        }
      } else if At(pat, q + 1) == '-' && q + 2 < ec {
        ReadIsText(pat, q + 3, ec);
        TextCons(Range(pat[q], pat[q + 2]), Members(pat, q + 3, ec));
        Joined(pat, q, q + 3, ec);
      } else {
        ReadIsText(pat, q + 1, ec);
        TextCons(One(pat[q]), Members(pat, q + 1, ec));
        Joined(pat, q, q + 1, ec);
      }
    } else {
      assert pat[q..ec] == [];
    }
  }

  lemma Joined(pat: string, q: nat, q2: nat, ec: nat)
    requires q <= q2 <= ec < |pat|
    ensures pat[q..q2] + pat[q2..ec] == pat[q..ec] && pat[q..q2] + pat[q2..ec + 1] == pat[q..ec + 1]
    ensures q2 == q + 1 ==> pat[q..q2] == [pat[q]]
    ensures q2 == q + 2 ==> pat[q..q2] == [pat[q], pat[q + 1]]
    ensures q2 == q + 3 ==> pat[q..q2] == [pat[q], pat[q + 1], pat[q + 2]]
  {
  }

  lemma NoMembers(pat: string, q: nat, ec: nat)
    requires q >= ec
    ensures Members(pat, q, ec) == []
  {
  }

  lemma NoDecode(pat: string, p: nat)
    requires p >= |pat|
    ensures Decode(pat, p) == []
  {
  }

  /** A pattern that is one set. */
  lemma OneSet(pat: string, ms: seq<Member>, negated: bool)
    requires pat != [] && pat[0] == '[' && ClassEnd(pat, 0) == Next(|pat|) && negated == (At(pat, 1) == '^')
    requires Members(pat, if negated then 2 else 1, |pat| - 1) == ms
    ensures Decode(pat, 0) == [Chars(Bracket(negated, ms), Once)]
  {
    hide Members, ClassEnd;
    NoDecode(pat, |pat|);
    assert DecodeRep(pat, ClsAt(pat, 0, |pat|), |pat|) == [Chars(ClsAt(pat, 0, |pat|), Once)];
  }

  /** The pattern `[lo-hi]` matches exactly one character from `lo` to `hi`. */
  lemma RangePattern(lo: char, hi: char, c: char)
    requires lo !in "%^]" && lo != ZERO && hi !in "%]" && hi != ZERO
    ensures var items := Decode(['[', lo, '-', hi, ']'], 0);
            |items| == 1 && items[0].Chars? && items[0].rep == Once && (In(c, items[0].x) <==> lo <= c <= hi)
  {
    var pat := ['[', lo, '-', hi, ']'];
    assert lo != ESC && lo != '^' && lo != ']' && hi != ESC && hi != ']' by {
      assert "%^]"[0] == ESC && "%^]"[1] == '^' && "%^]"[2] == ']' && "%]"[0] == ESC && "%]"[1] == ']';
    }
    assert BracketEnd(pat, 3) == Next(5);
    assert BracketEnd(pat, 2) == BracketEnd(pat, 3) && BracketEnd(pat, 1) == BracketEnd(pat, 2);
    NoMembers(pat, 4, 4);
    assert Members(pat, 1, 4) == [Range(lo, hi)];
    OneSet(pat, [Range(lo, hi)], false);
    RangeMembers(lo, hi, c, false);
  }

  /** And `[^lo-hi]` any other. */
  lemma NotRangePattern(lo: char, hi: char, c: char)
    requires lo !in "%]" && lo != ZERO && hi !in "%]" && hi != ZERO
    ensures var items := Decode(['[', '^', lo, '-', hi, ']'], 0);
            |items| == 1 && items[0].Chars? && items[0].rep == Once && (In(c, items[0].x) <==> !(lo <= c <= hi))
  {
    var pat := ['[', '^', lo, '-', hi, ']'];
    assert lo != ESC && lo != ']' && hi != ESC && hi != ']' by {
      assert "%]"[0] == ESC && "%]"[1] == ']';
    }
    assert BracketEnd(pat, 4) == Next(6);
    assert BracketEnd(pat, 3) == BracketEnd(pat, 4) && BracketEnd(pat, 2) == BracketEnd(pat, 3);
    NoMembers(pat, 5, 5);
    assert Members(pat, 2, 5) == [Range(lo, hi)];
    OneSet(pat, [Range(lo, hi)], true);
    RangeMembers(lo, hi, c, true);
  }

  lemma RangeMembers(lo: char, hi: char, c: char, negated: bool)
    ensures In(c, Bracket(negated, [Range(lo, hi)])) <==> (lo <= c <= hi) != negated
  {
    var ms := [Range(lo, hi)];
    if lo <= c <= hi {
      assert InMember(c, ms[0]);
    }
  }
}
