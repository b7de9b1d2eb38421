/**
 The string part of the lexer as it is written: a current character, a token buffer and a line
 number that are changed as the input is consumed.
 */
module QuotedLexer {
  import opened Quoted
  import opened QuotedEscapes

  class LexState {
    const z: string
    var pos: nat
    var buff: string
    var linenumber: nat

    ghost predicate Valid()
      reads this
    {
      pos <= |z|
    }

    constructor (z: string)
      ensures Valid() && this.z == z && pos == 0 && buff == [] && linenumber == 1
    {
      this.z, pos, buff, linenumber := z, 0, [], 1;
    }

    /** Is there a current character, and is it `c`? Behind the end there is none. */
    predicate Is(c: char)
      requires Valid()
      reads this
    {
      pos < |z| && z[pos] == c
    }

    /** `save_and_next` */
    method SaveAndNext()
      requires Valid() && pos < |z|
      modifies `buff, `pos
      ensures pos == old(pos) + 1 && buff == old(buff) + [z[old(pos)]]
    {
      buff := buff + [z[pos]];
      pos := pos + 1;
    }

    /** `inclinenumber` */
    method IncLineNumber()
      requires Valid() && pos < |z| && IsNewline(z[pos])
      modifies `pos, `linenumber
      ensures Valid() && z[pos..] == SkipNewline(z[old(pos)..]) && linenumber == old(linenumber) + 1 && pos > old(pos)
    {
      var was := z[pos];
      pos := pos + 1;
      if pos < |z| && IsNewline(z[pos]) && z[pos] != was {
        pos := pos + 1;
      }
      linenumber := linenumber + 1;
    }

    /** The digits of `\ddd` */
    method ReadDigits() returns (c: nat)
      requires Valid() && pos < |z| && IsDigit(z[pos])
      modifies `pos
      ensures var n := Digits(z[old(pos)..], 3); pos == old(pos) + n && n > 0 && pos <= |z| && c == Value(z[old(pos)..pos], 0)
    {
      var i := 0;
      c := 0;
      while i < 3 && pos < |z| && IsDigit(z[pos])
        invariant 0 <= i <= 3 && pos == old(pos) + i <= |z| && c == Value(z[old(pos)..pos], 0)
        invariant Digits(z[old(pos)..], 3) == i + Digits(z[pos..], 3 - i)
      {
        ValueSnoc(z[old(pos)..pos], z[pos], 0);
        assert z[old(pos)..pos] + [z[pos]] == z[old(pos)..pos + 1];
        assert z[pos..][1..] == z[pos + 1..];
        c := 10 * c + (z[pos] as int - '0' as int);
        pos := pos + 1;
        i := i + 1;
      }
    }

    /** An escape sequence, behind its backslash: what it stands for goes into the buffer. */
    method ReadEscape(ghost del: char) returns (ok: bool)
      requires Valid() && pos > 0 && z[pos - 1] == BACKSLASH != del && buff != [] && pos < |z|
      modifies this
      ensures Valid() && pos >= old(pos) && (ok ==> buff != [] && linenumber >= old(linenumber) && pos > old(pos))
      ensures !ok ==> Read(z[old(pos) - 1..], del) == Failed(TooLarge)
      ensures ok ==> (exists t :: buff == old(buff) + t && Escaped(z[old(pos) - 1..], z[pos..], del, t, linenumber - old(linenumber)))
    {
      hide Read, Value, Digits, Letter, Saved;
      ghost var rest := z[pos - 1..];
      ReadCases(rest, del);
      assert rest[1..] == z[pos..] && rest[2..] == z[pos + 1..] && rest[1] == z[pos];
      ok := true;
      var letter := Letter(z[pos]);
      if letter != [] {
        buff := buff + letter;
        pos := pos + 1;
      } else if IsNewline(z[pos]) {
        buff := buff + [NEWLINE];
        IncLineNumber();
      } else if !IsDigit(z[pos]) {
        SaveAndNext();
      } else {
        ghost var from := pos;
        var c := ReadDigits();
        assert rest[1..1 + (pos - from)] == z[from..pos] && rest[1 + (pos - from)..] == z[pos..];
        if c > 255 {
          return false;
        }
        buff := buff + [c as char];
      }
    }

    /** `read_string`: the token buffer keeps the delimiters, the value of the token is what is between. */
    method ReadString(del: char) returns (failed: bool, error: LexError, s: string)
      requires Valid() && Is(del) && (del == '"' || del == '\'')
      modifies this
      ensures Valid()
      ensures match Quoted.ReadString(z[old(pos)..])
              case Failed(e) => failed && error == e
              case Str(t, rest, n) => !failed && s == t && z[pos..] == rest && linenumber == old(linenumber) + n
      ensures !failed ==> linenumber >= old(linenumber) && Spells(z[old(pos)..][1..], del, s, linenumber - old(linenumber), [del] + z[pos..])
    {
      hide Read, IsNewline, Saved, Value, Digits, Letter, SkipNewline, Spells;
      failed, error, s := false, Unfinished, [];
      assert z[pos..][1..] == z[pos + 1..];
      buff := [];
      SaveAndNext();
      ghost var goal, line := Read(z[pos..], del), linenumber;
      SavedNothing(goal);
      assert buff[1..] == [];
      while !Is(del)
        invariant Valid() && buff != [] && linenumber >= line && goal == Saved(buff[1..], linenumber - line, Read(z[pos..], del))
        decreases |z| - pos
      {
        ReadCases(z[pos..], del);
        SavedFailed(buff[1..], linenumber - line, Unfinished);
        if pos == |z| || IsNewline(z[pos]) {
          return true, Unfinished, [];
        }
        ghost var was, n, from := buff, linenumber - line, pos;
        assert z[pos..][1..] == z[pos + 1..];
        if z[pos] != BACKSLASH {
          SaveAndNext();
          SavedAgain(was, buff, [z[from]], n, 0, Read(z[pos..], del));
          continue;
        }
        pos := pos + 1;
        if pos == |z| {
          assert z[from..] == [BACKSLASH];
          return true, Unfinished, [];
        }
        var ok := ReadEscape(del);
        if !ok {
          SavedFailed(was[1..], n, TooLarge);
          return true, TooLarge, [];
        }
        ghost var t :| buff == was + t && Escaped(z[from..], z[pos..], del, t, linenumber - line - n);
        SavedAgain(was, buff, t, n, linenumber - line - n, Read(z[pos..], del));
      }
      ReadCases(z[pos..], del);
      assert z[pos..][1..] == z[pos + 1..];
      SavedEnd(buff[1..], linenumber - line, z[pos + 1..]);
      SaveAndNext();
      s := buff[1..|buff| - 1];
      LiteralIff(z[old(pos)..], s, linenumber - line, z[pos..]);
    }
  }

  /** The escape sequence at `z`, with `rest` behind it, stands for `t` and passes `n` lines. */
  ghost predicate Escaped(z: string, rest: string, del: char, t: string, n: nat) {
    Read(z, del) == Saved(t, n, Read(rest, del))
  }

  lemma SavedNothing(r: Lexed)
    ensures Saved([], 0, r) == r
  {
    if r.Str? {
      assert [] + r.s == r.s;
    }
  }

  lemma SavedFailed(s: string, n: nat, e: LexError)
    ensures Saved(s, n, Failed(e)) == Failed(e)
  {
  }

  lemma SavedEnd(s: string, n: nat, rest: string)
    ensures Saved(s, n, Str([], rest, 0)) == Str(s, rest, n)
  {
  }

  lemma SavedAgain(was: string, buff: string, t: string, n: nat, m: nat, r: Lexed)
    requires was != [] && buff == was + t
    ensures Saved(was[1..], n, Saved(t, m, r)) == Saved(buff[1..], n + m, r)
  {
    assert buff[1..] == was[1..] + t;
    if r.Str? {
      assert was[1..] + (t + r.s) == (was[1..] + t) + r.s;
    }
  }

  lemma {:induction false} ValueSnoc(a: string, c: char, acc: nat)
    requires c >= '0'
    ensures Value(a + [c], acc) == 10 * Value(a, acc) + (c as int - '0' as int)
    decreases |a|
  {
    if a == [] {
      assert ([c])[1..] == [];
      assert a + [c] == [c];
    } else {
      assert (a + [c])[1..] == a[1..] + [c];
      ValueSnoc(a[1..], c, 10 * acc + (if a[0] >= '0' then a[0] as int - '0' as int else 0));
    }
  }
}
