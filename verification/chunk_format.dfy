/**
 The layout of a precompiled chunk, byte by byte: what its header says, where the fields of a function
 are, and how a constant is told from another.
 */
module ChunkFormat {
  import opened Chunks
  import opened ChunkRoundTrip

  /** A chunk begins with `ESC Lua`, the version 5.1, the official format, the byte order, and the sizes
      of an `int`, a `size_t`, an instruction and a number, which is not an integer. */
  lemma HeaderBytes(f: Proto, strip: bool)
    ensures var z := Dump(f, strip);
            && |z| > 12
            && z[0] == 27 && z[1] as char == 'L' && z[2] as char == 'u' && z[3] as char == 'a'
            && z[4] == 5 * 16 + 1 && z[5] == 0 && z[6] == 1
            && z[7] == 4 && z[8] == 4 && z[9] == 4 && z[10] == 8 && z[11] == 0
            && z[12..] == DumpFunction(f, NoName, strip)
  {
    hide DumpFunction;
    HeadFields(f, NoName, strip);
  }

  /** The source of a function whose own is not in the chunk is `=?`. */
  lemma UnknownSource(check: Proto -> bool, f: Proto, rest: Bytes)
    requires Fits(f) && Accepted(check, Stripped(f, UNKNOWN))
    ensures var r := Undump(check, Dump(f, true) + rest);
            r.Got? && r.v.source.Named? && |r.v.source.s| == 2 && r.v.source.s[0] as char == '=' && r.v.source.s[1] as char == '?'
  {
    hide Dump, Undump;
    StrippedBack(check, f, rest);
  }

  /** The size in bytes of a name: four for its size, and its characters with a zero behind. */
  function SizeOfName(n: Name): nat {
    if n.NoName? then 4 else 4 + |n.s| + 1
  }

  /** Four bytes from place `i` on, the least significant one first. */
  function WordAt(z: Bytes, i: nat): int
    requires i + 4 <= |z|
  {
    z[i] as int + 256 * (z[i + 1] as int + 256 * (z[i + 2] as int + 256 * (z[i + 3] as int)))
  }

  lemma WordIs(z: Bytes, i: nat, x: int)
    requires i + 4 <= |z| && z[i..i + 4] == Word(x)
    ensures WordAt(z, i) == x % WORD
  {
    WordRoundTrip(x);
    var b := z[i..i + 4];
    assert b[0] == z[i] && b[1] == z[i + 1] && b[2] == z[i + 2] && b[3] == z[i + 3];
  }

  /** How a name is written. */
  lemma NameBytes(n: Name)
    ensures var z := DumpString(n);
            && |z| == SizeOfName(n)
            && WordAt(z, 0) == (if n.NoName? then 0 else (|n.s| + 1) % WORD)
            && (n.Named? ==> z[4..4 + |n.s|] == n.s && z[4 + |n.s|] == 0)
  {
    hide Word;
    var z := DumpString(n);
    var x := if n.NoName? then 0 else |n.s| + 1;
    assert z[0..4] == Word(x);
    WordIs(z, 0, x);
  }

  lemma {:induction false} WordsAt(s: seq<int>)
    ensures |DumpWords(s)| == 4 * |s| && forall i :: 0 <= i < |s| ==> DumpWords(s)[4 * i..4 * i + 4] == Word(s[i])
  {
    hide Word;
    if s != [] {
      WordsAt(s[1..]);
      var z, rest := DumpWords(s), DumpWords(s[1..]);
      forall i | 0 <= i < |s|
        ensures z[4 * i..4 * i + 4] == Word(s[i])
      {
        if i > 0 {
          assert s[1..][i - 1] == s[i];
          assert z[4 * i..4 * i + 4] == rest[4 * (i - 1)..4 * (i - 1) + 4];
        }
      }
    }
  }

  lemma Parts(a: Bytes, b: Bytes, c: Bytes, d: Bytes, e: Bytes, g: Bytes, rest: Bytes)
    requires |b| == 4 && |c| == 4 && |d| == 4 && |e| == 4
    ensures var z, n := a + (b + (c + (d + (e + g)))) + rest, |a|;
            && |z| >= n + 16 + |g| && z[..n] == a && z[n..n + 4] == b && z[n + 4..n + 8] == c
            && z[n + 8] == d[0] && z[n + 9] == d[1] && z[n + 10] == d[2] && z[n + 11] == d[3]
            && z[n + 12..n + 16] == e && z[n + 16..n + 16 + |g|] == g
  {
  }

  lemma Inner(z: Bytes, n: nat, g: Bytes, i: nat)
    requires i + 4 <= |g| && n + |g| <= |z| && z[n..n + |g|] == g
    ensures z[n + i..n + i + 4] == g[i..i + 4]
  {
    var a, b := z[n + i..n + i + 4], g[i..i + 4];
    forall j | 0 <= j < 4
      ensures a[j] == b[j]
    {
      assert z[n..n + |g|][i + j] == g[i + j];
    }
  }

  lemma WordsInside(z: Bytes, n: nat, s: seq<int>)
    requires |DumpWords(s)| == 4 * |s| && n + 4 * |s| <= |z| && z[n..n + 4 * |s|] == DumpWords(s)
    ensures forall i :: 0 <= i < |s| ==> WordAt(z, n + 4 * i) == s[i] % WORD
  {
    hide Word, DumpWords, WordAt;
    WordsAt(s);
    forall i | 0 <= i < |s|
      ensures WordAt(z, n + 4 * i) == s[i] % WORD
    {
      Inner(z, n, DumpWords(s), 4 * i);
      WordIs(z, n + 4 * i, s[i]);
    }
  }

  /** The fields of a function: its source, its lines, four bytes, and its code. A source that is known
      already, or stripped, is no name. */
  lemma HeadFields(f: Proto, parent: Name, strip: bool)
    ensures var z := DumpFunction(f, parent, strip);
            var n := SizeOfName(if strip || f.source == parent then NoName else f.source);
            && |z| >= n + 16 + 4 * |f.code|
            && z[..n] == DumpString(if strip || f.source == parent then NoName else f.source)
            && WordAt(z, n) == f.linedefined % WORD && WordAt(z, n + 4) == f.lastlinedefined % WORD
            && z[n + 8] == f.nups && z[n + 9] == f.numparams && z[n + 10] == f.isVararg && z[n + 11] == f.maxstack
            && WordAt(z, n + 12) == |f.code| % WORD
            && forall i :: 0 <= i < |f.code| ==> WordAt(z, n + 16 + 4 * i) == f.code[i] % WORD
  {
    hide Word, DumpString, DumpWords, WordAt, DumpConsts, DumpProtos, DumpDebug;
    var z := DumpFunction(f, parent, strip);
    var name := if strip || f.source == parent then NoName else f.source;
    var rest := Word(|f.k|) + DumpConsts(f.k) + (Word(|f.p|) + DumpProtos(f, 0, strip) + DumpDebug(f, strip));
    var four: Bytes, words := [f.nups, f.numparams, f.isVararg, f.maxstack], DumpWords(f.code);
    NameBytes(name);
    WordsAt(f.code);
    Parts(DumpString(name), Word(f.linedefined), Word(f.lastlinedefined), four, Word(|f.code|), words, rest);
    assert z == DumpString(name) + (Word(f.linedefined) + (Word(f.lastlinedefined) + (four + (Word(|f.code|) + words)))) + rest;
    var n := SizeOfName(name);
    WordIs(z, n, f.linedefined);
    WordIs(z, n + 4, f.lastlinedefined);
    WordIs(z, n + 12, |f.code|);
    WordsInside(z, n + 16, f.code);
  }

  /** A constant begins with the number of its type: nil 0, boolean 1, number 3, string 4. */
  lemma ConstBytes(c: Const)
    ensures var z := DumpConst(c);
            && |z| > 0
            && match c
               case KNil => z == [0]
               case KBool(b) => z == [1, b]
               case KNum(n) => z[0] == 3 && z[1..] == n
               case KStr(s) => z[0] == 4 && |z| == 6 + |s| && WordAt(z, 1) == (|s| + 1) % WORD && z[5..5 + |s|] == s && z[5 + |s|] == 0
  {
    if c.KStr? {
      hide DumpString;
      var d := DumpString(Named(c.s));
      NameBytes(Named(c.s));
      assert DumpConst(c) == [4] + d;
    }
  }
}
