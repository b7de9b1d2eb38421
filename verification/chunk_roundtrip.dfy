/**
 Reading undoes writing: chunks give back the prototype they were made from.
 */
module ChunkRoundTrip {
  import opened Chunks

  // ------------------------------------------------------------- fields

  lemma BlockBack(b: Bytes, rest: Bytes)
    ensures LoadBlock(b + rest, |b|) == Got(b, rest)
  {
  }

  lemma WordBack(x: int, rest: Bytes)
    requires 0 <= x < WORD
    ensures LoadWord(Word(x) + rest) == Got(x, rest)
  {
    hide FromWord, Word;
    BlockBack(Word(x), rest);
    WordRoundTrip(x);
  }

  lemma IntBack(x: int, rest: Bytes)
    requires Nat31(x)
    ensures LoadInt(Word(x) + rest) == Got(x, rest)
  {
    hide LoadWord, Word;
    WordBack(x, rest);
  }

  lemma StringBack(n: Name, rest: Bytes)
    requires NameFits(n)
    ensures LoadString(DumpString(n) + rest) == Got(n, rest)
  {
    hide LoadWord, Word;
    match n {
      case NoName =>
        WordBack(0, rest);
      case Named(s) =>
        assert DumpString(n) + rest == Word(|s| + 1) + (s + [0] + rest);
        WordBack(|s| + 1, s + [0] + rest);
        BlockBack(s + [0], rest);
        assert (s + [0])[..|s|] == s;
    }
  }

  lemma {:induction false} WordsBack(s: seq<int>, signed: bool, rest: Bytes)
    requires forall i :: 0 <= i < |s| ==> if signed then -WORD / 2 <= s[i] < WORD / 2 else 0 <= s[i] < WORD
    ensures LoadWords(DumpWords(s) + rest, |s|, signed) == Got(s, rest)
    decreases |s|
  {
    hide LoadWord, Word;
    if s == [] {
      assert DumpWords(s) + rest == rest;
    } else {
      assert DumpWords(s) + rest == Word(s[0]) + (DumpWords(s[1..]) + rest);
      SignedBack(s[0], signed, DumpWords(s[1..]) + rest);
      WordsBack(s[1..], signed, rest);
      assert s == [s[0]] + s[1..];
    }
  }

  lemma SignedBack(x: int, signed: bool, rest: Bytes)
    requires if signed then -WORD / 2 <= x < WORD / 2 else 0 <= x < WORD
    ensures var r := LoadWord(Word(x) + rest); r.Got? && r.rest == rest && (if signed then Signed(r.v) else r.v) == x
  {
    hide FromWord, Word;
    BlockBack(Word(x), rest);
    WordRoundTrip(x);
  }

  lemma ConstBack(c: Const, rest: Bytes)
    requires ConstFits(c)
    ensures LoadConst(DumpConst(c) + rest) == Got(c, rest)
  {
    hide LoadString, DumpString;
    var z := DumpConst(c) + rest;
    match c {
      case KNil =>
        assert z[1..] == rest;
      case KBool(b) =>
        assert z[1..] == [b] + rest;
        assert z[1..][1..] == rest;
      case KNum(n) =>
        assert z[1..] == n + rest;
        BlockBack(n, rest);
      case KStr(s) =>
        assert z[1..] == DumpString(Named(s)) + rest;
        StringBack(Named(s), rest);
    }
  }

  lemma {:induction false} ConstsBack(s: seq<Const>, rest: Bytes)
    requires forall i :: 0 <= i < |s| ==> ConstFits(s[i])
    ensures LoadConsts(DumpConsts(s) + rest, |s|) == Got(s, rest)
    decreases |s|
  {
    hide LoadConst, DumpConst;
    if s == [] {
      assert DumpConsts(s) + rest == rest;
    } else {
      assert DumpConsts(s) + rest == DumpConst(s[0]) + (DumpConsts(s[1..]) + rest);
      ConstBack(s[0], DumpConsts(s[1..]) + rest);
      ConstsBack(s[1..], rest);
      assert s == [s[0]] + s[1..];
    }
  }

  lemma LocVarBack(v: LocVar, rest: Bytes)
    requires NameFits(v.name) && Nat31(v.startpc) && Nat31(v.endpc)
    ensures LoadLocVar(DumpString(v.name) + Word(v.startpc) + Word(v.endpc) + rest) == Got(v, rest)
  {
    hide LoadString, DumpString, LoadInt, Word;
    assert DumpString(v.name) + Word(v.startpc) + Word(v.endpc) + rest == DumpString(v.name) + (Word(v.startpc) + (Word(v.endpc) + rest));
    StringBack(v.name, Word(v.startpc) + (Word(v.endpc) + rest));
    IntBack(v.startpc, Word(v.endpc) + rest);
    IntBack(v.endpc, rest);
  }

  lemma {:induction false} LocVarsBack(s: seq<LocVar>, rest: Bytes)
    requires forall i :: 0 <= i < |s| ==> NameFits(s[i].name) && Nat31(s[i].startpc) && Nat31(s[i].endpc)
    ensures LoadLocVars(DumpLocVars(s) + rest, |s|) == Got(s, rest)
    decreases |s|
  {
    hide LoadLocVar, DumpString, Word;
    if s == [] {
      assert DumpLocVars(s) + rest == rest;
    } else {
      assert DumpLocVars(s) + rest == DumpString(s[0].name) + Word(s[0].startpc) + Word(s[0].endpc) + (DumpLocVars(s[1..]) + rest);
      LocVarBack(s[0], DumpLocVars(s[1..]) + rest);
      LocVarsBack(s[1..], rest);
      assert s == [s[0]] + s[1..];
    }
  }

  lemma {:induction false} NamesBack(s: seq<Name>, rest: Bytes)
    requires forall i :: 0 <= i < |s| ==> NameFits(s[i])
    ensures LoadNames(DumpNames(s) + rest, |s|) == Got(s, rest)
    decreases |s|
  {
    hide LoadString, DumpString;
    if s == [] {
      assert DumpNames(s) + rest == rest;
    } else {
      assert DumpNames(s) + rest == DumpString(s[0]) + (DumpNames(s[1..]) + rest);
      StringBack(s[0], DumpNames(s[1..]) + rest);
      NamesBack(s[1..], rest);
      assert s == [s[0]] + s[1..];
    }
  }

  // ------------------------------------------------------------- functions

  lemma DebugBack(f: Proto, g: Proto, strip: bool, rest: Bytes)
    requires Fits(f)
    ensures LoadDebug(DumpDebug(f, strip) + rest, g) ==
              Got(g.(lineinfo := Kept(f.lineinfo, strip), locvars := Kept(f.locvars, strip), upvalues := Kept(f.upvalues, strip)), rest)
  {
    hide LoadInt, Word, LoadWords, LoadLocVars, LoadNames, DumpWords, DumpLocVars, DumpNames;
    var l, v, u := Kept(f.lineinfo, strip), Kept(f.locvars, strip), Kept(f.upvalues, strip);
    var z5 := DumpNames(u) + rest;
    var z4 := Word(|u|) + z5;
    var z3 := DumpLocVars(v) + z4;
    var z2 := Word(|v|) + z3;
    var z1 := DumpWords(l) + z2;
    assert DumpDebug(f, strip) + rest == Word(|l|) + z1;
    IntBack(|l|, z1);
    WordsBack(l, true, z2);
    IntBack(|v|, z3);
    LocVarsBack(v, z4);
    IntBack(|u|, z5);
    NamesBack(u, rest);
  }

  /** The name that the loader gives the function. */
  function SourceBack(f: Proto, parent: Name, known: Name, strip: bool): Name {
    if f.source == parent || strip then known else f.source
  }

  lemma HeadBack(f: Proto, parent: Name, known: Name, strip: bool, rest: Bytes)
    requires Fits(f)
    ensures LoadHead(DumpHead(f, parent, strip) + rest, known) ==
              Got(Proto(SourceBack(f, parent, known, strip), f.linedefined, f.lastlinedefined, f.nups, f.numparams, f.isVararg, f.maxstack,
                        f.code, [], [], [], [], []), rest)
  {
    hide LoadInt, Word, LoadWords, LoadString, DumpWords, DumpString, LoadBlock;
    var b := [f.nups, f.numparams, f.isVararg, f.maxstack];
    var n := if f.source == parent || strip then NoName else f.source;
    var z5 := DumpWords(f.code) + rest;
    var z4 := Word(|f.code|) + z5;
    var z3 := b + z4;
    var z2 := Word(f.lastlinedefined) + z3;
    var z1 := Word(f.linedefined) + z2;
    assert DumpHead(f, parent, strip) + rest == DumpString(n) + z1;
    StringBack(n, z1);
    IntBack(f.linedefined, z2);
    IntBack(f.lastlinedefined, z3);
    BlockBack(b, z4);
    IntBack(|f.code|, z5);
    WordsBack(f.code, false, rest);
  }

  /** A function comes back, and no more is read than was written. `parent` is the source of the
      enclosing function when it was written, `known` when it is read. */
  lemma {:induction false} FunctionBack(check: Proto -> bool, f: Proto, parent: Name, known: Name, strip: bool, rest: Bytes)
    requires Fits(f) && (!strip && f.source == parent ==> parent == known)
    requires Accepted(check, Restored(f, known, strip))
    ensures LoadFunction(check, DumpFunction(f, parent, strip) + rest, known) == Got(Restored(f, known, strip), rest)
    decreases f, 2, 0
  {
    hide LoadHead, DumpHead, LoadInt, Word, LoadConsts, DumpConsts, LoadDebug, DumpDebug, Stripped, StrippedAll, LoadProtos, DumpProtos;
    var z4 := DumpDebug(f, strip) + rest;
    var z3 := DumpProtos(f, 0, strip) + z4;
    var z2 := Word(|f.p|) + z3;
    var z1 := DumpConsts(f.k) + z2;
    var z0 := Word(|f.k|) + z1;
    FitsParts(f);
    assert DumpFunction(f, parent, strip) + rest == DumpHead(f, parent, strip) + z0;
    var source := SourceBack(f, parent, known, strip);
    HeadBack(f, parent, known, strip, z0);
    IntBack(|f.k|, z1);
    ConstsBack(f.k, z2);
    IntBack(|f.p|, z3);
    RestoredParts(check, f, known, strip);
    ProtosBack(check, f, 0, source, strip, z4);
    var g := Proto(source, f.linedefined, f.lastlinedefined, f.nups, f.numparams, f.isVararg, f.maxstack,
                   f.code, f.k, RestoredAll(f, 0, source, strip), [], [], []);
    DebugBack(f, g, strip, rest);
  }

  lemma FitsParts(f: Proto)
    requires Fits(f)
    ensures Nat31(|f.k|) && Nat31(|f.p|) && forall i :: 0 <= i < |f.k| ==> ConstFits(f.k[i])
  {
  }

  lemma RestoredParts(check: Proto -> bool, f: Proto, source: Name, strip: bool)
    requires Accepted(check, Restored(f, source, strip))
    ensures check(Restored(f, source, strip))
    ensures Restored(f, source, strip).p == RestoredAll(f, 0, source, strip)
    ensures forall i :: 0 <= i < |RestoredAll(f, 0, source, strip)| ==> Accepted(check, RestoredAll(f, 0, source, strip)[i])
    ensures strip ==> Restored(f, source, strip) == f.(source := source, lineinfo := [], locvars := [], upvalues := [], p := StrippedAll(f, 0, source))
  {
    assert f.p[0..] == f.p;
  }

  lemma {:induction false} ProtosBack(check: Proto -> bool, f: Proto, i: nat, source: Name, strip: bool, rest: Bytes)
    requires Fits(f) && i <= |f.p| && (!strip ==> source == f.source)
    requires forall j :: 0 <= j < |RestoredAll(f, i, source, strip)| ==> Accepted(check, RestoredAll(f, i, source, strip)[j])
    ensures LoadProtos(check, DumpProtos(f, i, strip) + rest, |f.p| - i, source) == Got(RestoredAll(f, i, source, strip), rest)
    decreases f, 1, |f.p| - i
  {
    hide LoadFunction, DumpFunction, Stripped;
    if i == |f.p| {
      assert DumpProtos(f, i, strip) + rest == rest;
    } else {
      assert DumpProtos(f, i, strip) + rest == DumpFunction(f.p[i], f.source, strip) + (DumpProtos(f, i + 1, strip) + rest);
      var s, s1 := RestoredAll(f, i, source, strip), RestoredAll(f, i + 1, source, strip);
      assert s == [Restored(f.p[i], source, strip)] + s1;
      assert s[0] == Restored(f.p[i], source, strip);
      forall j | 0 <= j < |s1|
        ensures Accepted(check, s1[j])
      {
        assert s1[j] == s[j + 1];
      }
      FunctionBack(check, f.p[i], f.source, source, strip, DumpProtos(f, i + 1, strip) + rest);
      ProtosBack(check, f, i + 1, source, strip, rest);
    }
  }

  // ------------------------------------------------------------- chunks

  /** `luaU_header`: the signature, the version, and the sizes of the types. */
  const HEADER: Bytes := [27, 76, 117, 97, 0x51, 0, 1, 4, 4, 4, 8, 0]

  /** `"=?"`, the source of a main function whose own has been stripped */
  const UNKNOWN := Named([61, 63])

  /** `luaU_dump` */
  function Dump(f: Proto, strip: bool): Bytes {
    HEADER + DumpFunction(f, NoName, strip)
  }

  /** `luaU_undump` */
  function Undump(check: Proto -> bool, z: Bytes): Loaded<Proto> {
    match LoadBlock(z, |HEADER|)
    case Bad(e) => Bad(e)
    case Got(b, rest) => if b != HEADER then Bad(BadHeader) else LoadFunction(check, rest, UNKNOWN)
  }

  /** A dumped prototype loads as itself, with nothing left over and nothing of what follows read. */
  lemma UndumpUndoesDump(check: Proto -> bool, f: Proto, rest: Bytes)
    requires Fits(f) && Accepted(check, f)
    ensures Undump(check, Dump(f, false) + rest) == Got(f, rest)
  {
    hide DumpFunction, LoadFunction;
    assert f.source != NoName;
    assert Dump(f, false) + rest == HEADER + (DumpFunction(f, NoName, false) + rest);
    BlockBack(HEADER, DumpFunction(f, NoName, false) + rest);
    FunctionBack(check, f, NoName, UNKNOWN, false, rest);
  }

  /** A stripped one loads without debug information, and with an unknown source, if the checker takes
      it in that form. */
  lemma StrippedBack(check: Proto -> bool, f: Proto, rest: Bytes)
    requires Fits(f) && Accepted(check, Stripped(f, UNKNOWN))
    ensures Undump(check, Dump(f, true) + rest) == Got(Stripped(f, UNKNOWN), rest)
  {
    hide DumpFunction, LoadFunction, Stripped;
    assert Dump(f, true) + rest == HEADER + (DumpFunction(f, NoName, true) + rest);
    BlockBack(HEADER, DumpFunction(f, NoName, true) + rest);
    FunctionBack(check, f, NoName, UNKNOWN, true, rest);
  }
}
