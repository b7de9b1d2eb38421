/**
 Writing and reading chunks as it is done: blocks go to a writer until one of them is refused, and
 blocks are taken from a stream until something is wrong with one of them.
 */
module ChunkStreams {
  import opened Chunks
  import C = Chunks
  import opened ChunkRoundTrip

  // ------------------------------------------------------------- writing

  /** From `was` and status `st0`, `x` has been handed to the writer: all of it while the status is 0,
      a part from its front if the writer has refused a block, nothing if it had refused one before. */
  ghost predicate Wrote(was: Bytes, st0: int, x: Bytes, out: Bytes, st: int) {
    && was <= out <= was + x
    && (st == 0 ==> st0 == 0 && out == was + x)
    && (st0 != 0 ==> st == st0 && out == was)
  }

  lemma WroteMore(was: Bytes, st0: int, x: Bytes, mid: Bytes, st1: int, y: Bytes, out: Bytes, st: int)
    requires Wrote(was, st0, x, mid, st1) && Wrote(mid, st1, y, out, st)
    ensures Wrote(was, st0, x + y, out, st)
  {
    assert (was + x) + y == was + (x + y);
    if st1 != 0 {
      assert was + (x + y) == (was + x) + y;
      assert mid <= was + x <= was + (x + y);
    }
  }

  class Dumper {
    /** The status that the writer returns for a block, which may depend on what came before. */
    const writer: (Bytes, Bytes) -> int
    const strip: bool
    var out: Bytes
    var status: int

    constructor (writer: (Bytes, Bytes) -> int, strip: bool)
      ensures this.writer == writer && this.strip == strip && out == [] && status == 0
    {
      this.writer, this.strip, out, status := writer, strip, [], 0;
    }

    method DumpBlock(b: Bytes)
      modifies `out, `status
      ensures Wrote(old(out), old(status), b, out, status)
      ensures old(status) == 0 ==> out == old(out) + b && status == writer(old(out), b)
    {
      if status == 0 {
        status := writer(out, b);
        out := out + b;
      } else {
        assert out <= out + b;
      }
    }

    method DumpChar(y: Byte)
      modifies `out, `status
      ensures Wrote(old(out), old(status), [y], out, status)
    {
      DumpBlock([y]);
    }

    method DumpInt(x: int)
      modifies `out, `status
      ensures Wrote(old(out), old(status), Word(x), out, status)
    {
      DumpBlock(Word(x));
    }

    /** A length and a block */
    method DumpVector(s: seq<int>)
      modifies `out, `status
      ensures Wrote(old(out), old(status), Word(|s|) + DumpWords(s), out, status)
    {
      hide Wrote, Word, DumpWords;
      DumpInt(|s|);
      ghost var mid, st := out, status;
      DumpBlock(DumpWords(s));
      WroteMore(old(out), old(status), Word(|s|), mid, st, DumpWords(s), out, status);
    }

    method DumpString(n: Name)
      modifies `out, `status
      ensures Wrote(old(out), old(status), C.DumpString(n), out, status)
    {
      hide Wrote, Word;
      match n {
        case NoName =>
          DumpBlock(Word(0));
        case Named(s) =>
          DumpBlock(Word(|s| + 1));
          ghost var mid, st := out, status;
          DumpBlock(s + [0]);
          WroteMore(old(out), old(status), Word(|s| + 1), mid, st, s + [0], out, status);
          assert Word(|s| + 1) + (s + [0]) == Word(|s| + 1) + s + [0];
      }
    }

    method DumpConst(o: Const)
      modifies `out, `status
      ensures Wrote(old(out), old(status), C.DumpConst(o), out, status)
    {
      hide Wrote, C.DumpString;
      match o {
        case KNil =>
          DumpChar(0);
        case KBool(b) =>
          DumpChar(1);
          ghost var mid, st := out, status;
          DumpChar(b);
          WroteMore(old(out), old(status), [1], mid, st, [b], out, status);
          assert [1] + [b] == [1, b];
        case KNum(n) =>
          DumpChar(3);
          ghost var mid, st := out, status;
          DumpBlock(n);
          WroteMore(old(out), old(status), [3], mid, st, n, out, status);
        case KStr(s) =>
          DumpChar(4);
          ghost var mid, st := out, status;
          DumpString(Named(s));
          WroteMore(old(out), old(status), [4], mid, st, C.DumpString(Named(s)), out, status);
      }
    }

    /** The constants, and then the functions inside. */
    method DumpConstants(f: Proto)
      modifies `out, `status
      ensures Wrote(old(out), old(status), Word(|f.k|) + DumpConsts(f.k) + (Word(|f.p|) + DumpProtos(f, 0, strip)), out, status)
      decreases f, 1
    {
      hide Wrote, Word, C.DumpConst, C.DumpFunction;
      DumpInt(|f.k|);
      ghost var done := Word(|f.k|);
      assert DumpConsts(f.k[..0]) == [] && done + [] == done;
      for i := 0 to |f.k|
        invariant done == Word(|f.k|) + DumpConsts(f.k[..i])
        invariant Wrote(old(out), old(status), done, out, status)
      {
        ghost var mid, st := out, status;
        DumpConst(f.k[i]);
        WroteMore(old(out), old(status), done, mid, st, C.DumpConst(f.k[i]), out, status);
        ConstsSnoc(f.k[..i], f.k[i]);
        assert f.k[..i + 1] == f.k[..i] + [f.k[i]];
        assert Word(|f.k|) + DumpConsts(f.k[..i]) + C.DumpConst(f.k[i]) == Word(|f.k|) + (DumpConsts(f.k[..i]) + C.DumpConst(f.k[i]));
        done := Word(|f.k|) + DumpConsts(f.k[..i + 1]);
      }
      assert f.k[..|f.k|] == f.k;
      ghost var mid, st := out, status;
      DumpInt(|f.p|);
      WroteMore(old(out), old(status), done, mid, st, Word(|f.p|), out, status);
      ghost var head := done + Word(|f.p|);
      done := [];
      assert head + done == head;
      for i := 0 to |f.p|
        invariant done + DumpProtos(f, i, strip) == DumpProtos(f, 0, strip)
        invariant Wrote(old(out), old(status), head + done, out, status)
      {
        mid, st := out, status;
        DumpFunction(f.p[i], f.source);
        WroteMore(old(out), old(status), head + done, mid, st, C.DumpFunction(f.p[i], f.source, strip), out, status);
        assert head + done + C.DumpFunction(f.p[i], f.source, strip) == head + (done + C.DumpFunction(f.p[i], f.source, strip));
        assert done + DumpProtos(f, i, strip) == (done + C.DumpFunction(f.p[i], f.source, strip)) + DumpProtos(f, i + 1, strip);
        done := done + C.DumpFunction(f.p[i], f.source, strip);
      }
      assert done + [] == done;
      assert head + done == Word(|f.k|) + DumpConsts(f.k) + (Word(|f.p|) + done);
    }

    method DumpLocVars(v: seq<LocVar>)
      modifies `out, `status
      ensures Wrote(old(out), old(status), Word(|v|) + C.DumpLocVars(v), out, status)
    {
      hide Wrote, Word, C.DumpString;
      DumpInt(|v|);
      ghost var done: Bytes := [];
      assert Word(|v|) + done == Word(|v|);
      for i := 0 to |v|
        invariant done + C.DumpLocVars(v[i..]) == C.DumpLocVars(v)
        invariant Wrote(old(out), old(status), Word(|v|) + done, out, status)
      {
        ghost var mid, st := out, status;
        DumpLocVar(v[i]);
        ghost var x := LocVarBytes(v[i]);
        WroteMore(old(out), old(status), Word(|v|) + done, mid, st, x, out, status);
        assert Word(|v|) + done + x == Word(|v|) + (done + x);
        assert v[i..][1..] == v[i + 1..];
        assert done + C.DumpLocVars(v[i..]) == (done + x) + C.DumpLocVars(v[i + 1..]);
        done := done + x;
      }
      assert done + [] == done;
    }

    method DumpLocVar(v: LocVar)
      modifies `out, `status
      ensures Wrote(old(out), old(status), LocVarBytes(v), out, status)
    {
      hide Wrote, Word, C.DumpString;
      DumpString(v.name);
      ghost var mid, st := out, status;
      DumpInt(v.startpc);
      WroteMore(old(out), old(status), C.DumpString(v.name), mid, st, Word(v.startpc), out, status);
      mid, st := out, status;
      DumpInt(v.endpc);
      WroteMore(old(out), old(status), C.DumpString(v.name) + Word(v.startpc), mid, st, Word(v.endpc), out, status);
    }

    method DumpNames(v: seq<Name>)
      modifies `out, `status
      ensures Wrote(old(out), old(status), Word(|v|) + C.DumpNames(v), out, status)
    {
      hide Wrote, Word, C.DumpString;
      DumpInt(|v|);
      ghost var done: Bytes := [];
      assert Word(|v|) + done == Word(|v|);
      for i := 0 to |v|
        invariant done + C.DumpNames(v[i..]) == C.DumpNames(v)
        invariant Wrote(old(out), old(status), Word(|v|) + done, out, status)
      {
        ghost var mid, st := out, status;
        DumpString(v[i]);
        ghost var x := C.DumpString(v[i]);
        WroteMore(old(out), old(status), Word(|v|) + done, mid, st, x, out, status);
        assert Word(|v|) + done + x == Word(|v|) + (done + x);
        assert v[i..][1..] == v[i + 1..];
        assert done + C.DumpNames(v[i..]) == (done + x) + C.DumpNames(v[i + 1..]);
        done := done + x;
      }
      assert done + [] == done;
    }

    method DumpDebug(f: Proto)
      modifies `out, `status
      ensures Wrote(old(out), old(status), C.DumpDebug(f, strip), out, status)
    {
      hide Wrote, Word, DumpWords, C.DumpLocVars, C.DumpNames;
      var l, v, u := Kept(f.lineinfo, strip), Kept(f.locvars, strip), Kept(f.upvalues, strip);
      ghost var x, y, z := Word(|l|) + DumpWords(l), Word(|v|) + C.DumpLocVars(v), Word(|u|) + C.DumpNames(u);
      DumpVector(l);
      ghost var mid, st := out, status;
      DumpLocVars(v);
      WroteMore(old(out), old(status), x, mid, st, y, out, status);
      mid, st := out, status;
      DumpNames(u);
      WroteMore(old(out), old(status), x + y, mid, st, z, out, status);
      assert (x + y) + z == C.DumpDebug(f, strip);
    }

    method DumpSizes(f: Proto)
      modifies `out, `status
      ensures Wrote(old(out), old(status), [f.nups, f.numparams, f.isVararg, f.maxstack], out, status)
    {
      hide Wrote;
      DumpChar(f.nups);
      ghost var mid, st := out, status;
      DumpChar(f.numparams);
      WroteMore(old(out), old(status), [f.nups], mid, st, [f.numparams], out, status);
      mid, st := out, status;
      DumpChar(f.isVararg);
      WroteMore(old(out), old(status), [f.nups] + [f.numparams], mid, st, [f.isVararg], out, status);
      mid, st := out, status;
      DumpChar(f.maxstack);
      WroteMore(old(out), old(status), [f.nups] + [f.numparams] + [f.isVararg], mid, st, [f.maxstack], out, status);
      assert [f.nups] + [f.numparams] + [f.isVararg] + [f.maxstack] == [f.nups, f.numparams, f.isVararg, f.maxstack];
    }

    method DumpHead(f: Proto, parent: Name)
      modifies `out, `status
      ensures Wrote(old(out), old(status), C.DumpHead(f, parent, strip), out, status)
    {
      hide Wrote, Word, DumpWords, C.DumpString;
      var n := if f.source == parent || strip then NoName else f.source;
      DumpString(n);
      ghost var x, mid, st := C.DumpString(n), out, status;
      DumpInt(f.linedefined);
      WroteMore(old(out), old(status), x, mid, st, Word(f.linedefined), out, status);
      x, mid, st := x + Word(f.linedefined), out, status;
      DumpInt(f.lastlinedefined);
      WroteMore(old(out), old(status), x, mid, st, Word(f.lastlinedefined), out, status);
      x, mid, st := x + Word(f.lastlinedefined), out, status;
      DumpSizes(f);
      ghost var b := [f.nups, f.numparams, f.isVararg, f.maxstack];
      WroteMore(old(out), old(status), x, mid, st, b, out, status);
      x, mid, st := x + b, out, status;
      DumpVector(f.code);
      WroteMore(old(out), old(status), x, mid, st, Word(|f.code|) + DumpWords(f.code), out, status);
      assert x + (Word(|f.code|) + DumpWords(f.code)) == C.DumpHead(f, parent, strip);
    }

    method DumpFunction(f: Proto, parent: Name)
      modifies `out, `status
      ensures Wrote(old(out), old(status), C.DumpFunction(f, parent, strip), out, status)
      decreases f, 2
    {
      hide Wrote, Word, DumpConsts, DumpProtos, C.DumpDebug, C.DumpHead;
      ghost var h, c, d := C.DumpHead(f, parent, strip), Word(|f.k|) + DumpConsts(f.k) + (Word(|f.p|) + DumpProtos(f, 0, strip)), C.DumpDebug(f, strip);
      DumpHead(f, parent);
      ghost var mid, st := out, status;
      DumpConstants(f);
      WroteMore(old(out), old(status), h, mid, st, c, out, status);
      mid, st := out, status;
      DumpDebug(f);
      WroteMore(old(out), old(status), h + c, mid, st, d, out, status);
      assert h + c + d == C.DumpFunction(f, parent, strip);
    }

    /** `luaU_dump`: the chunk, if the writer takes it, and otherwise the beginning of the chunk. */
    method Dump(f: Proto)
      requires out == [] && status == 0
      modifies `out, `status
      ensures out <= ChunkRoundTrip.Dump(f, strip) && (status == 0 ==> out == ChunkRoundTrip.Dump(f, strip))
    {
      hide C.DumpFunction;
      DumpBlock(HEADER);
      ghost var mid, st := out, status;
      DumpFunction(f, NoName);
      WroteMore([], 0, HEADER, mid, st, C.DumpFunction(f, NoName, strip), out, status);
    }
  }

  // ------------------------------------------------------------- reading

  /** The result of a loading step; an error ends the load. */
  datatype Result<T> = Ok(value: T) | Err(error: LoadError)
  {
    predicate IsFailure() {
      Err?
    }

    function PropagateFailure<U>(): Result<U>
      requires IsFailure()
    {
      Err(error)
    }

    function Extract(): T
      requires !IsFailure()
    {
      value
    }
  }

  /** The step has done what the function `spec` says, and has left `rest` of the stream. */
  ghost predicate Did<T(!new)>(spec: Loaded<T>, r: Result<T>, rest: Bytes) {
    match spec
    case Bad(e) => r == Err(e)
    case Got(v, left) => r == Ok(v) && rest == left
  }

  /** More elements in front of those that are still to be loaded */
  ghost function Behind<T(!new)>(s: seq<T>, r: Loaded<seq<T>>): Loaded<seq<T>> {
    match r
    case Bad(e) => Bad(e)
    case Got(v, rest) => Got(s + v, rest)
  }

  lemma BehindMore<T(!new)>(s: seq<T>, c: T, r: Loaded<seq<T>>)
    ensures Behind(s, Behind([c], r)) == Behind(s + [c], r)
  {
    if r.Got? {
      assert s + ([c] + r.v) == s + [c] + r.v;
    }
  }

  lemma BehindNothing<T(!new)>(r: Loaded<seq<T>>)
    ensures Behind([], r) == r
  {
    if r.Got? {
      assert [] + r.v == r.v;
    }
  }

  class Loader {
    const check: Proto -> bool
    var z: Bytes

    constructor (z: Bytes, check: Proto -> bool)
      ensures this.z == z && this.check == check
    {
      this.z, this.check := z, check;
    }

    method LoadBlock(n: nat) returns (r: Result<Bytes>)
      modifies `z
      ensures Did(C.LoadBlock(old(z), n), r, z)
    {
      if |z| < n {
        return Err(UnexpectedEnd);
      }
      r := Ok(z[..n]);
      z := z[n..];
    }

    method LoadChar() returns (r: Result<Byte>)
      modifies `z
      ensures Did(C.LoadByte(old(z)), r, z)
    {
      var b :- LoadBlock(1);
      r := Ok(b[0]);
    }

    method LoadSize() returns (r: Result<int>)
      modifies `z
      ensures Did(C.LoadWord(old(z)), r, z)
    {
      hide FromWord;
      var b :- LoadBlock(4);
      r := Ok(FromWord(b));
    }

    method LoadInt() returns (r: Result<int>)
      modifies `z
      ensures Did(C.LoadInt(old(z)), r, z)
    {
      hide C.LoadWord;
      var x :- LoadSize();
      if Signed(x) < 0 {
        return Err(BadInteger);
      }
      r := Ok(Signed(x));
    }

    method LoadString() returns (r: Result<Name>)
      modifies `z
      ensures Did(C.LoadString(old(z)), r, z)
    {
      hide C.LoadWord;
      var size :- LoadSize();
      if size == 0 {
        return Ok(NoName);
      }
      var s :- LoadBlock(size);
      r := Ok(Named(s[..size - 1]));
    }

    /** One block, and the words in it */
    method LoadVector(n: nat, signed: bool) returns (r: Result<seq<int>>)
      modifies `z
      ensures Did(C.LoadWords(old(z), n, signed), r, z)
    {
      hide C.LoadWords, Words;
      WordsAtOnce(z, n, signed);
      var b :- LoadBlock(4 * n);
      r := Ok(Words(b, signed));
    }

    method LoadConst() returns (r: Result<Const>)
      modifies `z
      ensures Did(C.LoadConst(old(z)), r, z)
    {
      hide C.LoadString;
      var t :- LoadChar();
      match t {
        case 0 =>
          r := Ok(KNil);
        case 1 =>
          var b :- LoadChar();
          r := Ok(KBool(b));
        case 3 =>
          var n :- LoadBlock(8);
          r := Ok(KNum(n));
        case 4 =>
          var n :- LoadString();
          r := if n.NoName? then Err(BadConstant) else Ok(KStr(n.s));
        case _ =>
          r := Err(BadConstant);
      }
    }

    method LoadConstants(n: nat) returns (r: Result<seq<Const>>)
      modifies `z
      ensures Did(LoadConsts(old(z), n), r, z)
    {
      hide C.LoadConst;
      var k: seq<Const> := [];
      BehindNothing(LoadConsts(z, n));
      for i := 0 to n
        invariant LoadConsts(old(z), n) == Behind(k, LoadConsts(z, n - i))
      {
        ghost var at := z;
        var o :- LoadConst();
        assert LoadConsts(at, n - i) == Behind([o], LoadConsts(z, n - i - 1));
        BehindMore(k, o, LoadConsts(z, n - i - 1));
        k := k + [o];
      }
      assert k + [] == k;
      r := Ok(k);
    }

    method LoadLocVar() returns (r: Result<LocVar>)
      modifies `z
      ensures Did(C.LoadLocVar(old(z)), r, z)
    {
      hide C.LoadString, C.LoadInt;
      var name :- LoadString();
      var startpc :- LoadInt();
      var endpc :- LoadInt();
      r := Ok(LocVar(name, startpc, endpc));
    }

    method LoadLocVars(n: nat) returns (r: Result<seq<LocVar>>)
      modifies `z
      ensures Did(C.LoadLocVars(old(z), n), r, z)
    {
      hide C.LoadLocVar;
      var s: seq<LocVar> := [];
      BehindNothing(C.LoadLocVars(z, n));
      for i := 0 to n
        invariant C.LoadLocVars(old(z), n) == Behind(s, C.LoadLocVars(z, n - i))
      {
        ghost var at := z;
        var v :- LoadLocVar();
        assert C.LoadLocVars(at, n - i) == Behind([v], C.LoadLocVars(z, n - i - 1));
        BehindMore(s, v, C.LoadLocVars(z, n - i - 1));
        s := s + [v];
      }
      assert s + [] == s;
      r := Ok(s);
    }

    method LoadUpvalueNames(n: nat) returns (r: Result<seq<Name>>)
      modifies `z
      ensures Did(LoadNames(old(z), n), r, z)
    {
      hide C.LoadString;
      var s: seq<Name> := [];
      BehindNothing(LoadNames(z, n));
      for i := 0 to n
        invariant LoadNames(old(z), n) == Behind(s, LoadNames(z, n - i))
      {
        ghost var at := z;
        var v :- LoadString();
        assert LoadNames(at, n - i) == Behind([v], LoadNames(z, n - i - 1));
        BehindMore(s, v, LoadNames(z, n - i - 1));
        s := s + [v];
      }
      assert s + [] == s;
      r := Ok(s);
    }

    method LoadHead(parent: Name) returns (r: Result<Proto>)
      modifies `z
      ensures Did(C.LoadHead(old(z), parent), r, z)
    {
      hide C.LoadString, C.LoadInt, LoadWords;
      var name :- LoadString();
      var first :- LoadInt();
      var last :- LoadInt();
      var b :- LoadBlock(4);
      var n :- LoadInt();
      var code :- LoadVector(n, false);
      r := Ok(Proto(if name.NoName? then parent else name, first, last, b[0], b[1], b[2], b[3], code, [], [], [], [], []));
    }

    method LoadDebug(f: Proto) returns (r: Result<Proto>)
      modifies `z
      ensures Did(C.LoadDebug(old(z), f), r, z)
    {
      hide C.LoadInt, LoadWords, C.LoadLocVars, LoadNames;
      var n :- LoadInt();
      var lines :- LoadVector(n, true);
      n :- LoadInt();
      var vars :- LoadLocVars(n);
      n :- LoadInt();
      var ups :- LoadUpvalueNames(n);
      r := Ok(f.(lineinfo := lines, locvars := vars, upvalues := ups));
    }

    method LoadFunction(parent: Name) returns (r: Result<Proto>)
      modifies `z
      ensures Did(C.LoadFunction(check, old(z), parent), r, z)
      decreases |z|, 1, 0
    {
      hide C.LoadHead, C.LoadInt, LoadConsts, LoadProtos, C.LoadDebug;
      var f :- LoadHead(parent);
      var n :- LoadInt();
      var k :- LoadConstants(n);
      n :- LoadInt();
      var p :- LoadNested(n, f.source);
      f :- LoadDebug(f.(k := k, p := p));
      if !check(f) {
        return Err(BadCode);
      }
      r := Ok(f);
    }

    method LoadNested(n: nat, source: Name) returns (r: Result<seq<Proto>>)
      modifies `z
      ensures Did(LoadProtos(check, old(z), n, source), r, z)
      decreases |z|, 2, n
    {
      hide C.LoadFunction;
      var p: seq<Proto> := [];
      BehindNothing(LoadProtos(check, z, n, source));
      for i := 0 to n
        invariant |z| <= old(|z|)
        invariant LoadProtos(check, old(z), n, source) == Behind(p, LoadProtos(check, z, n - i, source))
      {
        ghost var at := z;
        var f :- LoadFunction(source);
        assert LoadProtos(check, at, n - i, source) == Behind([f], LoadProtos(check, z, n - i - 1, source));
        BehindMore(p, f, LoadProtos(check, z, n - i - 1, source));
        p := p + [f];
      }
      assert p + [] == p;
      r := Ok(p);
    }

    /** `luaU_undump` */
    method Undump() returns (r: Result<Proto>)
      modifies `z
      ensures Did(ChunkRoundTrip.Undump(check, old(z)), r, z)
    {
      hide C.LoadFunction;
      var b :- LoadBlock(|HEADER|);
      if b != HEADER {
        return Err(BadHeader);
      }
      r := LoadFunction(UNKNOWN);
    }
  }

  /** The words of a block */
  function Words(b: Bytes, signed: bool): seq<int>
    requires |b| % 4 == 0
  {
    if b == [] then [] else [if signed then Signed(FromWord(b[..4])) else FromWord(b[..4])] + Words(b[4..], signed)
  }

  /** Reading a vector as one block is reading its words. */
  lemma {:induction false} WordsAtOnce(z: Bytes, n: nat, signed: bool)
    ensures LoadWords(z, n, signed) == if |z| < 4 * n then Bad(UnexpectedEnd) else Got(Words(z[..4 * n], signed), z[4 * n..])
    decreases n
  {
    hide FromWord;
    if n > 0 && |z| >= 4 {
      WordsAtOnce(z[4..], n - 1, signed);
      if |z| >= 4 * n {
        assert z[4..][..4 * (n - 1)] == z[..4 * n][4..];
        assert z[..4 * n][..4] == z[..4];
        assert z[4..][4 * (n - 1)..] == z[4 * n..];
      }
    }
  }

  function LocVarBytes(v: LocVar): Bytes {
    C.DumpString(v.name) + Word(v.startpc) + Word(v.endpc)
  }

  lemma {:induction false} ConstsSnoc(s: seq<Const>, c: Const)
    ensures DumpConsts(s + [c]) == DumpConsts(s) + C.DumpConst(c)
    decreases |s|
  {
    hide C.DumpConst;
    if s == [] {
      assert ([c])[1..] == [] && s + [c] == [c];
      assert C.DumpConst(c) + [] == [] + C.DumpConst(c);
    } else {
      assert (s + [c])[1..] == s[1..] + [c];
      ConstsSnoc(s[1..], c);
    }
  }
}
