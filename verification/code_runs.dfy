/**
 Whole runs of accepted code, and of code that was loaded from a precompiled chunk.
 */
module CodeRuns {
  import opened Bytecode
  import opened Chunks
  import opened ChunkRoundTrip
  import opened CodeChecker
  import opened CodeSafety

  ghost predicate Steps(f: Proto, s: Frame, t: Frame) {
    0 <= s.pc < |f.code| && Usable(f, s.pc) && Next(f, s, t)
  }

  /** A run of the function from its first instruction. */
  ghost predicate Run(f: Proto, r: seq<Frame>) {
    r != [] && r[0] == Frame(0, false) && forall i: nat :: i + 1 < |r| ==> Steps(f, r[i], r[i + 1])
  }

  /** The interpreter has an instruction, finds all that it needs, and goes on unless it returns. */
  ghost predicate Safe(f: Proto, s: Frame) {
    && Visited(f.code, s.pc)
    && Usable(f, s.pc)
    && (OpOf(f.code[s.pc]) != RETURN ==> exists t :: Steps(f, s, t))
  }

  lemma GoesOn(f: Proto, s: Frame) returns (t: Frame)
    requires 0 <= s.pc < |f.code| && Usable(f, s.pc) && OpOf(f.code[s.pc]) != RETURN
    ensures Steps(f, s, t)
  {
    hide Usable, OpOf;
    var w, pc := f.code[s.pc], s.pc;
    match OpOf(w) {
      case LOADBOOL => t := Frame(if ArgC(w) != 0 then pc + 2 else pc + 1, s.open);
      case JMP | FORPREP => t := Frame(pc + 1 + ArgSBx(w), s.open);
      case EQ | LT | LE | TEST | TESTSET => t := Frame(pc + 2, s.open);
      case TFORLOOP => t := Frame(pc + 2, false);
      case CALL => t := Frame(pc + 1, ArgC(w) == 0);
      case TAILCALL => t := Frame(pc + 1, true);
      case SETLIST => t := Frame(if ArgC(w) == 0 then pc + 2 else pc + 1, s.open && ArgB(w) != 0);
      case CLOSURE =>
        NestedExists(f, pc);
        t := Frame(pc + 1 + f.p[ArgBx(w)].nups as int, s.open);
      case VARARG => t := Frame(pc + 1, s.open || ArgB(w) == 0);
      case _ => t := Frame(pc + 1, s.open);
    }
  }

  lemma NestedExists(f: Proto, pc: nat)
    requires pc < |f.code| && Usable(f, pc) && OpOf(f.code[pc]) == CLOSURE
    ensures ArgBx(f.code[pc]) < |f.p|
  {
  }

  /** Accepted code in which no instruction slips: in every run, every instruction is safe. */
  lemma {:induction false} RunIsSafe(f: Proto, r: seq<Frame>, i: nat)
    requires f.code != [] && Accepts(f) && (forall pc: nat :: Visited(f.code, pc) ==> !Slips(f, pc))
    requires Run(f, r) && i < |r|
    ensures Safe(f, r[i])
    decreases i
  {
    hide Usable, Slips, Accepts, Next, OpOf, Visited;
    if i == 0 {
      assert Visited(f.code, 0) by { FirstVisited(f.code); }
    } else {
      RunIsSafe(f, r, i - 1);
      assert Steps(f, r[i - 1], r[(i - 1) + 1]);
      StepStaysInside(f, r[i - 1], r[i]);
    }
    AcceptedIsUsable(f, r[i].pc);
    if OpOf(f.code[r[i].pc]) != RETURN {
      var t := GoesOn(f, r[i]);
    }
  }

  lemma FirstVisited(code: seq<int>)
    requires code != []
    ensures Visited(code, 0)
  {
  }

  /** So is every instruction of accepted code that has no extended SETLIST. */
  lemma RunWithoutExtendedIsSafe(f: Proto, r: seq<Frame>, i: nat)
    requires f.code != [] && Accepts(f) && (forall pc :: 0 <= pc < |f.code| ==> !Extended(f.code[pc]))
    requires Run(f, r) && i < |r|
    ensures Safe(f, r[i])
  {
    hide Accepts, Run, Safe, OpOf, Visited;
    RunIsSafe(f, r, i);
  }

  /** Results that a call leaves open are taken by the next instruction of the run. */
  lemma {:induction false} RunTakesResults(f: Proto, r: seq<Frame>, i: nat)
    requires f.code != [] && Accepts(f) && (forall pc: nat :: Visited(f.code, pc) ==> !Slips(f, pc) && !Drops(f, pc))
    requires Run(f, r) && i < |r|
    ensures Visited(f.code, r[i].pc) && Taken(f, r[i])
    decreases i
  {
    hide Usable, Slips, Drops, Accepts, Next, OpOf, Visited;
    RunIsSafe(f, r, i);
    if i > 0 {
      RunTakesResults(f, r, i - 1);
      assert Steps(f, r[i - 1], r[(i - 1) + 1]);
      StepTakesResults(f, r[i - 1], r[i]);
    }
  }

  // ------------------------------------------------------------- a slip in accepted code

  /** `LOADBOOL 0 0 1; SETLIST 0 1 0; LOADK 0 5; RETURN 0 1`, where the third word is the count of the
      second and the function has no constants */
  predicate SkipsCount(f: Proto) {
    && f.code == [0x4002, 0x80_0022, 0x1_4001, 0x80_001E]
    && f.maxstack == 2 && f.k == [] && f.lineinfo == [] && f.upvalues == []
  }

  lemma SkipsCountWords(f: Proto)
    requires SkipsCount(f)
    ensures |f.code| == 4
    ensures OpOf(f.code[0]) == LOADBOOL && ArgA(f.code[0]) == 0 && ArgB(f.code[0]) == 0 && ArgC(f.code[0]) == 1
    ensures OpOf(f.code[1]) == SETLIST && ArgA(f.code[1]) == 0 && ArgB(f.code[1]) == 1 && ArgC(f.code[1]) == 0
    ensures OpOf(f.code[2]) == LOADK && ArgA(f.code[2]) == 0 && ArgBx(f.code[2]) == 5
    ensures OpOf(f.code[3]) == RETURN && ArgA(f.code[3]) == 0 && ArgB(f.code[3]) == 1 && ArgC(f.code[3]) == 0
  {
    hide OpOf, ArgA, ArgB, ArgC, ArgBx;
    FirstWords(f.code[0], f.code[1]);
    LastWords(f.code[2], f.code[3]);
  }

  lemma FirstWords(x: int, y: int)
    requires x == 0x4002 && y == 0x80_0022
    ensures OpOf(x) == LOADBOOL && ArgA(x) == 0 && ArgB(x) == 0 && ArgC(x) == 1
    ensures OpOf(y) == SETLIST && ArgA(y) == 0 && ArgB(y) == 1 && ArgC(y) == 0
  {
  }

  lemma LastWords(x: int, y: int)
    requires x == 0x1_4001 && y == 0x80_001E
    ensures OpOf(x) == LOADK && ArgA(x) == 0 && ArgBx(x) == 5
    ensures OpOf(y) == RETURN && ArgA(y) == 0 && ArgB(y) == 1 && ArgC(y) == 0
  {
  }

  lemma SkipsCountVisited(f: Proto, pc: nat)
    requires SkipsCount(f) && Visited(f.code, pc)
    ensures pc in {0, 1, 3}
  {
    hide OpOf, ArgC, Visited;
    SkipsCountWords(f);
    FirstVisited(f.code);
    VisitedNext(f.code, 0);
    CountNotVisited(f.code, 1);
  }

  lemma SkipsCountPasses(f: Proto, pc: nat)
    requires SkipsCount(f) && pc in {0, 1, 3}
    ensures f.code != [] && Precheck(f) && pc < |f.code| && Passes(f, pc)
  {
    hide OpOf, ArgA, ArgB, ArgC, ArgBx;
    SkipsCountWords(f);
  }

  /** The checker accepts this function, and its first instruction leads to the count of the SETLIST,
      which is then executed as a load of a constant that does not exist. */
  lemma AcceptedButUnsafe(f: Proto)
    requires SkipsCount(f)
    ensures f.code != [] && Accepts(f)
    ensures Run(f, [Frame(0, false), Frame(2, false)]) && !Usable(f, 2)
  {
    hide OpOf, ArgA, ArgB, ArgC, ArgBx, Visited, Passes;
    SkipsCountWords(f);
    forall pc: nat | Visited(f.code, pc)
      ensures Passes(f, pc)
    {
      SkipsCountVisited(f, pc);
      SkipsCountPasses(f, pc);
    }
    SkipsCountPasses(f, 0);
  }

  // ------------------------------------------------------------- loaded code

  /** `luaG_checkcode`, for code that is not empty */
  ghost predicate CheckCode(f: Proto) {
    f.code != [] && Accepts(f)
  }

  /** The checker does not miss what stripping takes away. */
  lemma StrippedPasses(f: Proto, source: Name)
    requires CheckCode(f)
    ensures CheckCode(Stripped(f, source))
  {
    hide Passes;
    var g := Stripped(f, source);
    StrippedLength(f, 0, source);
    forall pc: nat | Visited(g.code, pc)
      ensures Passes(g, pc)
    {
      SamePasses(f, pc, source);
    }
  }

  /** Alike in all that the checker looks at in an instruction. */
  ghost predicate AlikeCode(f: Proto, g: Proto) {
    && g.code == f.code && g.k == f.k && g.nups == f.nups && g.isVararg == f.isVararg && g.maxstack == f.maxstack
    && |g.p| == |f.p| && forall i :: 0 <= i < |f.p| ==> g.p[i].nups == f.p[i].nups
  }

  lemma StrippedAlike(f: Proto, source: Name)
    ensures AlikeCode(f, Stripped(f, source))
  {
    hide StrippedAll;
    StrippedLength(f, 0, source);
  }

  lemma SamePasses(f: Proto, pc: nat, source: Name)
    requires f.code != [] && Precheck(f) && pc < |f.code| && Passes(f, pc)
    ensures Precheck(Stripped(f, source)) && Passes(Stripped(f, source), pc)
  {
    hide OpOf, Modes, CheckOp, StrippedAll, ArgA, ArgB, ArgC, ArgBx, ArgSBx, Extended;
    var g := Stripped(f, source);
    StrippedAlike(f, source);
    SameFormat(f, g, pc);
    SameOp(f, g, pc);
  }

  lemma SameFormat(f: Proto, g: Proto, pc: nat)
    requires AlikeCode(f, g) && pc < |f.code| && CheckFormat(f, pc)
    ensures CheckFormat(g, pc)
  {
    hide OpOf, Modes, ArgA, ArgB, ArgC, ArgBx, ArgSBx, Extended, IsK, IndexK;
  }

  lemma SameOp(f: Proto, g: Proto, pc: nat)
    requires AlikeCode(f, g) && f.code != [] && Precheck(f) && Precheck(g) && pc < |f.code|
    requires CheckFormat(f, pc) && CheckFormat(g, pc) && CheckOp(f, pc)
    ensures CheckOp(g, pc)
  {
    hide OpOf, OpenOp, ArgA, ArgB, ArgC, ArgBx, Precheck, CheckFormat, CheckClosure, NeedsArg, IsVararg;
    SameParts(f, g, pc);
  }

  lemma SameParts(f: Proto, g: Proto, pc: nat)
    requires AlikeCode(f, g) && pc < |f.code|
    ensures IsVararg(g) == IsVararg(f) && NeedsArg(g) == NeedsArg(f)
    ensures forall n: nat :: CheckClosure(g, pc, n) <==> CheckClosure(f, pc, n)
  {
  }

  lemma {:induction false} StrippedLength(f: Proto, i: nat, source: Name)
    requires i <= |f.p|
    ensures |StrippedAll(f, i, source)| == |f.p| - i
    ensures forall j :: 0 <= j < |f.p| - i ==> StrippedAll(f, i, source)[j] == Stripped(f.p[i + j], source)
    decreases |f.p| - i
  {
    hide Stripped;
    if i < |f.p| {
      StrippedLength(f, i + 1, source);
    }
  }

  /** So a tree of functions that passes the checker still passes it when it has been stripped. */
  lemma {:induction false} StrippedIsAccepted(f: Proto, source: Name)
    requires Accepted(CheckCode, f)
    ensures Accepted(CheckCode, Stripped(f, source))
    decreases f
  {
    hide CheckCode;
    StrippedPasses(f, source);
    StrippedLength(f, 0, source);
    forall i | 0 <= i < |f.p|
      ensures Accepted(CheckCode, Stripped(f.p[i], source))
    {
      StrippedIsAccepted(f.p[i], source);
    }
  }

  /** A checked prototype that is dumped without its debug information loads: without it, and with an
      unknown source. */
  lemma UndumpStripped(f: Proto, rest: Bytes)
    requires Fits(f) && Accepted(CheckCode, f)
    ensures Undump(CheckCode, Dump(f, true) + rest) == Got(Stripped(f, UNKNOWN), rest)
  {
    hide Undump, Dump, Stripped, Accepted;
    StrippedIsAccepted(f, UNKNOWN);
    StrippedBack(CheckCode, f, rest);
  }

  /** What the loader returns has passed the checker, together with all that it encloses. */
  lemma {:induction false} LoadedIsAccepted(check: Proto -> bool, z: Bytes, parent: Name)
    requires LoadFunction(check, z, parent).Got?
    ensures Accepted(check, LoadFunction(check, z, parent).v)
    decreases |z|, 1, 0
  {
    hide LoadHead, LoadInt, LoadConsts, LoadDebug, LoadProtos;
    var head := LoadHead(z, parent);
    var n := LoadInt(head.rest);
    var k := LoadConsts(n.rest, n.v);
    var m := LoadInt(k.rest);
    ProtosAreAccepted(check, m.rest, m.v, head.v.source);
    var p := LoadProtos(check, m.rest, m.v, head.v.source);
    DebugKeepsProtos(p.rest, head.v.(k := k.v, p := p.v));
  }

  lemma DebugKeepsProtos(z: Bytes, f: Proto)
    requires LoadDebug(z, f).Got?
    ensures LoadDebug(z, f).v.p == f.p
  {
  }

  lemma {:induction false} ProtosAreAccepted(check: Proto -> bool, z: Bytes, n: int, source: Name)
    requires LoadProtos(check, z, n, source).Got?
    ensures forall i :: 0 <= i < |LoadProtos(check, z, n, source).v| ==> Accepted(check, LoadProtos(check, z, n, source).v[i])
    decreases |z|, 2, n
  {
    hide LoadFunction, Accepted;
    if n > 0 {
      LoadedIsAccepted(check, z, source);
      ProtosAreAccepted(check, LoadFunction(check, z, source).rest, n - 1, source);
    }
  }

  /** `g` is `f` or a function somewhere inside it. */
  predicate Encloses(f: Proto, g: Proto) {
    f == g || exists i :: 0 <= i < |f.p| && Encloses(f.p[i], g)
  }

  lemma {:induction false} EnclosedIsAccepted(check: Proto -> bool, f: Proto, g: Proto)
    requires Accepted(check, f) && Encloses(f, g)
    ensures check(g)
  {
    if f != g {
      var i :| 0 <= i < |f.p| && Encloses(f.p[i], g);
      EnclosedIsAccepted(check, f.p[i], g);
    }
  }

  /** Every function of a chunk that loads is safe to run if it has no extended SETLIST. */
  lemma LoadedIsSafe(z: Bytes, f: Proto, rest: Bytes, g: Proto, r: seq<Frame>, i: nat)
    requires Undump(CheckCode, z) == Got(f, rest) && Encloses(f, g)
    requires forall pc :: 0 <= pc < |g.code| ==> !Extended(g.code[pc])
    requires Run(g, r) && i < |r|
    ensures Safe(g, r[i])
  {
    hide LoadFunction, Accepts, Extended, Run, Safe, Encloses, Accepted;
    LoadedIsAccepted(CheckCode, LoadBlock(z, |HEADER|).rest, UNKNOWN);
    EnclosedIsAccepted(CheckCode, f, g);
    RunWithoutExtendedIsSafe(g, r, i);
  }
}
