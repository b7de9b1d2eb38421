/**
 The form of a compiled expression - its kind, whether it has jumps, the constants - is what the
 shape of its tree says.
 */
module CodeGenForm {
  import opened Vm
  import opened CodeGen
  import opened CodeGenYield

  /** The tail that a kind stands for. */
  function Ends(c: Code, k: Kind): Tail {
    match k
    case VNil => EndsNil
    case VTrue => EndsTrue
    case VFalse => EndsFalse
    case VK(i) => EndsString(i)
    case VKNum(n) => EndsNumber(n)
    case VLocal(_) => EndsRegister
    case VNonReloc(_) => EndsRegister
    case VGlobal(_) => EndsGlobal
    case VReloc(pc) => if 0 <= pc < |c| && c[pc].Not? then EndsNot else EndsFetched
    case VJmp(_) => EndsCompare
  }

  ghost predicate FormIs(a: Form, fs: Fs, e: Exp, n: int) {
    && a.k == fs.k && a.tail == Ends(fs.code, e.k) && (a.t <==> e.t != NO_JUMP) && (a.f <==> e.f != NO_JUMP)
    && (e.k.VJmp? ==> e.k.info >= 0) && (e.k.VReloc? ==> 0 <= e.k.info < |fs.code| && !fs.code[e.k.info].Jmp?)
    && (e.k.VLocal? || e.k.VNonReloc? ==> e.k.info < n)
  }

  lemma DischargeForm(a: Form, fs: Fs, e: Exp, n: int)
    requires FormIs(a, fs, e, n)
    ensures FormIs(a.(tail := FetchTail(a.tail)), DischargeVars(fs, e).0, DischargeVars(fs, e).1, n)
  {
    hide Emit;
    if e.k.VGlobal? {
      EmitLast(fs, GetGlobal(0, e.k.info));
    }
  }

  lemma NotForm(a: Form, fs: Fs, e: Exp, n: int)
    requires FormIs(a, fs, e, n)
    ensures FormIs(Form(NegateTail(a.tail), a.f, a.t, a.k), CodeNot(fs, e).0, CodeNot(fs, e).1, n)
  {
    hide DischargeVars, RemoveAll, Discharge2AnyReg, Emit, InvertJump, FreeExp;
    DischargeForm(a, fs, e, n);
    var (fs1, e1) := DischargeVars(fs, e);
    LoadConstants(fs1, e1);
    var (fs3, e3) := Discharge2AnyReg(fs1, e1);
    var fs4 := FreeExp(fs3, e3);
    EmitLast(fs4, Not(0, if e3.k.VNonReloc? then e3.k.info else NO_REG));
    var fs5 := Emit(fs4, Not(0, if e3.k.VNonReloc? then e3.k.info else NO_REG));
    var c1 := RemoveAll(fs5.code, ListOf(fs5.code, e1.t));
    RemovedKeeps(fs5.code, ListOf(fs5.code, e1.t), |fs4.code|);
    RemovedKeeps(c1, ListOf(c1, e1.f), |fs4.code|);
    FreeConstants(fs3, e3);
  }

  lemma FreeConstants(fs: Fs, e: Exp)
    ensures FreeExp(fs, e).k == fs.k && FreeExp(fs, e).code == fs.code
  {
  }

  lemma LoadConstants(fs: Fs, e: Exp)
    ensures Discharge2AnyReg(fs, e).0.k == (if e.k.VKNum? then Interned(fs.k, Number(e.k.nval)) else fs.k)
  {
    hide PatchList, FindK;
  }

  lemma EmitLast(fs: Fs, i: Instr)
    ensures |Emit(fs, i).code| == |fs.code| + 1 && Emit(fs, i).code[|fs.code|] == i && Emit(fs, i).k == fs.k
  {
  }

  lemma {:induction false} RemovedKeeps(c: Code, l: seq<int>, pc: int)
    requires 0 <= pc < |c| && !c[pc].TestSet?
    ensures RemoveAll(c, l)[pc] == c[pc]
    decreases |l|
  {
    if l != [] {
      if 0 <= l[0] < |c| {
        RemovedKeeps(c[Control(c, l[0]) := PatchedTest(c[Control(c, l[0])], NO_REG)], l[1..], pc);
      } else {
        RemovedKeeps(c, l[1..], pc);
      }
    }
  }

  // ------------------------------------------------------------- lists

  lemma ConcatHead(c: Code, h1: int, h2: int)
    ensures Concat(c, h1, h2).1 == NO_JUMP <==> h1 == NO_JUMP && h2 == NO_JUMP
  {
  }

  lemma {:induction false} WalkJumps(c: Code, list: int, fuel: nat)
    ensures forall j :: j in Walk(c, list, fuel) ==> 0 <= j < |c| && c[j].Jmp?
    decreases fuel
  {
    if fuel != 0 && 0 <= list < |c| && c[list].Jmp? {
      WalkJumps(c, GetJump(c, list), fuel - 1);
    }
  }

  /** Only jumps are relinked. */
  lemma ConcatKeeps(c: Code, h1: int, h2: int)
    ensures |Concat(c, h1, h2).0| == |c|
    ensures forall pc :: 0 <= pc < |c| && !c[pc].Jmp? ==> Concat(c, h1, h2).0[pc] == c[pc]
  {
    WalkJumps(c, h1, |c|);
  }

  lemma JoinForm(a: Form, fs: Fs, e: Exp, n: int, h: int, side: bool)
    requires FormIs(a, fs, e, n)
    ensures var (c, l) := Concat(fs.code, if side then e.f else e.t, h);
            FormIs(if side then a.(f := a.f || h != NO_JUMP) else a.(t := a.t || h != NO_JUMP), fs.(code := c),
                   if side then e.(f := l) else e.(t := l), n)
  {
    hide Concat;
    ConcatHead(fs.code, if side then e.f else e.t, h);
    ConcatKeeps(fs.code, if side then e.f else e.t, h);
  }

  // ------------------------------------------------------------- conditions

  lemma JumpHead(fs: Fs)
    ensures Jump(fs).1 != NO_JUMP && Jump(fs).0.k == fs.k
  {
  }

  lemma OnCondHead(fs: Fs, e: Exp, cond: bool)
    ensures JumpOnCond(fs, e, cond).1 != NO_JUMP
    ensures JumpOnCond(fs, e, cond).0.k == if e.k.VKNum? then Interned(fs.k, Number(e.k.nval)) else fs.k
  {
    hide Discharge2AnyReg, Concat, DischargeJpc;
    LoadConstants(fs, e);
    var f1 := if e.k.VReloc? && 0 <= e.k.info < |fs.code| && fs.code[e.k.info].Not? then fs.(code := fs.code[..|fs.code| - 1])
              else FreeExp(Discharge2AnyReg(fs, e).0, Discharge2AnyReg(fs, e).1);
    CondHead(f1, Test(if e.k.VReloc? && 0 <= e.k.info < |fs.code| && fs.code[e.k.info].Not? then fs.code[e.k.info].b else 0, !cond));
    CondHead(f1, TestSet(NO_REG, if Discharge2AnyReg(fs, e).1.k.VNonReloc? then Discharge2AnyReg(fs, e).1.k.info else NO_REG, cond));
  }

  lemma CondHead(fs: Fs, i: Instr)
    ensures CondJump(fs, i).1 != NO_JUMP && CondJump(fs, i).0.k == fs.k
  {
    hide PatchList;
    JumpHead(Emit(fs, i));
  }

  lemma ConcatHeads()
    ensures forall c, h1, h2 :: Concat(c, h1, h2).1 == NO_JUMP <==> h1 == NO_JUMP && h2 == NO_JUMP
  {
    forall c, h1, h2
      ensures Concat(c, h1, h2).1 == NO_JUMP <==> h1 == NO_JUMP && h2 == NO_JUMP
    {
      ConcatHead(c, h1, h2);
    }
  }

  /** `luaK_goiftrue` (`side`) and `luaK_goiffalse` leave one list. */
  lemma GoForm(a: Form, fs: Fs, e: Exp, n: int, side: bool)
    requires FormIs(a, fs, e, n)
    ensures var (fs', e') := if side then GoIfTrue(fs, e) else GoIfFalse(fs, e);
            && fs'.k == GoConstants(a, side)
            && ((if side then e'.f else e'.t) != NO_JUMP <==> (if side then a.f else a.t) || !a.tail.Stays(side))
  {
    hide DischargeVars, Jump, JumpOnCond, Concat, InvertJump, TestedKind;
    DischargeForm(a, fs, e, n);
    var (fs1, e1) := DischargeVars(fs, e);
    JumpHead(fs1);
    OnCondHead(fs1, e1, !side);
    ConcatHeads();
    HereConstants();
  }

  lemma HereConstants()
    ensures forall fs: Fs, l :: PatchToHere(fs, l).k == fs.k
  {
  }

  // ------------------------------------------------------------- operands

  lemma CloseConstants(fs: Fs, t: int, f: int, fallsIn: bool, reg: int)
    ensures CloseLists(fs, t, f, fallsIn, reg).k == fs.k
  {
    hide PatchList, Concat, ListOf;
  }

  lemma RegConstants(fs: Fs, e: Exp, reg: int)
    ensures Exp2Reg(fs, e, reg).0.k == if e.k.VKNum? then Interned(fs.k, Number(e.k.nval)) else fs.k
  {
    hide CloseLists, Concat, FindK, PatchList;
    var (fs1, e1) := Discharge2Reg(fs, e, reg);
    var (c, t) := if e1.k.VJmp? then Concat(fs1.code, e1.t, e1.k.info) else (fs1.code, e1.t);
    CloseConstants(fs1.(code := c), t, e1.f, !e1.k.VJmp?, reg);
  }

  /** `luaK_exp2anyreg` needs a constant for a number only. */
  lemma AnyConstants(fs: Fs, e: Exp)
    ensures Exp2AnyReg(fs, e).0.k == (if e.k.VKNum? then Interned(fs.k, Number(e.k.nval)) else fs.k)
    ensures Exp2AnyReg(fs, e).1.k.VNonReloc?
  {
    hide Exp2Reg, FindK, PatchList;
    var (fs1, e1) := DischargeVars(fs, e);
    var fs2 := Reserve(FreeExp(fs1, e1));
    RegConstants(fs2, e1, fs2.freereg - 1);
    RegConstants(fs1, e1, if e1.k.VNonReloc? then e1.k.info else 0);
    RegIs(fs2, e1, fs2.freereg - 1);
    RegIs(fs1, e1, if e1.k.VNonReloc? then e1.k.info else 0);
  }

  lemma RegIs(fs: Fs, e: Exp, reg: int)
    ensures Exp2Reg(fs, e, reg).1.k.VNonReloc?
  {
    hide CloseLists, Concat, Discharge2Reg;
  }

  /** The constants once the value is in a register. */
  function FinalConstants(a: Form): seq<Value> {
    if a.tail.EndsNumber? then Interned(a.k, LiteralValue(a.tail)) else a.k
  }

  lemma NextConstants(a: Form, fs: Fs, e: Exp, n: int)
    requires FormIs(a, fs, e, n)
    ensures Exp2NextReg(fs, e).0.k == FinalConstants(a)
  {
    hide Exp2Reg, FindK, PatchList;
    var (fs1, e1) := DischargeVars(fs, e);
    var fs2 := Reserve(FreeExp(fs1, e1));
    RegConstants(fs2, e1, fs2.freereg - 1);
  }
}
