/**
 Registers: what the code of an expression takes, read off its tree.
 */
module CodeGenStack {
  import opened CodeGen
  import opened CodeGenYield
  import opened CodeGenSem
  import opened CodeGenOperands
  import opened CodeGenBranch
  import opened CodeGenCompile

  /** How many registers above the ones in use the code of an expression may take. */
  function Slots(x: Expr): (n: nat)
    ensures n >= 1
  {
    match x
    case Paren(a) => Slots(a)
    case NotE(a) => Slots(a)
    case And(a, b) => Max(Slots(a), Slots(b))
    case Or(a, b) => Max(Slots(a), Slots(b))
    case CmpE(_, a, b) => Max(Slots(a), 1 + Slots(b))
    case _ => 1
  }

  predicate SameRegs(fs: Fs, fs': Fs) {
    fs'.freereg == fs.freereg && fs'.maxstack == fs.maxstack && fs'.nactvar == fs.nactvar
  }

  /** As many registers are in use as before, after at most `n` more. */
  predicate Within(fs: Fs, fs': Fs, n: int) {
    fs'.freereg == fs.freereg && fs'.maxstack <= Max(fs.maxstack, fs.freereg + n) && fs'.nactvar == fs.nactvar
  }

  /** The expression is in no register of its own. */
  predicate Homeless(fs: Fs, k: Kind) {
    k.VLocal? || k.VNonReloc? ==> k.info < fs.nactvar
  }

  lemma DischargeRegs(fs: Fs, e: Exp)
    ensures SameRegs(fs, DischargeVars(fs, e).0) && (Homeless(fs, e.k) ==> Homeless(fs, DischargeVars(fs, e).1.k))
    ensures DischargeVars(fs, e).1.t == e.t && DischargeVars(fs, e).1.f == e.f
  {
    hide PatchList;
  }

  lemma LoadRegs(fs: Fs, k: Kind, reg: int)
    ensures SameRegs(fs, Load(fs, k, reg))
  {
    hide PatchList, FindK;
  }

  lemma AnyRegIs(fs: Fs, e: Exp)
    requires Homeless(fs, e.k) && !e.k.VJmp? && fs.nactvar <= fs.freereg
    ensures var (fs1, e1) := Discharge2AnyReg(fs, e); Within(fs, FreeExp(fs1, e1), 1)
  {
    hide Load;
    var (fs1, e1) := DischargeVars(Reserve(fs), e);
    DischargeRegs(Reserve(fs), e);
    LoadRegs(fs1, e1.k, fs.freereg);
  }

  lemma GoRegs(fs: Fs, e: Exp, side: bool)
    requires Homeless(fs, e.k) && fs.nactvar <= fs.freereg
    ensures Within(fs, if side then GoIfTrue(fs, e).0 else GoIfFalse(fs, e).0, 1)
  {
    hide DischargeVars, Discharge2AnyReg, Concat, PatchList, InvertJump;
    DischargeRegs(fs, e);
    var (fs1, e1) := DischargeVars(fs, e);
    if !e1.k.VJmp? {
      AnyRegIs(fs1, e1);
    }
  }

  lemma NotRegs(fs: Fs, e: Exp)
    requires Homeless(fs, e.k) && fs.nactvar <= fs.freereg
    ensures Within(fs, CodeNot(fs, e).0, 1) && Homeless(fs, CodeNot(fs, e).1.k)
  {
    hide DischargeVars, Discharge2AnyReg, RemoveAll, PatchList, InvertJump;
    DischargeRegs(fs, e);
    var (fs1, e1) := DischargeVars(fs, e);
    if !e1.k.VJmp? {
      AnyRegIs(fs1, e1);
    }
  }

  lemma RegRegs(fs: Fs, e: Exp, reg: int)
    ensures SameRegs(fs, Exp2Reg(fs, e, reg).0) && Exp2Reg(fs, e, reg).1 == Leaf(VNonReloc(reg))
  {
    hide PatchList, Concat, Load, Needs;
    var (fs1, e1) := DischargeVars(fs, e);
    DischargeRegs(fs, e);
    LoadRegs(fs1, e1.k, reg);
  }

  lemma NextRegs(fs: Fs, e: Exp)
    requires Homeless(fs, e.k)
    ensures var (fs', e') := Exp2NextReg(fs, e);
            fs'.freereg == fs.freereg + 1 && fs'.nactvar == fs.nactvar && fs'.maxstack == Max(fs.maxstack, fs.freereg + 1) &&
            e' == Leaf(VNonReloc(fs.freereg))
  {
    hide DischargeVars, Exp2Reg;
    DischargeRegs(fs, e);
    var (fs1, e1) := DischargeVars(fs, e);
    var fs2 := Reserve(FreeExp(fs1, e1));
    RegRegs(fs2, e1, fs2.freereg - 1);
  }

  /** An operand takes a register of its own or none. */
  predicate Placement(fs: Fs, fs': Fs, k: Kind) {
    fs'.nactvar == fs.nactvar && fs'.maxstack <= Max(fs.maxstack, fs.freereg + 1) &&
    ((fs'.freereg == fs.freereg && Homeless(fs, k)) || (fs'.freereg == fs.freereg + 1 && k == VNonReloc(fs.freereg)))
  }

  lemma AnyRegs(fs: Fs, e: Exp)
    requires Homeless(fs, e.k)
    ensures Placement(fs, Exp2AnyReg(fs, e).0, Exp2AnyReg(fs, e).1.k) && Exp2AnyReg(fs, e).1.k.VNonReloc?
    ensures Exp2AnyReg(fs, e).1.t == Exp2AnyReg(fs, e).1.f
  {
    hide DischargeVars, Exp2Reg, Exp2NextReg;
    DischargeRegs(fs, e);
    var (fs1, e1) := DischargeVars(fs, e);
    NextRegs(fs1, e1);
  }

  lemma StaysInReg(fs: Fs, e: Exp)
    requires e.k.VNonReloc? && e.t == e.f
    ensures Exp2AnyReg(fs, e) == (fs, e)
  {
  }

  lemma OperandRegs(fs: Fs, e: Exp)
    requires Homeless(fs, e.k)
    ensures Placement(fs, Exp2RK(fs, e).0, Exp2RK(fs, e).1.k) && IsRk(Exp2RK(fs, e).1.k) && Exp2RK(fs, e).1.t == Exp2RK(fs, e).1.f
  {
    hide DischargeVars, Exp2AnyReg, FindK;
    DischargeRegs(fs, e);
    var (fs1, e1) := Exp2Val(fs, e);
    AnyRegs(fs, e);
    if e1.k.VNil? || e1.k.VTrue? || e1.k.VFalse? || e1.k.VKNum? {
      AddKSmall(fs1, ConstantOf(e1.k));
    }
    if e.t != e.f {
      StaysInReg(fs1, e1);
    } else {
      AnyRegs(fs1, e1);
    }
  }

  /** `codecomp` gives back the registers of both operands. */
  lemma CompareRegs(fs: Fs, op: BinCmp, ea: Exp, e2: Exp, top: int)
    requires IsRk(ea.k) && ea.t == ea.f && Homeless(fs, e2.k) && fs.nactvar <= top
    requires (fs.freereg == top && Homeless(fs, ea.k)) || (fs.freereg == top + 1 && ea.k == VNonReloc(top))
    ensures var fs' := CodeComp(fs, op, ea, e2).0;
            && fs'.freereg == top && fs'.nactvar == fs.nactvar && fs'.maxstack <= Max(fs.maxstack, fs.freereg + 1)
            && CodeComp(fs, op, ea, e2).1.k.VJmp?
  {
    hide Exp2RK, Settled;
    ReadyOperand(fs, ea);
    OperandRegs(fs, e2);
    var (fs1, eb) := Exp2RK(fs, e2);
    CondJumpIs(FreeExp(FreeExp(fs1, eb), ea), CmpInstr(op, RkOf(ea.k), RkOf(eb.k)));
  }

  /** The registers that the code of a tree takes are bounded by its shape. */
  lemma {:induction false} CompileRegs(fs: Fs, x: Expr)
    requires LocalsBelow(x, fs.nactvar) && fs.nactvar <= fs.freereg
    ensures Within(fs, Compile(fs, x).0, Slots(x)) && Homeless(fs, Compile(fs, x).1.k)
    decreases x, 1
  {
    hide DischargeVars, CodeNot, GoIfTrue, GoIfFalse, Exp2RK, CodeComp, FindK, Concat;
    match x {
      case Paren(a) =>
        CompileRegs(fs, a);
        DischargeRegs(Compile(fs, a).0, Compile(fs, a).1);
      case NotE(a) =>
        CompileRegs(fs, a);
        NotRegs(Compile(fs, a).0, Compile(fs, a).1);
      case And(a, b) => JoinRegs(fs, a, b, true);
      case Or(a, b) => JoinRegs(fs, a, b, false);
      case CmpE(op, a, b) =>
        CompileRegs(fs, a);
        var (fs1, e1) := Compile(fs, a);
        OperandRegs(fs1, e1);
        var (fs2, ea) := Exp2RK(fs1, e1);
        CompileRegs(fs2, b);
        CompareRegs(Compile(fs2, b).0, op, ea, Compile(fs2, b).1, fs.freereg);
      case _ =>
    }
  }

  lemma JoinIs(fs: Fs, a: Expr, b: Expr, side: bool)
    ensures var (fs', e') := Compile(fs, if side then And(a, b) else Or(a, b));
            var fs2 := GoIf(Compile(fs, a).0, Compile(fs, a).1, side).0;
            var (fs4, e4) := DischargeVars(Compile(fs2, b).0, Compile(fs2, b).1);
            fs' == fs4.(code := fs'.code) && e'.k == e4.k
  {
    hide DischargeVars, GoIfTrue, GoIfFalse, Concat;
  }

  lemma {:induction false} JoinRegs(fs: Fs, a: Expr, b: Expr, side: bool)
    requires LocalsBelow(a, fs.nactvar) && LocalsBelow(b, fs.nactvar) && fs.nactvar <= fs.freereg
    ensures var x := if side then And(a, b) else Or(a, b);
            Within(fs, Compile(fs, x).0, Max(Slots(a), Slots(b))) && Homeless(fs, Compile(fs, x).1.k)
    decreases if side then And(a, b) else Or(a, b), 0
  {
    hide DischargeVars, GoIfTrue, GoIfFalse, GoIf, Concat, Compile, Slots, LocalsBelow, Within, Homeless, Max;
    var (fs1, e1) := Compile(fs, a);
    var fs2 := GoIf(fs1, e1, side).0;
    var (fs3, e3) := Compile(fs2, b);
    var (fs', e') := Compile(fs, if side then And(a, b) else Or(a, b));
    CompileRegs(fs, a);
    WithinSame(fs, fs1, Slots(a), e1.k);
    GoRegs(fs1, e1, side);
    GoIfIs(fs1, e1, side);
    WithinSame(fs1, fs2, 1, e1.k);
    CompileRegs(fs2, b);
    DischargeRegs(fs3, e3);
    JoinIs(fs, a, b, side);
    WithinJoined(fs, fs1, fs2, fs3, fs', Slots(a), Slots(b));
    WithinSame(fs2, fs3, Slots(b), e3.k);
    WithinSame(fs2, fs3, Slots(b), e'.k);
    WithinSame(fs1, fs2, 1, e'.k);
    WithinSame(fs, fs1, Slots(a), e'.k);
  }

  lemma WithinSame(fs: Fs, fs': Fs, n: int, k: Kind)
    requires Within(fs, fs', n)
    ensures fs'.nactvar == fs.nactvar && fs'.freereg == fs.freereg && (Homeless(fs', k) <==> Homeless(fs, k))
  {
  }

  lemma GoIfIs(fs: Fs, e: Exp, side: bool)
    ensures GoIf(fs, e, side) == if side then GoIfTrue(fs, e) else GoIfFalse(fs, e)
  {
  }

  lemma WithinJoined(fs: Fs, fs1: Fs, fs2: Fs, fs3: Fs, fs': Fs, n: int, m: int)
    requires Within(fs, fs1, n) && Within(fs1, fs2, 1) && Within(fs2, fs3, m) && n >= 1
    requires fs'.freereg == fs3.freereg && fs'.maxstack == fs3.maxstack && fs'.nactvar == fs3.nactvar
    ensures Within(fs, fs', Max(n, m))
  {
  }
}
