/**
 Nothing in the code generator takes back a constant or a stack slot, so a limit that holds at
 the end held all the way.
 */
module CodeGenGrows {
  import opened Vm
  import opened CodeGen

  predicate Grows(fs: Fs, fs': Fs) {
    && fs.k <= fs'.k && fs.maxstack <= fs'.maxstack && fs'.nactvar == fs.nactvar
    && (fs.freereg <= fs.maxstack ==> fs'.freereg <= fs'.maxstack)
  }

  lemma AddKGrows(fs: Fs, v: Value)
    ensures Grows(fs, AddK(fs, v).0) && AddK(fs, v).1 <= |fs.k|
  {
  }

  lemma DischargeVarsGrows(fs: Fs, e: Exp)
    ensures Grows(fs, DischargeVars(fs, e).0)
  {
    hide PatchList;
  }

  lemma LoadGrows(fs: Fs, k: Kind, reg: int)
    ensures Grows(fs, Load(fs, k, reg)) && Load(fs, k, reg).maxstack == fs.maxstack
  {
    hide PatchList, FindK;
    if k.VKNum? {
      AddKGrows(fs, Number(k.nval));
    }
  }

  lemma CloseListsGrows(fs: Fs, t: int, f: int, fallsIn: bool, reg: int)
    ensures Grows(fs, CloseLists(fs, t, f, fallsIn, reg)) && CloseLists(fs, t, f, fallsIn, reg).maxstack == fs.maxstack
  {
    hide PatchList, Needs, Concat;
  }

  lemma Discharge2RegGrows(fs: Fs, e: Exp, reg: int)
    ensures Grows(fs, Discharge2Reg(fs, e, reg).0) && Discharge2Reg(fs, e, reg).0.maxstack == fs.maxstack
  {
    hide PatchList, Load;
    var (fs1, e1) := DischargeVars(fs, e);
    LoadGrows(fs1, e1.k, reg);
  }

  lemma Discharge2AnyRegGrows(fs: Fs, e: Exp)
    ensures Grows(fs, Discharge2AnyReg(fs, e).0)
  {
    hide Discharge2Reg;
    Discharge2RegGrows(Reserve(fs), e, fs.freereg);
  }

  lemma Exp2RegGrows(fs: Fs, e: Exp, reg: int)
    ensures Grows(fs, Exp2Reg(fs, e, reg).0) && Exp2Reg(fs, e, reg).0.maxstack == fs.maxstack
  {
    hide Discharge2Reg, CloseLists, Concat;
    Discharge2RegGrows(fs, e, reg);
    var (fs1, e1) := Discharge2Reg(fs, e, reg);
    var (c, t) := if e1.k.VJmp? then Concat(fs1.code, e1.t, e1.k.info) else (fs1.code, e1.t);
    CloseListsGrows(fs1.(code := c), t, e1.f, !e1.k.VJmp?, reg);
  }

  lemma Exp2NextRegGrows(fs: Fs, e: Exp)
    ensures Grows(fs, Exp2NextReg(fs, e).0)
  {
    hide DischargeVars, Exp2Reg;
    DischargeVarsGrows(fs, e);
    var (fs1, e1) := DischargeVars(fs, e);
    var fs2 := Reserve(FreeExp(fs1, e1));
    Exp2RegGrows(fs2, e1, fs2.freereg - 1);
  }

  lemma Exp2AnyRegGrows(fs: Fs, e: Exp)
    ensures Grows(fs, Exp2AnyReg(fs, e).0)
  {
    hide DischargeVars, Exp2Reg, Exp2NextReg;
    DischargeVarsGrows(fs, e);
    var (fs1, e1) := DischargeVars(fs, e);
    Exp2NextRegGrows(fs1, e1);
    if e1.k.VNonReloc? {
      Exp2RegGrows(fs1, e1, e1.k.info);
    }
  }

  lemma Exp2ValGrows(fs: Fs, e: Exp)
    ensures Grows(fs, Exp2Val(fs, e).0)
  {
    hide DischargeVars, Exp2AnyReg;
    DischargeVarsGrows(fs, e);
    Exp2AnyRegGrows(fs, e);
  }

  /** From the value of an operand to the operand. */
  lemma Exp2RKGrows(fs: Fs, e: Exp)
    ensures Grows(fs, Exp2Val(fs, e).0) && Grows(Exp2Val(fs, e).0, Exp2RK(fs, e).0) && Grows(fs, Exp2RK(fs, e).0)
  {
    hide Exp2Val, Exp2AnyReg, AddK;
    Exp2ValGrows(fs, e);
    var (fs1, e1) := Exp2Val(fs, e);
    Exp2AnyRegGrows(fs1, e1);
    if e1.k.VNil? || e1.k.VTrue? || e1.k.VFalse? || e1.k.VKNum? {
      AddKGrows(fs1, ConstantOf(e1.k));
    }
  }

  lemma JumpOnCondGrows(fs: Fs, e: Exp, cond: bool)
    ensures Grows(fs, JumpOnCond(fs, e, cond).0)
  {
    hide PatchList, Concat, Discharge2AnyReg;
    Discharge2AnyRegGrows(fs, e);
  }

  lemma GoIfTrueGrows(fs: Fs, e: Exp)
    ensures Grows(fs, DischargeVars(fs, e).0) && Grows(DischargeVars(fs, e).0, GoIfTrue(fs, e).0) && Grows(fs, GoIfTrue(fs, e).0)
  {
    hide PatchList, Concat, DischargeVars, JumpOnCond;
    DischargeVarsGrows(fs, e);
    JumpOnCondGrows(DischargeVars(fs, e).0, DischargeVars(fs, e).1, false);
  }

  lemma GoIfFalseGrows(fs: Fs, e: Exp)
    ensures Grows(fs, DischargeVars(fs, e).0) && Grows(DischargeVars(fs, e).0, GoIfFalse(fs, e).0) && Grows(fs, GoIfFalse(fs, e).0)
  {
    hide PatchList, Concat, DischargeVars, JumpOnCond;
    DischargeVarsGrows(fs, e);
    JumpOnCondGrows(DischargeVars(fs, e).0, DischargeVars(fs, e).1, true);
  }

  lemma CodeNotGrows(fs: Fs, e: Exp)
    ensures Grows(fs, DischargeVars(fs, e).0) && Grows(DischargeVars(fs, e).0, CodeNot(fs, e).0) && Grows(fs, CodeNot(fs, e).0)
  {
    hide PatchList, DischargeVars, Discharge2AnyReg, RemoveAll;
    DischargeVarsGrows(fs, e);
    Discharge2AnyRegGrows(DischargeVars(fs, e).0, DischargeVars(fs, e).1);
  }

  lemma CodeCompGrows(fs: Fs, op: BinCmp, e1: Exp, e2: Exp)
    ensures var fs1 := Exp2RK(fs, e1).0;
            var fs2 := Exp2RK(fs1, e2).0;
            Grows(fs, fs1) && Grows(fs1, fs2) && Grows(fs2, CodeComp(fs, op, e1, e2).0) && Grows(fs, CodeComp(fs, op, e1, e2).0)
  {
    hide PatchList, Exp2RK, Concat;
    Exp2RKGrows(fs, e1);
    Exp2RKGrows(Exp2RK(fs, e1).0, e2);
  }

  lemma {:induction false} CompileGrows(fs: Fs, x: Expr)
    ensures Grows(fs, Compile(fs, x).0)
    decreases x
  {
    hide DischargeVars, CodeNot, GoIfTrue, GoIfFalse, Exp2RK, CodeComp, AddK, Concat;
    match x {
      case StringLit(id) => AddKGrows(fs, Other(id));
      case Paren(a) =>
        CompileGrows(fs, a);
        DischargeVarsGrows(Compile(fs, a).0, Compile(fs, a).1);
      case NotE(a) =>
        CompileGrows(fs, a);
        CodeNotGrows(Compile(fs, a).0, Compile(fs, a).1);
      case And(a, b) =>
        CompileGrows(fs, a);
        var (fs1, e1) := Compile(fs, a);
        GoIfTrueGrows(fs1, e1);
        var fs2 := GoIfTrue(fs1, e1).0;
        CompileGrows(fs2, b);
        DischargeVarsGrows(Compile(fs2, b).0, Compile(fs2, b).1);
      case Or(a, b) =>
        CompileGrows(fs, a);
        var (fs1, e1) := Compile(fs, a);
        GoIfFalseGrows(fs1, e1);
        var fs2 := GoIfFalse(fs1, e1).0;
        CompileGrows(fs2, b);
        DischargeVarsGrows(Compile(fs2, b).0, Compile(fs2, b).1);
      case CmpE(op, a, b) =>
        CompileGrows(fs, a);
        var (fs1, e1) := Compile(fs, a);
        Exp2RKGrows(fs1, e1);
        var (fs2, e1') := Exp2RK(fs1, e1);
        CompileGrows(fs2, b);
        CodeCompGrows(Compile(fs2, b).0, op, e1', Compile(fs2, b).1);
      case _ =>
    }
  }
}
