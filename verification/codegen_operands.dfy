/**
 Operands: luaK_dischargevars, luaK_exp2nextreg, luaK_exp2anyreg, luaK_exp2val and luaK_exp2RK
 keep the value of an expression while they bring it into the form its user asks for.
 */
module CodeGenOperands {
  import opened Vm
  import opened CodeGen
  import opened CodeGenSem
  import opened CodeGenValues
  import opened CodeGenRegs
  import opened CodeGenGrows
  import opened CodeGenYield
  import opened CodeGenForm
  import opened Sequences

  /** `luaK_checkstack` refuses to go beyond this. */
  const MAXSTACK := 250

  /** Registers and constants are bookkeeping: the code does not see them change. */
  lemma HoldsRegs(fs: Fs, fs': Fs, e: Exp, ls: Ls, outer: set<int>, g: Env, r: Regs, b: Outcome, y: Res, top: int)
    requires Holds(fs, e, ls, outer, g, r, b, y, top)
    requires fs' == fs.(freereg := fs'.freereg, maxstack := fs'.maxstack) && fs.maxstack <= fs'.maxstack
    ensures Holds(fs', e, ls, outer, g, r, b, y, top) && Kept(fs, fs', outer)
  {
    hide Listed, CodeOk, Meets, Exec;
  }

  lemma DischargeVarsGood(fs: Fs, e: Exp, ls: Ls, outer: set<int>, g: Env, r: Regs, b: Outcome, y: Res, top: int)
    returns (ls': Ls)
    requires Holds(fs, e, ls, outer, g, r, b, y, top) && Sized(fs, e.k, top)
    ensures var (fs', e') := DischargeVars(fs, e);
            && Holds(fs', e', ls', outer, g, r, b, Fetch(Ends(fs.code, e.k), y), top) && Sized(fs', e'.k, top)
            && Kept(fs, fs', outer) && Discharged(e'.k) && e'.t == e.t && e'.f == e.f
            && fs'.maxstack == fs.maxstack && fs'.k == fs.k
            && MarksIn(fs'.code, ls') == FetchMarks(Ends(fs.code, e.k), MarksIn(fs.code, ls))
  {
    hide Listed, CodeOk, Meets, Exec, CleanStart, MarksIn;
    ls' := ls;
    match e.k {
      case VGlobal(n) =>
        ls' := ls.(j := []);
        GlobalGood(fs, e, ls, outer, g, r, b, y, top);
        CleanKept(fs, Emit(fs, GetGlobal(0, n)), outer, r);
      case VLocal(i) =>
        LocalGood(fs, e, ls, outer, g, r, b, y, top);
        KeptRefl(fs, outer);
      case _ =>
        KeptRefl(fs, outer);
    }
  }

  lemma LocalGood(fs: Fs, e: Exp, ls: Ls, outer: set<int>, g: Env, r: Regs, b: Outcome, y: Res, top: int)
    requires Ok(fs, e, ls, outer) && Good(fs, e, ls, outer, g, r, b, y, top) && e.k.VLocal?
    ensures var e' := e.(k := VNonReloc(e.k.info)); Ok(fs, e', ls, outer) && Good(fs, e', ls, outer, g, r, b, y, top)
  {
    hide Listed, CodeOk, Exec, CarryAt, SameBelow;
  }

  /** An instruction that still waits for its register is appended. */
  lemma EmitReloc(fs: Fs, e: Exp, ls: Ls, outer: set<int>, i: Instr, g: Env, r: Regs)
    requires Ok(fs, e, ls, outer) && !e.k.VReloc? && !e.k.VJmp? && (i.GetGlobal? || i.Not?)
    ensures var fs' := Emit(fs, i);
            var e' := e.(k := VReloc(|fs.code|));
            var ls' := ls.(j := []);
            && Ok(fs', e', ls', outer) && Kept(fs, fs', outer) && ListsKept(fs.code, fs'.code, ls)
            && |fs'.code| == |fs.code| + 1 && fs'.code[|fs.code|] == i
            && Raw(fs', e'.k, ls', outer, g, r) == Run(fs, e.k, ls, outer, g, r) && SetOf(ls.j) !! outer
  {
    hide Listed, Wf, Targets, Exec, OuterSame, Patched, ListsKept, PatchList;
    var fs', e', ls' := Emit(fs, i), e.(k := VReloc(|fs.code|)), ls.(j := []);
    EmitOk(fs, e.t, e.f, ls, outer, i);
    SettledPatched(fs, e.t, e.f, ls, outer);
    SettledRuns(fs, e.t, e.f, ls, outer, g, r);
    ListsKeptIs(fs.code, fs'.code, e.t, e.f, fs.jpc, ls, outer);
    assert Body(fs', e'.k) == Settled(fs);
    NormNone(Exec(Settled(fs), Open(ls', outer), g, 0, r));
  }

  /** A global is fetched by such an instruction. */
  lemma GlobalGood(fs: Fs, e: Exp, ls: Ls, outer: set<int>, g: Env, r: Regs, b: Outcome, y: Res, top: int)
    requires Ok(fs, e, ls, outer) && Good(fs, e, ls, outer, g, r, b, y, top) && e.k.VGlobal?
    ensures var fs' := Emit(fs, GetGlobal(0, e.k.info));
            var e' := e.(k := VReloc(|fs.code|));
            var ls' := ls.(j := []);
            && Ok(fs', e', ls', outer) && Good(fs', e', ls', outer, g, r, b, Drop(y), top) && Kept(fs, fs', outer)
            && MarksIn(fs'.code, ls') == MarksIn(fs.code, ls).(j := false)
  {
    hide Ok, Raw, Meets, GoesOn, ListsKept, Emit, Kept, MarksIn;
    var i := GetGlobal(0, e.k.info);
    var fs', e', ls' := Emit(fs, i), e.(k := VReloc(|fs.code|)), ls.(j := []);
    EmitReloc(fs, e, ls, outer, i, g, r);
    KeptMarks(fs.code, fs'.code, ls);
    var o := Raw(fs, e.k, ls, outer, g, r);
    SameGoesOn(g, fs.code, e.k, fs'.code, e'.k, y, top, Norm(o, ls.j));
    MeetsGoesOn(fs.code, fs'.code, e.k, e'.k, ls, ls', g, b, y, top, o, Norm(o, ls.j));
  }

  lemma NormNone(o: Outcome)
    ensures Norm(o, []) == o
  {
  }

  lemma SameGoesOn(g: Env, c: Code, k: Kind, c': Code, k': Kind, y: Res, top: int, o: Outcome)
    requires k.VGlobal? && k'.VReloc? && 0 <= k'.info < |c'| && c'[k'.info] == GetGlobal(0, k.info)
    ensures GoesOn(g, c, k, c', k', y, top, o, o)
  {
  }

  /** `discharge2anyreg`, for what is not a comparison: no list is closed. */
  lemma Discharge2AnyRegGood(fs: Fs, e: Exp, ls: Ls, outer: set<int>, g: Env, r: Regs, b: Outcome, y: Res, top: int)
    returns (ls': Ls)
    requires Holds(fs, e, ls, outer, g, r, b, y, top) && Sized(fs, e.k, top) && Discharged(e.k) && !e.k.VJmp?
    requires Discharge2AnyReg(fs, e).0.k <= g.k
    ensures var (fs', e') := Discharge2AnyReg(fs, e);
            && Holds(fs', e', ls', outer, g, r, b, if e.k.VNonReloc? then y else Drop(y), top) && Sized(fs', e'.k, top)
            && Kept(fs, fs', outer) && e' == e.(k := e'.k) && e'.k.VNonReloc?
            && MarksIn(fs'.code, ls') == (if e.k.VNonReloc? then MarksIn(fs.code, ls) else MarksIn(fs.code, ls).(j := false))
  {
    hide Listed, CodeOk, Meets, Exec, CleanStart, OuterSame, Ok, Good, Load, MarksIn;
    ls' := ls;
    if e.k.VNonReloc? {
      KeptRefl(fs, outer);
    } else {
      var fs1 := Reserve(fs);
      HoldsRegs(fs, fs1, e, ls, outer, g, r, b, y, top);
      LoadGood(fs1, e, ls, outer, fs.freereg, g, r, b, y, top);
      ls' := AfterLoad(e.k, fs.freereg, ls);
      var fs2 := Load(fs1, e.k, fs.freereg);
      KeptTrans(fs, fs1, fs2, outer);
      CleanKept(fs, fs2, outer, r);
    }
  }

  /** `luaK_exp2nextreg` */
  lemma Exp2NextRegGood(fs: Fs, e: Exp, ls: Ls, outer: set<int>, g: Env, r: Regs, b: Outcome, y: Res, top: int)
    returns (ls': Ls)
    requires Holds(fs, e, ls, outer, g, r, b, y, top) && Sized(fs, e.k, top)
    requires Exp2NextReg(fs, e).0.k <= g.k && Exp2NextReg(fs, e).0.maxstack < MAXSTACK
    ensures var (fs', e') := Exp2NextReg(fs, e);
            && Holds(fs', e', ls', outer, g, r, b, InReg(e.k, top, y), top) && Kept(fs, fs', outer)
            && e' == Leaf(VNonReloc(top)) && fs'.freereg == top + 1
            && (SetIn(fs'.code, ls'.j) <==> e.k == VNonReloc(top) && SetIn(fs.code, ls.j))
  {
    hide Listed, CodeOk, Meets, Exec, CleanStart, OuterSame, Ok, Good, DischargeVars, Exp2Reg, SetIn, Exp2RegLs;
    var (fs1, e1) := DischargeVars(fs, e);
    var y1 := Fetch(Ends(fs.code, e.k), y);
    var ls1 := DischargeVarsGood(fs, e, ls, outer, g, r, b, y, top);
    var fs2 := Reserve(FreeExp(fs1, e1));
    HoldsRegs(fs1, fs2, e1, ls1, outer, g, r, b, y1, top);
    KeptTrans(fs, fs1, fs2, outer);
    Exp2RegGrows(fs2, e1, top);
    Exp2RegGood(fs2, e1, ls1, outer, top, g, r, b, y1, top);
    FetchedInReg(fs, e, y, top);
    FetchedKind(fs, e, top);
    ls' := Exp2RegLs(fs2, e1, top, ls1);
    KeptTrans(fs, fs2, Exp2Reg(fs2, e1, top).0, outer);
  }

  lemma FetchedKind(fs: Fs, e: Exp, top: int)
    requires e.k.VLocal? ==> e.k.info < top
    ensures DischargeVars(fs, e).1.k == VNonReloc(top) <==> e.k == VNonReloc(top)
    ensures Ends(fs.code, e.k).EndsGlobal? <==> e.k.VGlobal?
  {
  }

  lemma FetchedInReg(fs: Fs, e: Exp, y: Res, top: int)
    requires e.k.VLocal? ==> e.k.info < top
    ensures InReg(DischargeVars(fs, e).1.k, top, Fetch(Ends(fs.code, e.k), y)) == InReg(e.k, top, y)
  {
  }

  /** An expression that `luaK_exp2anyreg` finds in its register. */
  predicate Registered(fs: Fs, e: Exp) {
    || (e.k.VNonReloc? && (e.t == e.f || e.k.info >= fs.nactvar))
    || (e.k.VLocal? && e.t == e.f)
  }

  function InAnyReg(fs: Fs, e: Exp, y: Res): Res {
    if Registered(fs, e) then Brought(y) else Ready(y)
  }

  /** `luaK_exp2anyreg` */
  lemma Exp2AnyRegGood(fs: Fs, e: Exp, ls: Ls, outer: set<int>, g: Env, r: Regs, b: Outcome, y: Res, top: int)
    returns (ls': Ls)
    requires Holds(fs, e, ls, outer, g, r, b, y, top) && Sized(fs, e.k, top)
    requires Exp2AnyReg(fs, e).0.k <= g.k && Exp2AnyReg(fs, e).0.maxstack < MAXSTACK
    requires fs.freereg <= fs.maxstack
    ensures var (fs', e') := Exp2AnyReg(fs, e);
            && Holds(fs', e', ls', outer, g, r, b, InAnyReg(fs, e, y), top) && Kept(fs, fs', outer) && Sized(fs', e'.k, top)
            && e' == Leaf(e'.k) && e'.k.VNonReloc?
            && (SetIn(fs'.code, ls'.j) <==> Registered(fs, e) && SetIn(fs.code, ls.j))
  {
    hide Listed, CodeOk, Meets, Exec, CleanStart, OuterSame, Good, DischargeVars, Exp2Reg, Exp2NextReg, SetIn;
    var (fs1, e1) := DischargeVars(fs, e);
    var y1 := Fetch(Ends(fs.code, e.k), y);
    var ls1 := DischargeVarsGood(fs, e, ls, outer, g, r, b, y, top);
    FetchedInAny(fs, e, y, top);
    FetchedRegister(fs, e, top);
    if e1.k.VNonReloc? && e1.t == e1.f {
      NoJumps(fs1.code, e1.t, e1.f, fs1.jpc, ls1, outer);
      ls' := ls1;
      BroughtAlready(fs1, e1, ls1, outer, g, r, b, y1, top);
    } else if e1.k.VNonReloc? && e1.k.info >= fs1.nactvar {
      Exp2RegGrows(fs1, e1, top);
      Exp2RegGood(fs1, e1, ls1, outer, top, g, r, b, y1, top);
      ls' := Exp2RegLs(fs1, e1, top, ls1);
      KeptTrans(fs, fs1, Exp2Reg(fs1, e1, top).0, outer);
    } else {
      ls' := Exp2NextRegGood(fs1, e1, ls1, outer, g, r, b, y1, top);
      KeptTrans(fs, fs1, Exp2NextReg(fs1, e1).0, outer);
    }
  }

  lemma FetchedRegister(fs: Fs, e: Exp, top: int)
    requires Sized(fs, e.k, top)
    ensures var e1 := DischargeVars(fs, e).1;
            && (Registered(fs, e) <==> (e1.k.VNonReloc? && e1.t == e1.f) || e1.k == VNonReloc(top))
            && (Ends(fs.code, e.k).EndsGlobal? ==> !e1.k.VNonReloc?)
  {
  }

  lemma FetchedInAny(fs: Fs, e: Exp, y: Res, top: int)
    requires Sized(fs, e.k, top)
    ensures var e1 := DischargeVars(fs, e).1;
            var y1 := Fetch(Ends(fs.code, e.k), y);
            InAnyReg(fs, e, y) == if e1.k.VNonReloc? && e1.t == e1.f then Brought(y1) else InReg(e1.k, top, y1)
  {
    hide Emit;
  }

  /** An expression without jumps is not left by one. */
  lemma BroughtAlready(fs: Fs, e: Exp, ls: Ls, outer: set<int>, g: Env, r: Regs, b: Outcome, y: Res, top: int)
    requires Holds(fs, e, ls, outer, g, r, b, y, top) && ls.t == [] && ls.f == []
    ensures Holds(fs, e, ls, outer, g, r, b, Brought(y), top)
  {
    hide Ok, Exec, CleanStart;
  }

  function InVal(fs: Fs, e: Exp, y: Res): Res {
    if e.t != e.f then InAnyReg(fs, e, y) else Brought(Fetch(Ends(fs.code, e.k), y))
  }

  /** `luaK_exp2val` */
  lemma Exp2ValGood(fs: Fs, e: Exp, ls: Ls, outer: set<int>, g: Env, r: Regs, b: Outcome, y: Res, top: int)
    returns (ls': Ls)
    requires Holds(fs, e, ls, outer, g, r, b, y, top) && Sized(fs, e.k, top)
    requires Exp2Val(fs, e).0.k <= g.k && Exp2Val(fs, e).0.maxstack < MAXSTACK
    requires fs.freereg <= fs.maxstack
    ensures var (fs', e') := Exp2Val(fs, e);
            && Holds(fs', e', ls', outer, g, r, b, InVal(fs, e, y), top) && Kept(fs, fs', outer) && Sized(fs', e'.k, top)
            && e' == Leaf(e'.k) && Discharged(e'.k)
            && (SetIn(fs'.code, ls'.j) <==> (if e.t != e.f then Registered(fs, e) else !e.k.VGlobal?) && SetIn(fs.code, ls.j))
  {
    hide Listed, CodeOk, Meets, Exec, CleanStart, OuterSame, Good, DischargeVars, Exp2AnyReg, SetIn;
    if e.t != e.f {
      ls' := Exp2AnyRegGood(fs, e, ls, outer, g, r, b, y, top);
    } else {
      ls' := DischargeVarsGood(fs, e, ls, outer, g, r, b, y, top);
      var (fs1, e1) := DischargeVars(fs, e);
      NoJumps(fs.code, e.t, e.f, fs.jpc, ls, outer);
      NoJumps(fs1.code, e1.t, e1.f, fs1.jpc, ls', outer);
      BroughtAlready(fs1, e1, ls', outer, g, r, b, Fetch(Ends(fs.code, e.k), y), top);
    }
  }

  predicate IsRk(k: Kind) {
    k.VNonReloc? || (k.VK? && k.info <= MAXINDEXRK)
  }

  lemma AddKSmall(fs: Fs, v: Value)
    ensures AddK(fs, v).1 <= |fs.k| && AddK(fs, v).0 == fs.(k := AddK(fs, v).0.k) && fs.k <= AddK(fs, v).0.k
  {
  }

  /** An operand that `luaK_exp2RK` finds in place, or makes a constant. */
  predicate OperandStays(fs: Fs, e: Exp) {
    || Registered(fs, e)
    || (e.t == e.f && e.k.VK? && e.k.info <= MAXINDEXRK)
    || (e.t == e.f && (e.k.VNil? || e.k.VTrue? || e.k.VFalse? || e.k.VKNum?) && |fs.k| <= MAXINDEXRK)
  }

  function AsOperand(fs: Fs, e: Exp, y: Res): Res {
    if OperandStays(fs, e) then Brought(y) else Ready(y)
  }

  /** `luaK_exp2RK`: the operand of an instruction. */
  lemma Exp2RKGood(fs: Fs, e: Exp, ls: Ls, outer: set<int>, g: Env, r: Regs, b: Outcome, y: Res, top: int)
    returns (ls': Ls)
    requires Holds(fs, e, ls, outer, g, r, b, y, top) && Sized(fs, e.k, top)
    requires Exp2RK(fs, e).0.k <= g.k && Exp2RK(fs, e).0.maxstack < MAXSTACK
    requires fs.freereg <= fs.maxstack
    ensures var (fs', e') := Exp2RK(fs, e);
            && Holds(fs', e', ls', outer, g, r, b, AsOperand(fs, e, y), top) && Kept(fs, fs', outer) && Sized(fs', e'.k, top)
            && e' == Leaf(e'.k) && IsRk(e'.k)
            && (SetIn(fs'.code, ls'.j) <==> OperandStays(fs, e) && SetIn(fs.code, ls.j))
  {
    hide Listed, CodeOk, Meets, Exec, CleanStart, OuterSame, Good, Exp2Val, Exp2AnyReg, AddK, InVal, InAnyReg, AsOperand, SetIn;
    var (fs1, e1) := Exp2Val(fs, e);
    var y1 := InVal(fs, e, y);
    Exp2RKGrows(fs, e);
    ls' := Exp2ValGood(fs, e, ls, outer, g, r, b, y, top);
    ValAsOperand(fs, e, y, top);
    if (e1.k.VNil? || e1.k.VTrue? || e1.k.VFalse? || e1.k.VKNum?) && |fs1.k| <= MAXINDEXRK {
      var x := ConstantOf(e1.k);
      var (fs2, i) := AddK(fs1, x);
      AddKSmall(fs1, x);
      AddKGood(fs1, e1, ls', outer, x, g, r, b, y1, top);
      ConstantGood(fs2, e1, ls', outer, g, r, b, y1, top, i);
      KeptTrans(fs, fs1, fs2, outer);
      CleanKept(fs1, fs2, outer, r);
    } else if !(e1.k.VK? && e1.k.info <= MAXINDEXRK) {
      ls' := Exp2AnyRegGood(fs1, e1, ls', outer, g, r, b, y1, top);
      KeptTrans(fs, fs1, Exp2AnyReg(fs1, e1).0, outer);
    }
  }

  lemma AnyIsRegister(fs: Fs, e: Exp)
    ensures Exp2AnyReg(fs, e).1.k.VNonReloc?
  {
    hide Emit, Load, CloseLists, Concat;
  }

  lemma ValAsOperand(fs: Fs, e: Exp, y: Res, top: int)
    requires Sized(fs, e.k, top) && Exp2Val(fs, e).1 == Leaf(Exp2Val(fs, e).1.k)
    ensures var (fs1, e1) := Exp2Val(fs, e);
            AsOperand(fs, e, y) ==
              if ((e1.k.VNil? || e1.k.VTrue? || e1.k.VFalse? || e1.k.VKNum?) && |fs1.k| <= MAXINDEXRK) || (e1.k.VK? && e1.k.info <= MAXINDEXRK)
              then InVal(fs, e, y) else InAnyReg(fs1, e1, InVal(fs, e, y))
    ensures var (fs1, e1) := Exp2Val(fs, e);
            OperandStays(fs, e) <==>
              (if e.t != e.f then Registered(fs, e) else !e.k.VGlobal?) &&
              (((e1.k.VNil? || e1.k.VTrue? || e1.k.VFalse? || e1.k.VKNum?) && |fs1.k| <= MAXINDEXRK) || (e1.k.VK? && e1.k.info <= MAXINDEXRK)
               || Registered(fs1, e1))
  {
    hide Emit, Exp2AnyReg;
    var (fs1, e1) := Exp2Val(fs, e);
    if e.t != e.f {
      AnyIsRegister(fs, e);
      assert e1.k.VNonReloc?;
      assert e1.t == e1.f;
      assert Registered(fs1, e1);
    } else if e.k.VGlobal? {
      assert !OperandStays(fs, e);
      assert !Registered(fs1, e1);
    } else if e.k.VLocal? {
      assert OperandStays(fs, e);
    } else {
      assert fs1 == fs && e1 == e;
    }
  }

  lemma ConstantGood(fs: Fs, e: Exp, ls: Ls, outer: set<int>, g: Env, r: Regs, b: Outcome, y: Res, top: int, i: int)
    requires Ok(fs, e, ls, outer) && Good(fs, e, ls, outer, g, r, b, y, top)
    requires (e.k.VNil? || e.k.VTrue? || e.k.VFalse? || e.k.VKNum?) && Const(g, i) == ConstantOf(e.k)
    ensures var e' := e.(k := VK(i)); Ok(fs, e', ls, outer) && Good(fs, e', ls, outer, g, r, b, y, top)
  {
    hide Listed, CodeOk, Exec, CarryAt, SameBelow;
  }
}
