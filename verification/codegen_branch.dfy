/**
 luaK_goiftrue, luaK_goiffalse and codenot, for every kind of expression.
 */
module CodeGenBranch {
  import opened Vm
  import opened CodeGen
  import opened CodeGenLists
  import opened CodeGenSem
  import opened CodeGenValues
  import opened CodeGenClose
  import opened CodeGenRegs
  import opened CodeGenOperands
  import opened CodeGenCond
  import opened CodeGenTests
  import opened CodeGenYield
  import opened CodeGenForm
  import opened Sequences

  // ------------------------------------------------------------- jumponcond

  /** The runs of the code in front of a test, and what the test finds. */
  ghost predicate TestFinds(g: Env, c: Code, i: Instr, ls: Ls, b: Outcome, w: Way, side: bool, top: int, o: Outcome)
    requires i.IsTest()
  {
    match b
    case Fall(r0) =>
      (match o
       case Fall(q) => SameBelow(r0, q, top) &&
         w == (if Jumps(g, i, q) then Leaves(if i.TestSet? then Carried(Get(q, i.b)) else Bare) else Arrives(Bare))
       case Exit(j, r) => SameBelow(r0, r, top) && 0 <= j < |c| &&
         (|| (j in (if side then ls.t else ls.f) && w == Arrives(CarryAt(c, j, r)))
          || (j in (if side then ls.f else ls.t) && w == Leaves(CarryAt(c, j, r))))
       case Stuck => false)
    case _ => o == b
  }

  lemma TestForks(g: Env, c: Code, i: Instr, ls: Ls, b: Outcome, w: Way, side: bool, top: int, o: Outcome)
    requires i.IsTest() && TestFinds(g, c, i, ls, b, w, side, top, o)
    ensures Forks(Tested(c, i), ls, [|c| + 1], b, w, side, top, Split(g, i, |c| + 1, o))
  {
    var c' := Tested(c, i);
    assert c'[|c|] == i && c'[|c| + 1].Jmp?;
    assert forall j :: 0 <= j < |c| ==> c'[j] == c[j];
  }

  lemma TestedForked(fs: Fs, c: Code, i: Instr, e: Exp, ls: Ls, outer: set<int>, g: Env, r: Regs, b: Outcome, w: Way,
                     side: bool, top: int)
    requires Listed(c, e.t, e.f, NO_JUMP, ls, outer) && CodeOk(c, Open(ls, outer), fs.lasttarget, []) && i.IsTest() && ls.j == []
    requires TestFinds(g, c, i, ls, b, w, side, top, Exec(c, Open(ls, outer), g, 0, r))
    requires (b.Exit? ==> b.j in outer) && fs.code == Tested(c, i) && fs.jpc == NO_JUMP
    ensures Forked(fs, e, ls, |c| + 1, [|c| + 1], outer, g, r, b, w, side, top)
  {
    hide Wf, Targets, Exec, TestFinds, Forks;
    var n := |c| + 1;
    TestAppended(c, i, Open(ls, outer), fs.lasttarget, g, r);
    TestForks(g, c, i, ls, b, w, side, top, Exec(c, Open(ls, outer), g, 0, r));
    ListInCode(c, e.t, ls.t);
    ListInCode(c, e.f, ls.f);
    ListFrame(c, fs.code, e.t, ls.t);
    ListFrame(c, fs.code, e.f, ls.f);
    LastAlone(fs.code, n);
    NotInWf(c, Open(ls, outer), n);
    ListedParts(c, e.t, e.f, NO_JUMP, ls, outer);
    JumpApart(ls, outer, n);
  }

  lemma NotInWf(c: Code, open: set<int>, n: int)
    requires Wf(c, open) && n >= |c|
    ensures n !in open
  {
  }

  lemma CondJumpIs(fs: Fs, i: Instr)
    ensures CondJump(fs, i) ==
              (fs.(code := Tested(Settled(fs), i), jpc := NO_JUMP), |Settled(fs)| + 1)
  {
    var fs1 := Emit(fs, i);
    assert fs1.code + [Jmp(NO_JUMP)] == Tested(Settled(fs), i);
  }

  /** The operand of a NOT that was just emitted. */
  predicate JustNot(fs: Fs, k: Kind) {
    k.VReloc? && 0 <= k.info < |fs.code| && fs.code[k.info].Not?
  }

  /** `jumponcond` takes the NOT back and tests its operand for the opposite. */
  lemma NotForks(fs: Fs, e: Exp, ls: Ls, outer: set<int>, g: Env, r: Regs, b: Outcome, y: Res, side: bool, top: int)
    requires Holds(fs, e, ls, outer, g, r, b, y, top) && JustNot(fs, e.k)
    ensures var (fs', pc) := JumpOnCond(fs, e, !side);
            Forked(fs', e, ls, pc, [pc], outer, g, r, b, Tests(EndsNot, side, y), side, top) && Kept(fs, fs', outer) &&
            fs'.freereg == fs.freereg && MarksIn(fs'.code, ls) == MarksIn(fs.code, ls).(j := false) && !SetIn(fs'.code, [pc])
  {
    hide Wf, Targets, Exec, Meets, OuterSame, Forked, TestFinds, CleanStart;
    var c, i := Body(fs, e.k), Test(fs.code[e.k.info].b, side);
    var fs1 := fs.(code := c);
    NotTaken(fs, e, ls, outer);
    SettledNothing(fs1);
    CondJumpIs(fs1, i);
    var fs' := CondJump(fs1, i).0;
    NotFinds(g, fs.code, c, i, e.k, ls, b, y, side, top, Exec(c, Open(ls, outer), g, 0, r));
    TestedForked(fs', c, i, e, ls, outer, g, r, b, Tests(EndsNot, side, y), side, top);
    NotOuter(fs.code, c, i, Open(ls, outer), outer);
    NotMarks(fs.code, c, i, ls);
  }

  lemma NotMarks(c0: Code, c: Code, i: Instr, ls: Ls)
    requires |c0| == |c| + 1 && c0[..|c|] == c && ls.j == [] && i.Test?
    requires forall j :: j in ls.t || j in ls.f ==> 0 <= j < |c|
    ensures MarksIn(Tested(c, i), ls) == MarksIn(c0, ls).(j := false) && !SetIn(Tested(c, i), [|c| + 1])
  {
    assert Tested(c, i)[..|c|] == c;
    PrefixMarks(c, c0, ls.t);
    PrefixMarks(c, c0, ls.f);
    PrefixMarks(c, Tested(c, i), ls.t);
    PrefixMarks(c, Tested(c, i), ls.f);
  }

  lemma SettledNothing(fs: Fs)
    requires fs.jpc == NO_JUMP
    ensures Settled(fs) == fs.code
  {
    assert ListOf(fs.code, NO_JUMP) == [];
  }

  lemma NotTaken(fs: Fs, e: Exp, ls: Ls, outer: set<int>)
    requires Ok(fs, e, ls, outer) && JustNot(fs, e.k)
    ensures var c := Body(fs, e.k);
            && fs.code == c + [fs.code[e.k.info]] && |c| == e.k.info && fs.code[..|fs.code| - 1] == c && ls.j == [] && fs.jpc == NO_JUMP
            && Listed(c, e.t, e.f, NO_JUMP, ls, outer) && CodeOk(c, Open(ls, outer), fs.lasttarget, [])
            && CodeOk(c, AllOpen(e.k, ls, outer), fs.lasttarget, [])
            && forall j :: j in ls.t || j in ls.f ==> 0 <= j < |c|
  {
    hide Wf, Targets;
    var c := Body(fs, e.k);
    ListInCode(fs.code, e.t, ls.t);
    ListInCode(fs.code, e.f, ls.f);
    ListFrame(fs.code, c, e.t, ls.t);
    ListFrame(fs.code, c, e.f, ls.f);
  }

  lemma NotFinds(g: Env, c0: Code, c: Code, i: Instr, k: Kind, ls: Ls, b: Outcome, y: Res, side: bool, top: int, o: Outcome)
    requires k.VReloc? && 0 <= k.info < |c0| && c0[k.info].Not? && c == c0[..k.info] && i == Test(c0[k.info].b, side)
    requires Meets(c0, k, ls, g, b, y, top, o) && ls.j == []
    requires forall j :: j in ls.t || j in ls.f ==> 0 <= j < |c|
    ensures TestFinds(g, c, i, ls, b, Tests(EndsNot, side, y), side, top, o)
  {
    assert forall j :: 0 <= j < |c| ==> c[j] == c0[j];
  }

  lemma NotOuter(c0: Code, c: Code, i: Instr, open: set<int>, outer: set<int>)
    requires |c0| == |c| + 1 && c0[..|c|] == c && Wf(c, open) && outer <= open
    ensures OuterSame(c0, Tested(c, i), outer)
  {
    PrefixSame(c, c0);
    var c' := Tested(c, i);
    forall j | j in outer && 0 <= j < |c0|
      ensures SameJump(c0, c', j)
    {
      assert j in open;
    }
  }

  /** The value is in a register: it is tested there, and a jump can take it along. */
  lemma RegisterForks(fs: Fs, e: Exp, ls: Ls, outer: set<int>, g: Env, r: Regs, b: Outcome, y: Res, side: bool, top: int)
    requires Holds(fs, e, ls, outer, g, r, b, y, top) && e.k.VNonReloc?
    ensures var (fs', pc) := CondJump(fs, TestSet(NO_REG, e.k.info, !side));
            && pc == |fs.code| + 1
            && Forked(fs', e, ls.(j := []), pc, [pc], outer, g, r, b, Tests(EndsRegister, side, y), side, top) && Kept(fs, fs', outer)
            && MarksIn(fs'.code, ls.(j := [])) == MarksIn(fs.code, ls).(j := false) && SetIn(fs'.code, [pc])
  {
    hide Wf, Targets, Exec, Meets, OuterSame, Forked, TestFinds, CleanStart, Listed;
    var i, c, ls' := TestSet(NO_REG, e.k.info, !side), Settled(fs), ls.(j := []);
    CondJumpIs(fs, i);
    var fs' := CondJump(fs, i).0;
    SettledPatched(fs, e.t, e.f, ls, outer);
    SettledLists(fs, e.t, e.f, ls, outer);
    SettledRuns(fs, e.t, e.f, ls, outer, g, r);
    ListsKeptIs(fs.code, c, e.t, e.f, fs.jpc, ls, outer);
    SetFinds(g, fs.code, c, i, e.k, ls, b, y, side, top, Raw(fs, e.k, ls, outer, g, r));
    TestedForked(fs', c, i, e, ls', outer, g, r, b, Tests(EndsRegister, side, y), side, top);
    PrefixOuter(c, fs'.code, outer);
    OuterSameTrans(fs.code, c, fs'.code, outer);
    KeptMarks(fs.code, c, ls);
    BaseApart(fs, e.t, e.f, ls, outer, b);
    SetMarks(c, i, ls.(j := []));
  }

  lemma SetMarks(c: Code, i: Instr, ls: Ls)
    requires i.TestSet? && ls.j == [] && forall j :: j in ls.t || j in ls.f ==> 0 <= j < |c|
    ensures MarksIn(Tested(c, i), ls) == MarksIn(c, ls) && SetIn(Tested(c, i), [|c| + 1])
  {
    assert Tested(c, i)[..|c|] == c;
    PrefixMarks(c, Tested(c, i), ls.t);
    PrefixMarks(c, Tested(c, i), ls.f);
    assert IsSet(Tested(c, i), |c| + 1);
  }

  lemma SetFinds(g: Env, c0: Code, c: Code, i: Instr, k: Kind, ls: Ls, b: Outcome, y: Res, side: bool, top: int, o: Outcome)
    requires k.VNonReloc? && i == TestSet(NO_REG, k.info, !side) && ListsKept(c0, c, ls) && (b.Exit? ==> b.j !in SetOf(ls.j))
    requires Meets(c0, k, ls, g, b, y, top, o) && |c0| <= |c|
    ensures TestFinds(g, c, i, ls.(j := []), b, Tests(EndsRegister, side, y), side, top, Norm(o, ls.j))
  {
    if b.Fall? && o.Exit? {
      if o.j in ls.t || o.j in ls.f {
        assert o.j in SetOf(ls.t) + SetOf(ls.f) && SameJump(c0, c, o.j);
        CarrySame(c0, c, o.j, o.r);
        assert o.j !in SetOf(ls.j);
      }
    }
  }

  /** `jumponcond` */
  lemma JumpOnCondForks(fs: Fs, e: Exp, ls: Ls, outer: set<int>, g: Env, r: Regs, b: Outcome, y: Res, side: bool, top: int)
    returns (ls': Ls)
    requires Holds(fs, e, ls, outer, g, r, b, y, top) && Sized(fs, e.k, top) && Discharged(e.k) && !e.k.VJmp?
    requires JumpOnCond(fs, e, !side).0.k <= g.k
    ensures var (fs', pc) := JumpOnCond(fs, e, !side);
            && Forked(fs', e, ls', pc, [pc], outer, g, r, b, Tests(Ends(fs.code, e.k), side, y), side, top)
            && Kept(fs, fs', outer) && fs'.freereg == top
            && MarksIn(fs'.code, ls') == MarksIn(fs.code, ls).(j := false)
            && (SetIn(fs'.code, [pc]) <==> !Ends(fs.code, e.k).Testless())
  {
    hide Ok, Good, Exec, OuterSame, Forked, CleanStart, Discharge2AnyReg, CondJump, SetIn;
    if JustNot(fs, e.k) {
      ls' := ls;
      NotForks(fs, e, ls, outer, g, r, b, y, side, top);
    } else {
      var (fs1, e1) := Discharge2AnyReg(fs, e);
      var fs2, y1 := FreeExp(fs1, e1), if e.k.VNonReloc? then y else Drop(y);
      CondJumpIs(fs2, TestSet(NO_REG, if e1.k.VNonReloc? then e1.k.info else NO_REG, !side));
      var ls1 := Discharge2AnyRegGood(fs, e, ls, outer, g, r, b, y, top);
      HoldsRegs(fs1, fs2, e1, ls1, outer, g, r, b, y1, top);
      RegisterForks(fs2, e1, ls1, outer, g, r, b, y1, side, top);
      var fs3 := CondJump(fs2, TestSet(NO_REG, e1.k.info, !side)).0;
      KeptTrans(fs, fs1, fs2, outer);
      KeptTrans(fs, fs2, fs3, outer);
      ls' := ls1.(j := []);
      assert Tests(EndsRegister, side, y1) == Tests(Ends(fs.code, e.k), side, y);
      ForkedKind(fs3, e, e1, ls', |fs2.code| + 1, outer, g, r, b, Tests(Ends(fs.code, e.k), side, y), side, top);
    }
  }

  lemma ForkedKind(fs: Fs, e: Exp, e1: Exp, ls: Ls, pc: int, outer: set<int>, g: Env, r: Regs, b: Outcome, w: Way, side: bool,
                   top: int)
    requires Forked(fs, e1, ls, pc, [pc], outer, g, r, b, w, side, top) && e1.t == e.t && e1.f == e.f
    ensures Forked(fs, e, ls, pc, [pc], outer, g, r, b, w, side, top)
  {
    hide Exec, Forks, Apart, CodeOk, IsList;
  }

  // ------------------------------------------------------------- luaK_goiftrue and luaK_goiffalse

  /** Constants of string and number literals count as true. */
  ghost predicate TrueConstant(g: Env, k: Kind) {
    k.VK? ==> Truthy(Const(g, k.info))
  }

  lemma EmptyMarks(c: Code)
    ensures !SetIn(c, [])
  {
  }

  /** The marks before the lists are joined. */
  ghost predicate ForkMarks(t: Tail, side: bool, m: Marks, m': Marks, away: bool) {
    && m' == m.(j := t.Stays(side) && m.j)
    && (away <==> if t.Stays(side) then false else if t.Goes(side) then m.j else !t.Testless())
  }

  ghost function GoMarks(t: Tail, side: bool, m: Marks): Marks {
    if side then Marks(false, AwayMark(t, side, m), PendingMark(t, side, m)) else Marks(AwayMark(t, side, m), false, PendingMark(t, side, m))
  }

  lemma FetchedMarks(fs: Fs, e: Exp, ls: Ls, outer: set<int>, side: bool)
    requires Ok(fs, e, ls, outer)
    ensures var m, t := MarksIn(fs.code, ls), Ends(fs.code, e.k);
            GoMarks(Ends(DischargeVars(fs, e).0.code, DischargeVars(fs, e).1.k), side, FetchMarks(t, m)) == GoMarks(t, side, m)
  {
    hide Emit, Ok, SetIn;
    EmitLast(fs, GetGlobal(0, if e.k.VGlobal? then e.k.info else 0));
  }

  lemma ForkTrue(fs: Fs, e: Exp, ls: Ls, outer: set<int>, g: Env, r: Regs, b: Outcome, y: Res, top: int)
    returns (fs2: Fs, pc: int, ls': Ls, p: seq<int>)
    requires Holds(fs, e, ls, outer, g, r, b, y, top) && Sized(fs, e.k, top) && Discharged(e.k)
    requires GoIfTrue(fs, e).0.k <= g.k
    ensures Forked(fs2, e, ls', pc, p, outer, g, r, b, Go(Ends(fs.code, e.k), true, y), true, top) && Kept(fs, fs2, outer) && fs2.freereg == top
    ensures ForkMarks(Ends(fs.code, e.k), true, MarksIn(fs.code, ls), MarksIn(fs2.code, ls'), SetIn(fs2.code, p))
    ensures var (c, f) := Concat(fs2.code, e.f, pc);
            var e' := GoIfTrue(fs, e).1;
            GoIfTrue(fs, e).0 == PatchToHere(fs2.(code := c), e.t) && e' == Exp(e'.k, NO_JUMP, f)
  {
    hide Ok, Good, Forked, Kept, Jump, JumpOnCond, Concat, CleanStart, SetIn;
    fs2, pc, ls', p := fs, NO_JUMP, ls, [];
    EmptyMarks(fs.code);
    match e.k {
      case VFalse =>
        AlwaysForks(fs, e, ls, outer, g, r, b, y, true, top);
        fs2, pc := Jump(fs).0, Jump(fs).1;
        ls', p := ls.(j := []), [|fs.code|] + ls.j;
      case VJmp(j) =>
        InvertedForks(fs, e, ls, outer, g, r, b, y, top);
        fs2, pc, p := fs.(code := InvertJump(fs.code, j)), j, [j];
      case VK(_) =>
        ConstantForks(fs, e, ls, outer, g, r, b, y, true, top);
        KeptRefl(fs, outer);
      case VKNum(_) =>
        ConstantForks(fs, e, ls, outer, g, r, b, y, true, top);
        KeptRefl(fs, outer);
      case VTrue =>
        ConstantForks(fs, e, ls, outer, g, r, b, y, true, top);
        KeptRefl(fs, outer);
      case _ =>
        GoesThrough(fs, e);
        ls' := JumpOnCondForks(fs, e, ls, outer, g, r, b, y, true, top);
        fs2, pc := JumpOnCond(fs, e, false).0, JumpOnCond(fs, e, false).1;
        p := [pc];
    }
  }

  lemma GoesThrough(fs: Fs, e: Exp)
    requires !e.k.VFalse? && !e.k.VTrue? && !e.k.VJmp? && !e.k.VKNum? && Discharged(e.k)
    ensures !e.k.VK? ==> JumpOnCond(fs, e, false).0.k == GoIfTrue(fs, e).0.k
    ensures !e.k.VNil? ==> JumpOnCond(fs, e, true).0.k == GoIfFalse(fs, e).0.k
  {
    hide JumpOnCond, Concat;
  }

  lemma ForkFalse(fs: Fs, e: Exp, ls: Ls, outer: set<int>, g: Env, r: Regs, b: Outcome, y: Res, top: int)
    returns (fs2: Fs, pc: int, ls': Ls, p: seq<int>)
    requires Holds(fs, e, ls, outer, g, r, b, y, top) && Sized(fs, e.k, top) && Discharged(e.k)
    requires GoIfFalse(fs, e).0.k <= g.k
    ensures Forked(fs2, e, ls', pc, p, outer, g, r, b, Go(Ends(fs.code, e.k), false, y), false, top) && Kept(fs, fs2, outer) && fs2.freereg == top
    ensures ForkMarks(Ends(fs.code, e.k), false, MarksIn(fs.code, ls), MarksIn(fs2.code, ls'), SetIn(fs2.code, p))
    ensures var (c, t) := Concat(fs2.code, e.t, pc);
            var e' := GoIfFalse(fs, e).1;
            GoIfFalse(fs, e).0 == PatchToHere(fs2.(code := c), e.f) && e' == Exp(e'.k, t, NO_JUMP)
  {
    hide Ok, Good, Forked, Kept, Jump, JumpOnCond, Concat, CleanStart, SetIn;
    fs2, pc, ls', p := fs, NO_JUMP, ls, [];
    EmptyMarks(fs.code);
    match e.k {
      case VTrue =>
        AlwaysForks(fs, e, ls, outer, g, r, b, y, false, top);
        fs2, pc := Jump(fs).0, Jump(fs).1;
        ls', p := ls.(j := []), [|fs.code|] + ls.j;
      case VJmp(j) =>
        StraightForks(fs, e, ls, outer, g, r, b, y, top);
        pc, p := j, [j];
      case VNil =>
        ConstantForks(fs, e, ls, outer, g, r, b, y, false, top);
        KeptRefl(fs, outer);
      case VFalse =>
        ConstantForks(fs, e, ls, outer, g, r, b, y, false, top);
        KeptRefl(fs, outer);
      case _ =>
        FalseGoesThrough(fs, e);
        ls' := JumpOnCondForks(fs, e, ls, outer, g, r, b, y, false, top);
        fs2, pc := JumpOnCond(fs, e, true).0, JumpOnCond(fs, e, true).1;
        p := [pc];
    }
  }

  lemma FalseGoesThrough(fs: Fs, e: Exp)
    requires !e.k.VFalse? && !e.k.VTrue? && !e.k.VJmp? && !e.k.VNil? && Discharged(e.k)
    ensures JumpOnCond(fs, e, true).0.k == GoIfFalse(fs, e).0.k
  {
    hide JumpOnCond, Concat;
  }

  /** `luaK_goiftrue`: control goes on or leaves by the false list, as `Go` says. */
  lemma GoIfTrueBranch(fs: Fs, e: Exp, ls: Ls, outer: set<int>, g: Env, r: Regs, b: Outcome, y: Res, top: int)
    returns (ls': Ls)
    requires Holds(fs, e, ls, outer, g, r, b, y, top) && Sized(fs, e.k, top)
    requires GoIfTrue(fs, e).0.k <= g.k
    ensures var (fs', e') := GoIfTrue(fs, e);
            && Branch(fs', e', ls', outer, g, r, b, Go(Ends(fs.code, e.k), true, y), true, top) && Kept(fs, fs', outer)
            && fs'.freereg == top && CleanStart(fs', r)
            && MarksIn(fs'.code, ls') == GoMarks(Ends(fs.code, e.k), true, MarksIn(fs.code, ls))
  {
    hide Ok, Good, Forked, Kept, DischargeVars, CleanStart, Branch, SetIn;
    var (fs1, e1) := DischargeVars(fs, e);
    var ls1 := DischargeVarsGood(fs, e, ls, outer, g, r, b, y, top);
    SecondTime(fs, e);
    var y1, w := Fetch(Ends(fs.code, e.k), y), Go(Ends(fs.code, e.k), true, y);
    FetchedGo(fs, e, true, y);
    var fs2, pc, ls2, p := ForkTrue(fs1, e1, ls1, outer, g, r, b, y1, top);
    JoinTrue(fs2, e1, ls2, pc, p, outer, g, r, b, w, top);
    FetchedMarks(fs, e, ls, outer, true);
    ls' := Ls([], ls2.f + p, ls2.j + ls2.t);
    var (fs', e') := GoIfTrue(fs, e);
    BranchKind(fs', e'.(k := e1.k), e', ls', outer, g, r, b, w, true, top);
    KeptTrans(fs, fs1, fs2, outer);
    KeptTrans(fs, fs2, fs', outer);
    CleanKept(fs, fs', outer, r);
  }

  lemma BranchKind(fs: Fs, e: Exp, e': Exp, ls: Ls, outer: set<int>, g: Env, r: Regs, b: Outcome, w: Way, side: bool, top: int)
    requires Branch(fs, e, ls, outer, g, r, b, w, side, top) && e'.t == e.t && e'.f == e.f
    ensures Branch(fs, e', ls, outer, g, r, b, w, side, top)
  {
    hide Forks, Exec, CodeOk, Listed;
  }

  lemma FetchedGo(fs: Fs, e: Exp, side: bool, y: Res)
    ensures Go(Ends(DischargeVars(fs, e).0.code, DischargeVars(fs, e).1.k), side, Fetch(Ends(fs.code, e.k), y)) == Go(Ends(fs.code, e.k), side, y)
  {
    hide Emit;
    EmitLast(fs, GetGlobal(0, if e.k.VGlobal? then e.k.info else 0));
  }

  /** What is discharged stays as it is. */
  lemma SecondTime(fs: Fs, e: Exp)
    ensures var (fs1, e1) := DischargeVars(fs, e);
            && DischargeVars(fs1, e1) == (fs1, e1) && GoIfTrue(fs1, e1) == GoIfTrue(fs, e) && GoIfFalse(fs1, e1) == GoIfFalse(fs, e)
            && (!Discharged(e.k) ==> !e1.k.VFalse? && !e1.k.VTrue? && !e1.k.VK?) && (Discharged(e.k) ==> (fs1, e1) == (fs, e))
  {
    hide JumpOnCond, Concat, Jump;
  }

  /** `luaK_goiffalse`: control goes on or leaves by the true list, as `Go` says. */
  lemma GoIfFalseBranch(fs: Fs, e: Exp, ls: Ls, outer: set<int>, g: Env, r: Regs, b: Outcome, y: Res, top: int)
    returns (ls': Ls)
    requires Holds(fs, e, ls, outer, g, r, b, y, top) && Sized(fs, e.k, top)
    requires GoIfFalse(fs, e).0.k <= g.k
    ensures var (fs', e') := GoIfFalse(fs, e);
            && Branch(fs', e', ls', outer, g, r, b, Go(Ends(fs.code, e.k), false, y), false, top) && Kept(fs, fs', outer)
            && fs'.freereg == top && CleanStart(fs', r)
            && MarksIn(fs'.code, ls') == GoMarks(Ends(fs.code, e.k), false, MarksIn(fs.code, ls))
  {
    hide Ok, Good, Forked, Kept, DischargeVars, CleanStart, Branch, SetIn;
    var (fs1, e1) := DischargeVars(fs, e);
    var ls1 := DischargeVarsGood(fs, e, ls, outer, g, r, b, y, top);
    SecondTime(fs, e);
    var y1, w := Fetch(Ends(fs.code, e.k), y), Go(Ends(fs.code, e.k), false, y);
    FetchedGo(fs, e, false, y);
    var fs2, pc, ls2, p := ForkFalse(fs1, e1, ls1, outer, g, r, b, y1, top);
    JoinFalse(fs2, e1, ls2, pc, p, outer, g, r, b, w, top);
    FetchedMarks(fs, e, ls, outer, false);
    ls' := Ls(ls2.t + p, [], ls2.j + ls2.f);
    var (fs', e') := GoIfFalse(fs, e);
    BranchKind(fs', e'.(k := e1.k), e', ls', outer, g, r, b, w, false, top);
    KeptTrans(fs, fs1, fs2, outer);
    KeptTrans(fs, fs2, fs', outer);
    CleanKept(fs, fs', outer, r);
  }
}
