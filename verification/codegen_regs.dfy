/**
 Expressions in registers (luaK_exp2nextreg, luaK_exp2anyreg, luaK_exp2val, luaK_exp2RK), and
 what relinking a list does to the code.
 */
module CodeGenRegs {
  import opened Vm
  import opened CodeGen
  import opened CodeGenLists
  import opened CodeGenSem
  import opened CodeGenValues
  import opened CodeGenClose
  import opened CodeGenYield
  import opened Sequences

  // ------------------------------------------------------------- relinking

  /** `c'` is `c` but for the links of jumps in `l`. */
  ghost predicate Relinked(c: Code, c': Code, l: set<int>) {
    |c'| == |c| && forall pc :: 0 <= pc < |c| ==> c'[pc] == c[pc] || (pc in l && c[pc].Jmp? && c'[pc].Jmp?)
  }

  lemma ConcatRelinks(c: Code, h1: int, l1: seq<int>, h2: int, l2: seq<int>)
    requires IsList(c, h1, l1) && IsList(c, h2, l2) && NoDup(l1 + l2)
    ensures Relinked(c, Concat(c, h1, h2).0, SetOf(l1)) && IsList(Concat(c, h1, h2).0, Concat(c, h1, h2).1, l1 + l2)
  {
    ConcatLists(c, h1, l1, h2, l2);
    var c' := Concat(c, h1, h2).0;
    forall pc | 0 <= pc < |c|
      ensures c'[pc] == c[pc] || (pc in SetOf(l1) && c[pc].Jmp? && c'[pc].Jmp?)
    {
      assert pc in l1 || c'[pc] == c[pc];
    }
  }

  lemma RelinkedCode(c: Code, c': Code, l: set<int>, open: set<int>, last: int, j: seq<int>)
    requires Relinked(c, c', l) && l <= open && CodeOk(c, open, last, j)
    ensures CodeOk(c', open, last, j)
  {
    hide Targets;
    RelinkedAlike(c, c', l, open);
    SameButOpenWf(c, c', open);
    RelinkedTargets(c, c', l, open, last);
  }

  lemma RelinkedTargets(c: Code, c': Code, l: set<int>, open: set<int>, last: int)
    requires Relinked(c, c', l) && l <= open && Targets(c, open, last)
    ensures Targets(c', open, last)
  {
  }

  lemma RelinkedAlike(c: Code, c': Code, l: set<int>, open: set<int>)
    requires Relinked(c, c', l) && l <= open && Wf(c, open)
    ensures SameButOpen(c, c', open)
  {
    forall pc | 0 <= pc < |c|
      ensures AlikeAt(c, c', open, pc)
    {
    }
  }

  lemma RelinkedRuns(c: Code, c': Code, l: set<int>, open: set<int>, g: Env, r: Regs)
    requires Relinked(c, c', l) && l <= open && Wf(c, open)
    ensures Exec(c', open, g, 0, r) == Exec(c, open, g, 0, r)
  {
    RelinkedAlike(c, c', l, open);
    ExecSameButOpen(c, c', open, g, 0, r);
  }

  lemma RelinkedList(c: Code, c': Code, l: set<int>, h: int, l2: seq<int>)
    requires Relinked(c, c', l) && IsList(c, h, l2) && SetOf(l2) !! l
    ensures IsList(c', h, l2)
  {
    ListInCode(c, h, l2);
    forall j | j in l2
      ensures 0 <= j < |c'| && c'[j] == c[j]
    {
      assert j in SetOf(l2);
    }
    ListFrame(c, c', h, l2);
  }

  lemma RelinkedOuter(c: Code, c': Code, l: set<int>, outer: set<int>)
    requires Relinked(c, c', l) && outer !! l
    ensures OuterSame(c, c', outer)
  {
    forall j | j in outer && 0 <= j < |c|
      ensures SameJump(c, c', j)
    {
    }
  }

  lemma RelinkedTests(c: Code, c': Code, l: set<int>, j: int)
    requires Relinked(c, c', l) && 0 <= j < |c|
    ensures IsSet(c', j) == IsSet(c, j)
    ensures IsSet(c, j) ==> c'[Control(c', j)] == c[Control(c, j)]
    ensures forall r :: CarryAt(c', j, r) == CarryAt(c, j, r)
  {
  }

  lemma RelinkedMeets(c: Code, c': Code, l: set<int>, k: Kind, ls: Ls, g: Env, b: Outcome, y: Res, top: int, o: Outcome)
    requires Relinked(c, c', l) && Meets(c, k, ls, g, b, y, top, o)
    requires k.VReloc? && 0 <= k.info < |c| ==> !c[k.info].Jmp?
    ensures Meets(c', k, ls, g, b, y, top, o)
  {
    if b.Fall? && o.Exit? && 0 <= o.j < |c| {
      RelinkedTests(c, c', l, o.j);
    }
  }

  /** The converse of `ListedParts`. */
  lemma ListedFrom(c: Code, t: int, f: int, jpc: int, ls: Ls, outer: set<int>)
    requires IsList(c, t, ls.t) && IsList(c, f, ls.f) && IsList(c, jpc, ls.j)
    requires NoDup(ls.t) && NoDup(ls.f) && NoDup(ls.j)
    requires SetOf(ls.t) !! SetOf(ls.f) && SetOf(ls.t) !! SetOf(ls.j) && SetOf(ls.f) !! SetOf(ls.j)
    requires (SetOf(ls.t) + SetOf(ls.f) + SetOf(ls.j)) !! outer
    ensures Listed(c, t, f, jpc, ls, outer)
  {
    NoDupJoin(ls.t, ls.f);
    NoDupJoin(ls.t + ls.f, ls.j);
    forall j | j in ls.t + ls.f + ls.j
      ensures j !in outer
    {
      assert j in SetOf(ls.t) + SetOf(ls.f) + SetOf(ls.j);
    }
  }

  lemma NoDupJoin(a: seq<int>, b: seq<int>)
    requires NoDup(a) && NoDup(b) && SetOf(a) !! SetOf(b)
    ensures NoDup(a + b) && SetOf(a + b) == SetOf(a) + SetOf(b)
  {
    forall i, j | 0 <= i < j < |a + b|
      ensures (a + b)[i] != (a + b)[j]
    {
      if i < |a| && j >= |a| {
        assert a[i] in SetOf(a) && b[j - |a|] in SetOf(b);
      }
    }
  }

  // ------------------------------------------------------------- a comparison used as a value

  /** A comparison that holds leaves by its jump. */
  function AsFalse(y: Res): Res {
    if y.Here? && y.v == Bool(true) then Left(true, y.c) else y
  }

  /** The jump of a comparison joins the true list: what falls through is false. */
  lemma JumpAsFalse(fs: Fs, e: Exp, ls: Ls, outer: set<int>, g: Env, r: Regs, b: Outcome, y: Res, top: int)
    requires Ok(fs, e, ls, outer) && Good(fs, e, ls, outer, g, r, b, y, top) && e.k.VJmp?
    ensures var (c, t) := Concat(fs.code, e.t, e.k.info);
            var ls' := ls.(t := ls.t + [e.k.info]);
            var fs' := fs.(code := c);
            && t != e.f && Needs(fs', t, e.f) && ls.j == []
            && Listed(c, t, e.f, fs.jpc, ls', outer) && CodeOk(c, Open(ls', outer), fs.lasttarget, ls.j)
            && Meets(c, VFalse, ls', g, b, AsFalse(y), top, Exec(c, Open(ls', outer), g, 0, r))
            && OuterSame(fs.code, c, outer)
  {
    hide Wf, Targets, Concat, Meets, Exec, Needs;
    var p := e.k.info;
    var (c, t) := Concat(fs.code, e.t, p);
    var ls' := ls.(t := ls.t + [p]);
    ListedParts(fs.code, e.t, e.f, fs.jpc, ls, outer);
    LastAlone(fs.code, p);
    JumpApart(ls, outer, p);
    NoDupJoin(ls.t, [p]);
    ConcatRelinks(fs.code, e.t, ls.t, p, [p]);
    RelinkedList(fs.code, c, SetOf(ls.t), e.f, ls.f);
    ListedFrom(c, t, e.f, fs.jpc, ls', outer);
    assert Open(ls', outer) == AllOpen(e.k, ls, outer);
    RelinkedCode(fs.code, c, SetOf(ls.t), Open(ls', outer), fs.lasttarget, ls.j);
    RelinkedRuns(fs.code, c, SetOf(ls.t), Open(ls', outer), g, r);
    RelinkedOuter(fs.code, c, SetOf(ls.t), outer);
    RelinkedMeets(fs.code, c, SetOf(ls.t), e.k, ls, g, b, y, top, Raw(fs, e.k, ls, outer, g, r));
    ComparisonTests(c, fs.code, SetOf(ls.t), p);
    MeetsAsFalse(c, p, ls, g, b, y, top, Raw(fs, e.k, ls, outer, g, r));
    NeedsThis(fs.(code := c), t, e.f, ls', outer, p);
    HeadApart(c, t, e.f, ls'.t, ls.f);
  }

  lemma LastAlone(c: Code, p: int)
    requires 0 <= p < |c| && c[p] == Jmp(NO_JUMP)
    ensures IsList(c, p, [p]) && NoDup([p])
  {
    assert IsList(c, NO_JUMP, []);
    assert [p][1..] == [];
  }

  lemma JumpApart(ls: Ls, outer: set<int>, p: int)
    requires p !in Open(ls, outer)
    ensures SetOf([p]) == {p} && p !in SetOf(ls.t) && p !in SetOf(ls.f) && p !in SetOf(ls.j) && p !in outer
  {
  }

  lemma ComparisonTests(c: Code, c0: Code, l: set<int>, p: int)
    requires Relinked(c0, c, l) && 1 <= p < |c0| && c0[p - 1].Cmp?
    ensures |c| == |c0| && !IsSet(c, p)
  {
  }

  lemma MeetsAsFalse(c: Code, p: int, ls: Ls, g: Env, b: Outcome, y: Res, top: int, o: Outcome)
    requires Meets(c, VJmp(p), ls, g, b, y, top, o) && 0 <= p < |c| && !IsSet(c, p) && ls.j == []
    ensures Meets(c, VFalse, ls.(t := ls.t + [p]), g, b, AsFalse(y), top, o)
  {
  }

  lemma NeedsThis(fs: Fs, t: int, f: int, ls: Ls, outer: set<int>, p: int)
    requires Listed(fs.code, t, f, fs.jpc, ls, outer) && (p in ls.t || p in ls.f) && 0 <= p < |fs.code| && !IsSet(fs.code, p)
    ensures Needs(fs, t, f)
  {
    NeedsIs(fs, t, f, ls, outer);
  }

  lemma HeadApart(c: Code, t: int, f: int, lt: seq<int>, lf: seq<int>)
    requires IsList(c, t, lt) && IsList(c, f, lf) && SetOf(lt) !! SetOf(lf) && (lt != [] || lf != [])
    ensures t != f
  {
    ListInCode(c, t, lt);
    ListInCode(c, f, lf);
    if lt != [] && lf != [] {
      assert lt[0] in SetOf(lt) && lf[0] in SetOf(lf);
    }
  }

  /** Equal heads: both lists are empty. */
  lemma NoJumps(c: Code, t: int, f: int, jpc: int, ls: Ls, outer: set<int>)
    requires Listed(c, t, f, jpc, ls, outer) && t == f
    ensures ls.t == [] && ls.f == [] && t == NO_JUMP && f == NO_JUMP
  {
    ListedParts(c, t, f, jpc, ls, outer);
    if ls.t != [] || ls.f != [] {
      HeadApart(c, t, f, ls.t, ls.f);
    }
  }

  // ------------------------------------------------------------- expressions in registers

  /** Register discipline: an expression that was begun with `top` registers in use occupies at
      most the next one. */
  ghost predicate Sized(fs: Fs, k: Kind, top: int) {
    && 0 <= fs.nactvar <= top
    && fs.freereg == top + (if k.VNonReloc? && k.info >= fs.nactvar then 1 else 0)
    && (k.VNonReloc? ==> k.info < fs.nactvar || k.info == top)
    && (k.VLocal? ==> k.info < fs.nactvar)
  }

  /** The code so far, entered in `r`, yields `y` for the expression `e`. */
  ghost predicate Holds(fs: Fs, e: Exp, ls: Ls, outer: set<int>, g: Env, r: Regs, b: Outcome, y: Res, top: int) {
    Ok(fs, e, ls, outer) && Good(fs, e, ls, outer, g, r, b, y, top) && CleanStart(fs, r)
  }

  lemma CleanKept(fs: Fs, fs': Fs, outer: set<int>, r: Regs)
    requires Kept(fs, fs', outer) && CleanStart(fs, r)
    ensures CleanStart(fs', r)
  {
  }

  /** The pending jumps after `exp2reg`. */
  function Exp2RegLs(fs: Fs, e: Exp, reg: int, ls: Ls): Ls {
    var (fs1, e1) := Discharge2Reg(fs, e, reg);
    if e1.k.VJmp? then
      var (c, t) := Concat(fs1.code, e1.t, e1.k.info);
      CloseLs(fs1.(code := c), t, e1.f, false, ls.(t := ls.t + [e1.k.info]))
    else
      var ls1 := AfterLoad(e.k, reg, ls);
      if e1.t == e1.f then ls1 else CloseLs(fs1, e1.t, e1.f, true, ls1)
  }

  predicate Discharged(k: Kind) {
    !k.VLocal? && !k.VGlobal?
  }

  /** What has been brought into a register. */
  function InReg(k: Kind, reg: int, y: Res): Res {
    if k == VNonReloc(reg) then Brought(y) else Ready(y)
  }

  /** `exp2reg` leaves the value in the register, whatever the kind of the expression. */
  lemma Exp2RegGood(fs: Fs, e: Exp, ls: Ls, outer: set<int>, reg: int, g: Env, r: Regs, b: Outcome, y: Res, top: int)
    requires Holds(fs, e, ls, outer, g, r, b, y, top) && Discharged(e.k)
    requires reg >= top >= fs.nactvar && reg != NO_REG && Exp2Reg(fs, e, reg).0.k <= g.k
    ensures var (fs', e') := Exp2Reg(fs, e, reg);
            Holds(fs', e', Exp2RegLs(fs, e, reg, ls), outer, g, r, b, InReg(e.k, reg, y), top) && Kept(fs, fs', outer) &&
            e' == Leaf(VNonReloc(reg)) && fs'.freereg == fs.freereg &&
            (SetIn(fs'.code, Exp2RegLs(fs, e, reg, ls).j) <==> e.k == VNonReloc(reg) && SetIn(fs.code, ls.j))
  {
    if e.k.VJmp? {
      Exp2RegJump(fs, e, ls, outer, reg, g, r, b, y, top);
    } else {
      Exp2RegLoad(fs, e, ls, outer, reg, g, r, b, y, top);
    }
  }

  lemma Exp2RegJump(fs: Fs, e: Exp, ls: Ls, outer: set<int>, reg: int, g: Env, r: Regs, b: Outcome, y: Res, top: int)
    requires Holds(fs, e, ls, outer, g, r, b, y, top) && e.k.VJmp?
    requires reg >= top >= fs.nactvar && reg != NO_REG
    ensures var (fs', e') := Exp2Reg(fs, e, reg);
            Holds(fs', e', Exp2RegLs(fs, e, reg, ls), outer, g, r, b, InReg(e.k, reg, y), top) && Kept(fs, fs', outer) &&
            fs'.freereg == fs.freereg && fs'.k == fs.k && !SetIn(fs'.code, Exp2RegLs(fs, e, reg, ls).j)
  {
    hide Listed, CodeOk, Meets, Exec, OuterSame, CloseLists, Concat, Needs, CleanStart, PendingAfter;
    var (c, t) := Concat(fs.code, e.t, e.k.info);
    var fs1 := fs.(code := c);
    var ls1 := ls.(t := ls.t + [e.k.info]);
    JumpAsFalse(fs, e, ls, outer, g, r, b, y, top);
    CloseListsOk(fs1, VFalse, t, e.f, false, reg, ls1, outer);
    CloseListsGood(fs1, VFalse, t, e.f, false, reg, ls1, outer, g, r, b, AsFalse(y), top);
    var fs' := CloseLists(fs1, t, e.f, false, reg);
    var ls' := CloseLs(fs1, t, e.f, false, ls1);
    ComparisonReady(fs.code, e.k.info, ls, g, b, y, top, Raw(fs, e.k, ls, outer, g, r));
    MeetsSame(fs'.code, VNonReloc(reg), ls', g, b, Brought(AsFalse(y)), Ready(y), top, Raw(fs', VNonReloc(reg), ls', outer, g, r));
    NoneWaits(fs1, t, e.f, ls1);
    SameLength(fs.code, e.t, e.k.info);
    OuterSameTrans(fs.code, c, fs'.code, outer);
    CleanKept(fs, fs', outer, r);
  }

  /** What the code yields matters only where it is reached. */
  lemma MeetsSame(c: Code, k: Kind, ls: Ls, g: Env, b: Outcome, y: Res, y': Res, top: int, o: Outcome)
    requires Meets(c, k, ls, g, b, y, top, o) && (b.Fall? ==> y' == y)
    ensures Meets(c, k, ls, g, b, y', top, o)
  {
  }

  lemma ComparisonReady(c: Code, p: int, ls: Ls, g: Env, b: Outcome, y: Res, top: int, o: Outcome)
    requires Meets(c, VJmp(p), ls, g, b, y, top, o) && ls.j == []
    ensures b.Fall? ==> Brought(AsFalse(y)) == Ready(y)
  {
  }

  /** Without jumps the code is left at its end. */
  lemma NoneLeft(c: Code, k: Kind, ls: Ls, g: Env, b: Outcome, y: Res, top: int, o: Outcome)
    requires Meets(c, k, ls, g, b, y, top, o) && ls.t == [] && ls.f == []
    ensures b.Fall? ==> y.Here?
  {
  }

  lemma NoneWaits(fs: Fs, t: int, f: int, ls: Ls)
    ensures !SetIn(fs.code, CloseLs(fs, t, f, false, ls.(j := [])).j)
    ensures forall c :: !SetIn(c, CloseLs(fs, t, f, false, ls.(j := [])).j)
  {
  }

  /** Closing the lists changes nothing about the values that the waiting jumps have in tow. */
  lemma WaitingMarks(fs: Fs, t: int, f: int, reg: int, ls: Ls, c: Code)
    requires forall j, q :: j in ls.j ==> CarryAt(c, j, q) == CarryAt(fs.code, j, q)
    requires Needs(fs, t, f) ==> |fs.code| < |c| && !IsSet(c, |fs.code|)
    requires forall j :: j in ls.j ==> 0 <= j < |fs.code|
    requires |fs.code| <= |c|
    ensures SetIn(c, CloseLs(fs, t, f, true, ls).j) <==> SetIn(fs.code, ls.j)
  {
    hide IsSet, Needs;
    forall j | j in ls.j
      ensures IsSet(c, j) == IsSet(fs.code, j)
    {
      assert CarryAt(c, j, map[]) == CarryAt(fs.code, j, map[]);
    }
    SameMarks(fs.code, c, ls.j);
    if Needs(fs, t, f) {
      assert forall j :: j in [|fs.code|] + ls.j <==> j == |fs.code| || j in ls.j;
    }
  }

  lemma SameLength(c: Code, h1: int, h2: int)
    ensures |Concat(c, h1, h2).0| == |c|
  {
  }

  lemma Exp2RegLoad(fs: Fs, e: Exp, ls: Ls, outer: set<int>, reg: int, g: Env, r: Regs, b: Outcome, y: Res, top: int)
    requires Holds(fs, e, ls, outer, g, r, b, y, top) && Discharged(e.k) && !e.k.VJmp?
    requires reg >= top >= fs.nactvar && reg != NO_REG && Exp2Reg(fs, e, reg).0.k <= g.k
    ensures var (fs', e') := Exp2Reg(fs, e, reg);
            Holds(fs', e', Exp2RegLs(fs, e, reg, ls), outer, g, r, b, InReg(e.k, reg, y), top) && Kept(fs, fs', outer) &&
            fs'.freereg == fs.freereg &&
            (SetIn(fs'.code, Exp2RegLs(fs, e, reg, ls).j) <==> e.k == VNonReloc(reg) && SetIn(fs.code, ls.j))
  {
    hide Listed, CodeOk, Meets, Exec, OuterSame, CloseLists, Load, Needs, CleanStart, PendingAfter, SetIn;
    var fs1, e1, ls1 := Load(fs, e.k, reg), e.(k := VNonReloc(reg)), AfterLoad(e.k, reg, ls);
    ClosedConstants(fs1, e.t, e.f, true, reg);
    LoadGood(fs, e, ls, outer, reg, g, r, b, y, top);
    CleanKept(fs, fs1, outer, r);
    if e.t == e.f {
      ClosedNothing(fs1, e1, ls1, outer, reg);
      NoneLeft(fs1.code, e1.k, ls1, g, b, Loaded(e.k, reg, y), top, Raw(fs1, e1.k, ls1, outer, g, r));
      MeetsSame(fs1.code, e1.k, ls1, g, b, Loaded(e.k, reg, y), InReg(e.k, reg, y), top, Raw(fs1, e1.k, ls1, outer, g, r));
    } else {
      CloseListsOk(fs1, e1.k, e.t, e.f, true, reg, ls1, outer);
      CloseListsGood(fs1, e1.k, e.t, e.f, true, reg, ls1, outer, g, r, b, Loaded(e.k, reg, y), top);
      var fs' := CloseLists(fs1, e.t, e.f, true, reg);
      BaseApart(fs1, e.t, e.f, ls1, outer, b);
      WaitingMarks(fs1, e.t, e.f, reg, ls1, fs'.code);
      KeptTrans(fs, fs1, fs', outer);
      CleanKept(fs1, fs', outer, r);
    }
  }

  lemma ClosedConstants(fs: Fs, t: int, f: int, fallsIn: bool, reg: int)
    ensures CloseLists(fs, t, f, fallsIn, reg).k == fs.k
  {
  }

  lemma ClosedNothing(fs: Fs, e: Exp, ls: Ls, outer: set<int>, reg: int)
    requires Ok(fs, e, ls, outer) && e.t == e.f
    ensures CloseLists(fs, e.t, e.f, true, reg) == fs
    ensures e.t == NO_JUMP && e.f == NO_JUMP && ls.t == [] && ls.f == []
  {
    NoJumps(fs.code, e.t, e.f, fs.jpc, ls, outer);
  }
}
