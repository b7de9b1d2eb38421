/**
 The compiler as a whole: the code for an expression computes the expression, for trees of
 every size and shape.
 */
module CodeGenCompile {
  import opened Vm
  import opened CodeGen
  import opened CodeGenLists
  import opened CodeGenSem
  import opened CodeGenValues
  import opened CodeGenClose
  import opened CodeGenRegs
  import opened CodeGenGrows
  import opened CodeGenOperands
  import opened CodeGenCond
  import opened CodeGenTests
  import opened CodeGenBranch
  import opened CodeGenNot
  import opened CodeGenYield
  import opened CodeGenForm
  import opened Sequences

  /** What has arrived at the end of the code so far has this in tow. */
  function InTow(c: Code, o: Outcome): Carry {
    if o.Exit? then CarryAt(c, o.j, o.r) else Bare
  }

  /** The code so far, entered in `r`, comes to its end with `cy` in tow, or has left by an enclosing
      jump. */
  ghost predicate Start(fs: Fs, j: seq<int>, outer: set<int>, g: Env, r: Regs, b: Outcome, cy: Carry) {
    var o := Exec(fs.code, Open(Ls([], [], j), outer), g, 0, r);
    && Listed(fs.code, NO_JUMP, NO_JUMP, fs.jpc, Ls([], [], j), outer)
    && CodeOk(fs.code, Open(Ls([], [], j), outer), fs.lasttarget, j)
    && b == Norm(o, j) && (b.Fall? ==> cy == InTow(fs.code, o))
    && (b.Exit? ==> b.j in outer) && !b.Stuck? && CleanStart(fs, r)
  }

  ghost function YieldAt(g: Env, b: Outcome, x: Expr, k: seq<Value>, cy: Carry): Res {
    if b.Fall? then Yield(g, b.r, x, k, cy) else Here(Nil, Bare)
  }

  lemma LeafGood(fs: Fs, k: Kind, j: seq<int>, outer: set<int>, g: Env, r: Regs, b: Outcome, cy: Carry, y: Res, top: int)
    requires Start(fs, j, outer, g, r, b, cy) && !k.VReloc? && !k.VJmp?
    requires b.Fall? ==> y.Here? && y.c == cy && HasValue(g, fs.code, k, b.r, y.v)
    ensures Holds(fs, Leaf(k), Ls([], [], j), outer, g, r, b, y, top)
  {
    hide Listed, CodeOk, Exec, CleanStart;
    var o := Exec(fs.code, Open(Ls([], [], j), outer), g, 0, r);
    if b.Fall? && o.Exit? {
      assert o.j in j;
      StartJumps(fs, j, outer, g, r, b, cy);
    }
    if b.Exit? {
      assert o == b;
    }
  }

  lemma StartJumps(fs: Fs, j: seq<int>, outer: set<int>, g: Env, r: Regs, b: Outcome, cy: Carry)
    requires Start(fs, j, outer, g, r, b, cy)
    ensures forall i :: i in j ==> 0 <= i < |fs.code|
  {
    ListInCode(fs.code, fs.jpc, j);
  }

  /** What the code yields matters only where it is reached. */
  lemma HoldsSame(fs: Fs, e: Exp, ls: Ls, outer: set<int>, g: Env, r: Regs, b: Outcome, y: Res, y': Res, top: int)
    requires Holds(fs, e, ls, outer, g, r, b, y, top) && (b.Fall? ==> y' == y)
    ensures Holds(fs, e, ls, outer, g, r, b, y', top)
  {
    hide Ok, CleanStart, Exec;
  }

  // ------------------------------------------------------------- and, or

  /** The second operand starts where the first lets control through. */
  lemma BranchStarts(fs: Fs, e: Exp, ls: Ls, outer: set<int>, g: Env, r: Regs, b: Outcome, w: Way, side: bool, top: int)
    requires Branch(fs, e, ls, outer, g, r, b, w, side, top) && CleanStart(fs, r) && !b.Stuck?
    ensures var b1 := Norm(Exec(fs.code, Open(ls, outer), g, 0, r), ls.j);
            && Start(fs, ls.j, outer + SetOf(if side then ls.f else ls.t), g, r, b1, Onward(w))
            && (b.Fall? ==> (w.Arrives? <==> b1.Fall?))
  {
    hide Wf, Targets, Exec, CleanStart, CarryAt;
    var l := if side then ls.f else ls.t;
    var o := Exec(fs.code, Open(ls, outer), g, 0, r);
    var b1 := Norm(o, ls.j);
    ListedParts(fs.code, e.t, e.f, fs.jpc, ls, outer);
    ListedFrom(fs.code, NO_JUMP, NO_JUMP, fs.jpc, Ls([], [], ls.j), outer + SetOf(l));
    assert Open(Ls([], [], ls.j), outer + SetOf(l)) == Open(ls, outer);
    if b.Fall? && o.Exit? {
      assert o.j in ls.j <==> o.j in SetOf(ls.j);
      assert o.j in l <==> o.j in SetOf(l);
    }
    if b.Exit? {
      assert b.j !in SetOf(ls.j);
    }
  }

  lemma MergedCode(fs: Fs, e: Exp, ls: Ls, outer2: set<int>, c: Code, l: set<int>, ls': Ls, outer: set<int>, g: Env, r: Regs)
    requires Ok(fs, e, ls, outer2) && Relinked(fs.code, c, l) && l <= SetOf(ls.t) + SetOf(ls.f)
    requires Open(ls', outer) == Open(ls, outer2) && ls'.j == ls.j
    ensures var fs' := fs.(code := c);
            && KindOk(fs', e.k, ls', outer) && CodeOk(Body(fs', e.k), AllOpen(e.k, ls', outer), fs.lasttarget, ls'.j)
            && Raw(fs', e.k, ls', outer, g, r) == Raw(fs, e.k, ls, outer2, g, r)
  {
    hide Wf, Targets, Exec;
    var fs' := fs.(code := c);
    var d, d', open := Body(fs, e.k), Body(fs', e.k), AllOpen(e.k, ls, outer2);
    assert Relinked(d, d', l);
    RelinkedCode(d, d', l, open, fs.lasttarget, ls.j);
    RelinkedRuns(d, d', l, open, g, r);
    if e.k.VJmp? {
      assert e.k.info !in l;
    }
  }

  /** The outcome of the second operand, seen from the start of the first. */
  lemma MergedOutcome(c1: Code, c: Code, k: Kind, ls1: Ls, ls: Ls, ls': Ls, g: Env, b: Outcome, o1: Outcome, w: Way, y: Res, z: Res,
                      side: bool, top: int, o: Outcome)
    requires Forks(c1, ls1, [], b, w, side, top, o1) && Meets(c, k, ls, g, Norm(o1, ls1.j), y, top, o) && !b.Stuck?
    requires b.Fall? ==> z == (if w.Leaves? then Left(!side, w.c) else y)
    requires if side then ls1.t == [] && ls' == ls.(f := ls.f + ls1.f) else ls1.f == [] && ls' == ls.(t := ls.t + ls1.t)
    requires forall j :: j in (if side then ls1.f else ls1.t) && 0 <= j < |c1| ==> SameJump(c1, c, j) && c1[j].Jmp?
    requires SetOf(ls1.j) !! SetOf(if side then ls1.f else ls1.t) && (b.Exit? ==> b.j !in SetOf(ls1.j))
    ensures Meets(c, k, ls', g, b, z, top, o)
  {
    hide CarryAt, SameJump, HasValue;
    var l := if side then ls1.f else ls1.t;
    if b.Fall? && o1.Exit? && w.Leaves? {
      assert o1.j in l && o1.j in SetOf(l) && o1.j !in SetOf(ls1.j);
      CarrySame(c1, c, o1.j, o1.r);
      LongerCode(c1, c, o1.j);
    } else if b.Fall? && o1.Exit? {
      assert o1.j in ls1.j;
    }
  }

  lemma LongerCode(c: Code, c': Code, j: int)
    requires 0 <= j < |c| && SameJump(c, c', j)
    ensures j < |c'|
  {
  }

  lemma OuterList(c1: Code, c: Code, outer: set<int>, h: int, l: seq<int>)
    requires IsList(c1, h, l) && OuterSame(c1, c, outer + SetOf(l))
    ensures IsList(c, h, l)
    ensures forall j :: j in l ==> 0 <= j < |c1| && SameJump(c1, c, j) && c1[j].Jmp?
  {
    ListInCode(c1, h, l);
    forall j | j in l && 0 <= j < |c1|
      ensures SameJump(c1, c, j)
    {
      assert j in outer + SetOf(l);
    }
    ListFrame(c1, c, h, l);
  }

  /** `luaK_posfix` for `and`: the false lists of the operands become one. */
  lemma MergeFalse(fs1: Fs, e1: Exp, ls1: Ls, fs: Fs, e: Exp, ls: Ls, outer: set<int>, g: Env, r: Regs, b: Outcome, w: Way, y: Res,
                   z: Res, top: int)
    requires Branch(fs1, e1, ls1, outer, g, r, b, w, true, top) && !b.Stuck?
    requires Holds(fs, e, ls, outer + SetOf(ls1.f), g, r, Norm(Exec(fs1.code, Open(ls1, outer), g, 0, r), ls1.j), y, top)
    requires Kept(fs1, fs, outer + SetOf(ls1.f))
    requires b.Fall? ==> z == (if w.Leaves? then Left(false, w.c) else y)
    ensures var (c, f) := Concat(fs.code, e.f, e1.f);
            && Holds(fs.(code := c), e.(f := f), ls.(f := ls.f + ls1.f), outer, g, r, b, z, top)
            && Kept(fs1, fs.(code := c), outer)
            && MarksIn(c, ls.(f := ls.f + ls1.f)) == MarksIn(fs.code, ls).(f := MarksIn(fs.code, ls).f || MarksIn(fs1.code, ls1).f)
  {
    hide SetIn, Wf, Targets, Exec, Meets, Forks, Concat, Norm, CleanStart, KindOk, Relinked, IsList, NoDup;
    var (c, f) := Concat(fs.code, e.f, e1.f);
    var ls', outer2 := ls.(f := ls.f + ls1.f), outer + SetOf(ls1.f);
    ListedParts(fs1.code, e1.t, e1.f, fs1.jpc, ls1, outer);
    ListedParts(fs.code, e.t, e.f, fs.jpc, ls, outer2);
    OuterList(fs1.code, fs.code, outer, e1.f, ls1.f);
    NoDupJoin(ls.f, ls1.f);
    ConcatRelinks(fs.code, e.f, ls.f, e1.f, ls1.f);
    RelinkedList(fs.code, c, SetOf(ls.f), e.t, ls.t);
    RelinkedList(fs.code, c, SetOf(ls.f), fs.jpc, ls.j);
    ListedFrom(c, e.t, f, fs.jpc, ls', outer);
    assert Open(ls', outer) == Open(ls, outer2);
    MergedCode(fs, e, ls, outer2, c, SetOf(ls.f), ls', outer, g, r);
    var o := Raw(fs, e.k, ls, outer2, g, r);
    MergedOutcome(fs1.code, fs.code, e.k, ls1, ls, ls', g, b, Exec(fs1.code, Open(ls1, outer), g, 0, r), w, y, z, true, top, o);
    RelocNoJump(fs, e, ls, outer2);
    RelinkedMeets(fs.code, c, SetOf(ls.f), e.k, ls', g, b, z, top, o);
    RelinkedLength(fs.code, c, SetOf(ls.f));
    MergedMarks(fs1.code, fs.code, c, SetOf(ls.f), ls, ls1.f);
    CleanSame(fs, c, r);
    RelinkedOuter(fs.code, c, SetOf(ls.f), outer);
    OuterLess(fs1.code, fs.code, outer, outer2);
    OuterSameTrans(fs1.code, fs.code, c, outer);
  }

  lemma MergedMarks(c1: Code, c: Code, c': Code, l: set<int>, ls: Ls, l1: seq<int>)
    requires Relinked(c, c', l) && forall j :: j in l1 && 0 <= j < |c1| ==> SameJump(c1, c, j) && c1[j].Jmp?
    requires forall j :: j in l1 ==> 0 <= j < |c1|
    ensures MarksIn(c', ls.(f := ls.f + l1)) == MarksIn(c, ls).(f := SetIn(c, ls.f) || SetIn(c1, l1))
    ensures MarksIn(c', ls.(t := ls.t + l1)) == MarksIn(c, ls).(t := SetIn(c, ls.t) || SetIn(c1, l1))
  {
    hide IsSet, Relinked, SameJump;
    forall j | j in l1
      ensures 0 <= j < |c| && IsSet(c, j) == IsSet(c1, j)
    {
      SetSame(c1, c, j);
    }
    SameMarks(c1, c, l1);
    RelinkedMarks(c, c', l, l1);
    RelinkedMarks(c, c', l, ls.t);
    RelinkedMarks(c, c', l, ls.f);
    RelinkedMarks(c, c', l, ls.j);
    JoinedMarks(c', ls.f, l1);
    JoinedMarks(c', ls.t, l1);
  }

  lemma CleanSame(fs: Fs, c: Code, r: Regs)
    requires CleanStart(fs, r) && |c| == |fs.code|
    ensures CleanStart(fs.(code := c), r)
  {
  }

  lemma OuterLess(c: Code, c': Code, outer: set<int>, outer2: set<int>)
    requires OuterSame(c, c', outer2) && outer <= outer2
    ensures OuterSame(c, c', outer)
  {
  }

  lemma RelocNoJump(fs: Fs, e: Exp, ls: Ls, outer: set<int>)
    requires Ok(fs, e, ls, outer)
    ensures e.k.VReloc? && 0 <= e.k.info < |fs.code| ==> !fs.code[e.k.info].Jmp?
  {
  }

  /** `luaK_posfix` for `or`: the true lists of the operands become one. */
  lemma MergeTrue(fs1: Fs, e1: Exp, ls1: Ls, fs: Fs, e: Exp, ls: Ls, outer: set<int>, g: Env, r: Regs, b: Outcome, w: Way, y: Res,
                  z: Res, top: int)
    requires Branch(fs1, e1, ls1, outer, g, r, b, w, false, top) && !b.Stuck?
    requires Holds(fs, e, ls, outer + SetOf(ls1.t), g, r, Norm(Exec(fs1.code, Open(ls1, outer), g, 0, r), ls1.j), y, top)
    requires Kept(fs1, fs, outer + SetOf(ls1.t))
    requires b.Fall? ==> z == (if w.Leaves? then Left(true, w.c) else y)
    ensures var (c, t) := Concat(fs.code, e.t, e1.t);
            && Holds(fs.(code := c), e.(t := t), ls.(t := ls.t + ls1.t), outer, g, r, b, z, top)
            && Kept(fs1, fs.(code := c), outer)
            && MarksIn(c, ls.(t := ls.t + ls1.t)) == MarksIn(fs.code, ls).(t := MarksIn(fs.code, ls).t || MarksIn(fs1.code, ls1).t)
  {
    hide SetIn, Wf, Targets, Exec, Meets, Forks, Concat, Norm, CleanStart, KindOk, Relinked, IsList, NoDup;
    var (c, t) := Concat(fs.code, e.t, e1.t);
    var ls', outer2 := ls.(t := ls.t + ls1.t), outer + SetOf(ls1.t);
    ListedParts(fs1.code, e1.t, e1.f, fs1.jpc, ls1, outer);
    ListedParts(fs.code, e.t, e.f, fs.jpc, ls, outer2);
    OuterList(fs1.code, fs.code, outer, e1.t, ls1.t);
    NoDupJoin(ls.t, ls1.t);
    ConcatRelinks(fs.code, e.t, ls.t, e1.t, ls1.t);
    RelinkedList(fs.code, c, SetOf(ls.t), e.f, ls.f);
    RelinkedList(fs.code, c, SetOf(ls.t), fs.jpc, ls.j);
    ListedFrom(c, t, e.f, fs.jpc, ls', outer);
    assert Open(ls', outer) == Open(ls, outer2);
    MergedCode(fs, e, ls, outer2, c, SetOf(ls.t), ls', outer, g, r);
    var o := Raw(fs, e.k, ls, outer2, g, r);
    MergedOutcome(fs1.code, fs.code, e.k, ls1, ls, ls', g, b, Exec(fs1.code, Open(ls1, outer), g, 0, r), w, y, z, false, top, o);
    RelocNoJump(fs, e, ls, outer2);
    RelinkedMeets(fs.code, c, SetOf(ls.t), e.k, ls', g, b, z, top, o);
    RelinkedLength(fs.code, c, SetOf(ls.t));
    MergedMarks(fs1.code, fs.code, c, SetOf(ls.t), ls, ls1.t);
    CleanSame(fs, c, r);
    RelinkedOuter(fs.code, c, SetOf(ls.t), outer);
    OuterLess(fs1.code, fs.code, outer, outer2);
    OuterSameTrans(fs1.code, fs.code, c, outer);
  }

  // ------------------------------------------------------------- comparisons

  /** A finished operand: the code goes on behind it. */
  lemma OperandStarts(fs: Fs, e: Exp, ls: Ls, outer: set<int>, g: Env, r: Regs, b: Outcome, y: Res, top: int)
    requires Holds(fs, e, ls, outer, g, r, b, y, top) && e == Leaf(e.k) && IsRk(e.k) && !b.Stuck?
    ensures ls == Ls([], [], ls.j) && Start(fs, ls.j, outer, g, r, Run(fs, e.k, ls, outer, g, r), y.c)
  {
    hide Wf, Targets, Exec, CleanStart, CarryAt;
    NoJumps(fs.code, e.t, e.f, fs.jpc, ls, outer);
    ListedParts(fs.code, e.t, e.f, fs.jpc, ls, outer);
    if b.Exit? {
      assert b.j !in SetOf(ls.j);
    }
  }

  /** An operand that is ready is left as it is. */
  lemma ReadyOperand(fs: Fs, e: Exp)
    requires e.t == e.f && IsRk(e.k)
    ensures Exp2RK(fs, e) == (fs, e)
  {
    hide Exp2Reg, Exp2NextReg;
  }

  /** A finished operand is found where its kind says. */
  lemma OperandFound(g: Env, c: Code, k: Kind, ls: Ls, b: Outcome, y: Res, top: int, o: Outcome)
    requires Meets(c, k, ls, g, b, y, top, o) && ls.t == [] && ls.f == [] && IsRk(k) && b.Fall?
    ensures Norm(o, ls.j).Fall? && SameBelow(b.r, o.r, top) && Operand(g, o.r, RkOf(k)) == Delivered(y)
  {
    hide CarryAt;
  }

  lemma ComparisonSplits(g: Env, c: Code, c0: Code, op: BinCmp, ka: Kind, kb: Kind, b: Outcome, o1: Outcome, ya: Res, yb: Res,
                         top: int, top2: int, ls1: Ls, ls2: Ls, n: int, c': Code, o: Outcome)
    requires Meets(c0, ka, ls1, g, b, ya, top, o1) && ls1.t == [] && ls1.f == [] && IsRk(ka) && IsRk(kb) && !b.Stuck?
    requires Meets(c, kb, ls2, g, Norm(o1, ls1.j), yb, top2, o) && ls2.t == [] && ls2.f == []
    requires b.Exit? ==> b.j !in ls1.j && b.j !in ls2.j
    requires ka.VNonReloc? ==> ka.info < top2
    requires top <= top2
    ensures Meets(c', VJmp(n), Ls([], [], []), g, b, Here(Bool(EvalCmp(g, op, Delivered(ya), Delivered(yb))), Bare), top,
                  Split(g, CmpInstr(op, RkOf(ka), RkOf(kb)), n, Norm(o, ls2.j)))
  {
    hide CarryAt, Delivered, IsRk;
    if b.Fall? {
      hide Meets, LeftBy;
      OperandFound(g, c0, ka, ls1, b, ya, top, o1);
      OperandFound(g, c, kb, ls2, Fall(o1.r), yb, top2, o);
      SameOperand(g, ka, o1.r, o.r, top2);
      ComparisonMeets(g, op, RkOf(ka), RkOf(kb), b.r, o.r, Delivered(ya), Delivered(yb), top, n, c');
    }
  }

  lemma SameOperand(g: Env, k: Kind, r: Regs, r': Regs, top: int)
    requires IsRk(k) && (k.VNonReloc? ==> k.info < top) && SameBelow(r, r', top)
    ensures Operand(g, r', RkOf(k)) == Operand(g, r, RkOf(k))
  {
  }

  lemma ComparisonMeets(g: Env, op: BinCmp, xa: Rk, xb: Rk, r0: Regs, r: Regs, va: Value, vb: Value, top: int, n: int, c': Code)
    requires SameBelow(r0, r, top) && Operand(g, r, xa) == va && Operand(g, r, xb) == vb
    ensures Meets(c', VJmp(n), Ls([], [], []), g, Fall(r0), Here(Bool(EvalCmp(g, op, va, vb)), Bare), top,
                  Split(g, CmpInstr(op, xa, xb), n, Fall(r)))
  {
  }

  /** `codecomp` behind its two operands. */
  lemma CompareGood(fs: Fs, e: Exp, ls: Ls, outer: set<int>, op: BinCmp, fsa: Fs, ka: Kind, lsa: Ls, g: Env, r: Regs, b: Outcome,
                    ya: Res, yb: Res, top: int, top2: int)
    requires Holds(fsa, Leaf(ka), lsa, outer, g, r, b, ya, top) && IsRk(ka) && (ka.VNonReloc? ==> ka.info < top2) && !b.Stuck?
    requires Holds(fs, e, ls, outer, g, r, Run(fsa, ka, lsa, outer, g, r), yb, top2) && e == Leaf(e.k) && IsRk(e.k) && top <= top2
    ensures var (fs', j) := CondJump(fs, CmpInstr(op, RkOf(ka), RkOf(e.k)));
            && Holds(fs', Leaf(VJmp(j)), Ls([], [], []), outer, g, r, b,
                     Here(Bool(EvalCmp(g, op, Delivered(ya), Delivered(yb))), Bare), top)
            && Kept(fs, fs', outer)
  {
    hide Wf, Targets, Exec, Meets, Norm, OuterSame, CleanStart, Listed, EvalCmp, Delivered;
    var i, c, ls0 := CmpInstr(op, RkOf(ka), RkOf(e.k)), Settled(fs), Ls([], [], []);
    var n := |c| + 1;
    NoLists(fsa, Leaf(ka), lsa, outer);
    NoLists(fs, e, ls, outer);
    CondJumpIs(fs, i);
    var fs' := CondJump(fs, i).0;
    SettledPatched(fs, e.t, e.f, ls, outer);
    SettledLists(fs, e.t, e.f, ls, outer);
    SettledRuns(fs, e.t, e.f, ls, outer, g, r);
    ListsKeptIs(fs.code, c, e.t, e.f, fs.jpc, ls, outer);
    PrefixOuter(c, fs'.code, outer);
    OuterSameTrans(fs.code, c, fs'.code, outer);
    TestAppended(c, i, Open(ls0, outer), fs.lasttarget, g, r);
    NotInWf(c, Open(ls0, outer), n);
    NoneListed(fs'.code, outer);
    BaseApart(fsa, NO_JUMP, NO_JUMP, lsa, outer, b);
    BaseApart(fs, NO_JUMP, NO_JUMP, ls, outer, b);
    ComparisonSplits(g, fs.code, fsa.code, op, ka, e.k, b, Raw(fsa, ka, lsa, outer, g, r), ya, yb, top, top2, lsa, ls, n, fs'.code,
                     Raw(fs, e.k, ls, outer, g, r));
    CleanKept(fs, fs', outer, r);
  }

  lemma NoLists(fs: Fs, e: Exp, ls: Ls, outer: set<int>)
    requires Ok(fs, e, ls, outer) && e.t == e.f
    ensures ls.t == [] && ls.f == [] && ls.(j := []) == Ls([], [], [])
  {
    NoJumps(fs.code, e.t, e.f, fs.jpc, ls, outer);
  }

  lemma NoneListed(c: Code, outer: set<int>)
    ensures Listed(c, NO_JUMP, NO_JUMP, NO_JUMP, Ls([], [], []), outer)
  {
  }

  /** Both registers of the operands are free again. */
  lemma OperandsFreed(fs: Fs, ka: Kind, kb: Kind, top: int, top2: int)
    requires Sized(fs, kb, top2) && IsRk(ka) && IsRk(kb) && 0 <= fs.nactvar <= top
    requires top2 == top + (if ka.VNonReloc? && ka.info >= fs.nactvar then 1 else 0)
    ensures var fs' := FreeExp(FreeExp(fs, Leaf(kb)), Leaf(ka));
            fs'.freereg == top && fs' == fs.(freereg := fs'.freereg, maxstack := fs'.maxstack)
  {
  }

  // ------------------------------------------------------------- the induction

  /** What the compiler needs to be able to go on to the end. */
  ghost predicate Compilable(fs: Fs, x: Expr, g: Env) {
    && 0 <= fs.nactvar <= fs.freereg <= fs.maxstack && LocalsBelow(x, fs.nactvar)
    && Compile(fs, x).0.k <= g.k && Compile(fs, x).0.maxstack < MAXSTACK
  }

  /** The code behind `fs` yields what the tree says. */
  ghost predicate Computes(fs: Fs, x: Expr, fs': Fs, e: Exp, ls: Ls, outer: set<int>, g: Env, r: Regs, b: Outcome, cy: Carry,
                           m: bool) {
    && Holds(fs', e, ls, outer, g, r, b, YieldAt(g, b, x, fs.k, cy), fs.freereg) && Sized(fs', e.k, fs.freereg)
    && Kept(fs, fs', outer) && TrueConstant(g, e.k) && fs'.freereg <= fs'.maxstack
    && FormIs(FormOf(x, fs.k), fs', e, fs.nactvar) && MarksIn(fs'.code, ls) == MarksOf(x, fs.k, m)
  }

  /** Compiling any tree yields code that does exactly what `Yield` says of it. */
  lemma {:induction false} CompileComputes(fs: Fs, x: Expr, j: seq<int>, outer: set<int>, g: Env, r: Regs, b: Outcome, cy: Carry)
    returns (ls: Ls)
    requires Start(fs, j, outer, g, r, b, cy) && Compilable(fs, x, g)
    ensures Computes(fs, x, Compile(fs, x).0, Compile(fs, x).1, ls, outer, g, r, b, cy, SetIn(fs.code, j))
    decreases x, 1
  {
    match x {
      case Paren(a) =>
        ls := CompileParen(fs, a, j, outer, g, r, b, cy);
      case NotE(a) =>
        ls := CompileNot(fs, a, j, outer, g, r, b, cy);
      case And(a, c) =>
        ls := CompileAnd(fs, a, c, j, outer, g, r, b, cy);
      case Or(a, c) =>
        ls := CompileOr(fs, a, c, j, outer, g, r, b, cy);
      case CmpE(op, a, c) =>
        ls := CompileCmp(fs, op, a, c, j, outer, g, r, b, cy);
      case _ =>
        CompileLeaf(fs, x, j, outer, g, r, b, cy);
        ls := Ls([], [], j);
    }
  }

  predicate IsLeaf(x: Expr) {
    !x.Paren? && !x.NotE? && !x.And? && !x.Or? && !x.CmpE?
  }

  lemma LeafForm(fs: Fs, x: Expr, m: bool)
    requires IsLeaf(x) && 0 <= fs.nactvar <= fs.freereg && LocalsBelow(x, fs.nactvar)
    ensures var (fs', e) := Compile(fs, x);
            && FormIs(FormOf(x, fs.k), fs', e, fs.nactvar) && MarksOf(x, fs.k, m) == Marks(false, false, m)
            && Sized(fs', e.k, fs.freereg) && e == Leaf(e.k) && fs' == fs.(k := fs'.k) && !e.k.VReloc? && !e.k.VJmp?
  {
    hide FindK;
  }

  lemma LeafValue(fs: Fs, x: Expr, g: Env, r: Regs, cy: Carry)
    requires IsLeaf(x) && Compile(fs, x).0.k <= g.k
    ensures var (fs', e) := Compile(fs, x);
            var y := Yield(g, r, x, fs.k, cy);
            y.Here? && y.c == cy && HasValue(g, fs'.code, e.k, r, y.v) && TrueConstant(g, e.k)
  {
    hide FindK;
    if x.StringLit? {
      AddKFinds(fs, Other(x.id), g);
    }
  }

  lemma CompileLeaf(fs: Fs, x: Expr, j: seq<int>, outer: set<int>, g: Env, r: Regs, b: Outcome, cy: Carry)
    requires Start(fs, j, outer, g, r, b, cy) && Compilable(fs, x, g)
    requires IsLeaf(x)
    ensures Computes(fs, x, Compile(fs, x).0, Compile(fs, x).1, Ls([], [], j), outer, g, r, b, cy, SetIn(fs.code, j))
  {
    hide Listed, CodeOk, Exec, Meets, FindK, Raw, Compile, FormOf, MarksOf, FormIs, Sized, Yield, HasValue, TrueConstant, LocalsBelow, IsLeaf;
    var (fs', e) := Compile(fs, x);
    LeafForm(fs, x, SetIn(fs.code, j));
    LeafValue(fs, x, g, if b.Fall? then b.r else map[], cy);
    CompileGrows(fs, x);
    LeafGood(fs', e.k, j, outer, g, r, b, cy, YieldAt(g, b, x, fs.k, cy), fs.freereg);
    KeptRefl(fs, outer);
  }

  lemma {:induction false} CompileParen(fs: Fs, a: Expr, j: seq<int>, outer: set<int>, g: Env, r: Regs, b: Outcome, cy: Carry)
    returns (ls: Ls)
    requires Start(fs, j, outer, g, r, b, cy) && Compilable(fs, Paren(a), g)
    ensures Computes(fs, Paren(a), Compile(fs, Paren(a)).0, Compile(fs, Paren(a)).1, ls, outer, g, r, b, cy, SetIn(fs.code, j))
    decreases a, 2
  {
    hide Start, Ok, Good, CleanStart, DischargeVars, OuterSame, FormIs, SetIn;
    var (fs1, e) := Compile(fs, a);
    var (fs2, e2) := DischargeVars(fs1, e);
    DischargeVarsGrows(fs1, e);
    var ls1 := CompileComputes(fs, a, j, outer, g, r, b, cy);
    FormTail(FormOf(a, fs.k), fs1, e, fs.nactvar);
    ls := DischargeVarsGood(fs1, e, ls1, outer, g, r, b, YieldAt(g, b, a, fs.k, cy), fs.freereg);
    DischargeForm(FormOf(a, fs.k), fs1, e, fs.nactvar);
    DischargedConstant(fs1, e);
    KeptTrans(fs, fs1, fs2, outer);
  }

  lemma FormTail(a: Form, fs: Fs, e: Exp, n: int)
    requires FormIs(a, fs, e, n)
    ensures a.tail == Ends(fs.code, e.k) && a.k == fs.k
  {
  }

  lemma {:induction false} CompileNot(fs: Fs, a: Expr, j: seq<int>, outer: set<int>, g: Env, r: Regs, b: Outcome, cy: Carry)
    returns (ls: Ls)
    requires Start(fs, j, outer, g, r, b, cy) && Compilable(fs, NotE(a), g)
    ensures Computes(fs, NotE(a), Compile(fs, NotE(a)).0, Compile(fs, NotE(a)).1, ls, outer, g, r, b, cy, SetIn(fs.code, j))
    decreases a, 2
  {
    hide Start, Ok, CleanStart, CodeNot, OuterSame, Meets, Raw, FormIs, SetIn;
    var (fs1, e) := Compile(fs, a);
    var (fs2, e2) := CodeNot(fs1, e);
    var y := YieldAt(g, b, a, fs.k, cy);
    CodeNotGrows(fs1, e);
    var ls1 := CompileComputes(fs, a, j, outer, g, r, b, cy);
    FormTail(FormOf(a, fs.k), fs1, e, fs.nactvar);
    ls := CodeNotGood(fs1, e, ls1, outer, g, r, b, y, fs.freereg);
    HoldsSame(fs2, e2, ls, outer, g, r, b, Negate(Ends(fs1.code, e.k), y), YieldAt(g, b, NotE(a), fs.k, cy), fs.freereg);
    NotForm(FormOf(a, fs.k), fs1, e, fs.nactvar);
    KeptTrans(fs, fs1, fs2, outer);
  }

  /** `luaK_infix` behind the first operand of `and` (`side`) and `or`. */
  function GoIf(fs: Fs, e: Exp, side: bool): (Fs, Exp) {
    if side then GoIfTrue(fs, e) else GoIfFalse(fs, e)
  }

  /** The first operand of `and` (`side`) or `or` has been compiled, and the branch behind it. */
  ghost predicate FirstDone(fs: Fs, a: Expr, side: bool, ls: Ls, outer: set<int>, g: Env, r: Regs, b: Outcome, cy: Carry, m: bool) {
    var (fs2, e) := GoIf(Compile(fs, a).0, Compile(fs, a).1, side);
    var fa, ma := FormOf(a, fs.k), MarksOf(a, fs.k, m);
    var w := Go(fa.tail, side, YieldAt(g, b, a, fs.k, cy));
    var b1 := Norm(Exec(fs2.code, Open(ls, outer), g, 0, r), ls.j);
    && Branch(fs2, e, ls, outer, g, r, b, w, side, fs.freereg) && (b.Fall? ==> (w.Arrives? <==> b1.Fall?))
    && Kept(fs, fs2, outer) && fs2.freereg == fs.freereg <= fs2.maxstack && fs2.k == GoConstants(fa, side)
    && ((if side then e.f else e.t) != NO_JUMP <==> (if side then fa.f else fa.t) || !fa.tail.Stays(side))
    && MarksIn(fs2.code, ls) == GoMarks(fa.tail, side, ma) && (SetIn(fs2.code, ls.j) <==> PendingMark(fa.tail, side, ma))
  }

  /** The first operand, and the branch behind it. */
  lemma {:induction false} CompileFirst(fs: Fs, a: Expr, side: bool, j: seq<int>, outer: set<int>, g: Env, r: Regs, b: Outcome, cy: Carry)
    returns (ls: Ls)
    requires Start(fs, j, outer, g, r, b, cy)
    requires 0 <= fs.nactvar <= fs.freereg <= fs.maxstack && LocalsBelow(a, fs.nactvar)
    requires var fs2 := GoIf(Compile(fs, a).0, Compile(fs, a).1, side).0; fs2.k <= g.k && fs2.maxstack < MAXSTACK
    ensures FirstDone(fs, a, side, ls, outer, g, r, b, cy, SetIn(fs.code, j))
    ensures var fs2 := GoIf(Compile(fs, a).0, Compile(fs, a).1, side).0;
            var w := Go(FormOf(a, fs.k).tail, side, YieldAt(g, b, a, fs.k, cy));
            Start(fs2, ls.j, outer + SetOf(if side then ls.f else ls.t), g, r, Norm(Exec(fs2.code, Open(ls, outer), g, 0, r), ls.j), Onward(w))
    decreases a, 2
  {
    hide Start, Holds, CleanStart, OuterSame, GoIfTrue, GoIfFalse, Branch, Sized, FormIs, Go, Onward, SetIn;
    var (fs1, e1) := Compile(fs, a);
    var (fs2, e) := GoIf(fs1, e1, side);
    var fa, y := FormOf(a, fs.k), YieldAt(g, b, a, fs.k, cy);
    GoIfTrueGrows(fs1, e1);
    GoIfFalseGrows(fs1, e1);
    CompileGrows(fs, a);
    StartRuns(fs, j, outer, g, r, b, cy);
    var ls1 := CompileComputes(fs, a, j, outer, g, r, b, cy);
    FormTail(fa, fs1, e1, fs.nactvar);
    GoForm(fa, fs1, e1, fs.nactvar, side);
    if side {
      ls := GoIfTrueBranch(fs1, e1, ls1, outer, g, r, b, y, fs.freereg);
    } else {
      ls := GoIfFalseBranch(fs1, e1, ls1, outer, g, r, b, y, fs.freereg);
    }
    BranchStarts(fs2, e, ls, outer, g, r, b, Go(fa.tail, side, y), side, fs.freereg);
    KeptTrans(fs, fs1, fs2, outer);
  }

  lemma PairIs(fs: Fs, a: Expr, c: Expr, side: bool)
    ensures var e1 := GoIf(Compile(fs, a).0, Compile(fs, a).1, side).1;
            var (fs4, e2) := Compile(GoIf(Compile(fs, a).0, Compile(fs, a).1, side).0, Paren(c));
            var (code, h) := Concat(fs4.code, if side then e2.f else e2.t, if side then e1.f else e1.t);
            Compile(fs, if side then And(a, c) else Or(a, c)) == (fs4.(code := code), if side then e2.(f := h) else e2.(t := h))
  {
    hide GoIfTrue, GoIfFalse, DischargeVars, Concat;
  }

  /** What the first operand needs. */
  lemma PairNeeds(fs: Fs, a: Expr, c: Expr, side: bool, g: Env)
    requires Compilable(fs, if side then And(a, c) else Or(a, c), g)
    ensures 0 <= fs.nactvar <= fs.freereg <= fs.maxstack && LocalsBelow(a, fs.nactvar) && LocalsBelow(c, fs.nactvar)
    ensures var fs2 := GoIf(Compile(fs, a).0, Compile(fs, a).1, side).0; fs2.k <= g.k && fs2.maxstack < MAXSTACK
  {
    hide Compile, GoIf, Concat;
    PairIs(fs, a, c, side);
    CompileGrows(GoIf(Compile(fs, a).0, Compile(fs, a).1, side).0, Paren(c));
  }

  /** What the second operand needs. */
  lemma PairGoesOn(fs: Fs, fs2: Fs, a: Expr, c: Expr, side: bool, outer: set<int>, g: Env)
    requires Compilable(fs, if side then And(a, c) else Or(a, c), g)
    requires fs2 == GoIf(Compile(fs, a).0, Compile(fs, a).1, side).0 && Kept(fs, fs2, outer) && fs2.freereg == fs.freereg <= fs2.maxstack
    ensures Compilable(fs2, Paren(c), g)
  {
    hide Compile, GoIf, Concat, OuterSame;
    PairIs(fs, a, c, side);
  }

  lemma {:induction false} CompileAnd(fs: Fs, a: Expr, c: Expr, j: seq<int>, outer: set<int>, g: Env, r: Regs, b: Outcome, cy: Carry)
    returns (ls: Ls)
    requires Start(fs, j, outer, g, r, b, cy) && Compilable(fs, And(a, c), g)
    ensures Computes(fs, And(a, c), Compile(fs, And(a, c)).0, Compile(fs, And(a, c)).1, ls, outer, g, r, b, cy, SetIn(fs.code, j))
    decreases And(a, c), 0
  {
    hide Start, Computes, CleanStart, OuterSame, GoIf, Compile, Compilable, LocalsBelow, Branch, Go, Onward, SetIn, PendingMark, FormOf, MarksOf, Exec, Norm, Open;
    var fs2 := GoIf(Compile(fs, a).0, Compile(fs, a).1, true).0;
    PairNeeds(fs, a, c, true, g);
    var ls2 := CompileFirst(fs, a, true, j, outer, g, r, b, cy);
    PairGoesOn(fs, fs2, a, c, true, outer, g);
    var w, b1 := Go(FormOf(a, fs.k).tail, true, YieldAt(g, b, a, fs.k, cy)), Norm(Exec(fs2.code, Open(ls2, outer), g, 0, r), ls2.j);
    var ls4 := CompileParen(fs2, c, ls2.j, outer + SetOf(ls2.f), g, r, b1, Onward(w));
    StartRuns(fs, j, outer, g, r, b, cy);
    FinishAnd(fs, a, c, ls2, ls4, outer, g, r, b, cy, SetIn(fs.code, j));
    ls := ls4.(f := ls4.f + ls2.f);
  }

  lemma FinishAnd(fs: Fs, a: Expr, c: Expr, ls2: Ls, ls4: Ls, outer: set<int>, g: Env, r: Regs, b: Outcome, cy: Carry, m: bool)
    requires FirstDone(fs, a, true, ls2, outer, g, r, b, cy, m) && !b.Stuck? && LocalsBelow(c, fs.nactvar) && fs.nactvar <= fs.freereg
    requires var fs2 := GoIf(Compile(fs, a).0, Compile(fs, a).1, true).0;
             var w := Go(FormOf(a, fs.k).tail, true, YieldAt(g, b, a, fs.k, cy));
             Computes(fs2, Paren(c), Compile(fs2, Paren(c)).0, Compile(fs2, Paren(c)).1, ls4, outer + SetOf(ls2.f), g, r,
                      Norm(Exec(fs2.code, Open(ls2, outer), g, 0, r), ls2.j), Onward(w), SetIn(fs2.code, ls2.j))
    ensures Computes(fs, And(a, c), Compile(fs, And(a, c)).0, Compile(fs, And(a, c)).1, ls4.(f := ls4.f + ls2.f), outer, g, r, b, cy, m)
  {
    hide Holds, CleanStart, OuterSame, GoIf, Compile, LocalsBelow, Concat, Branch, Sized, FormIs, Go, Onward, Join, SetIn, AwayMark, PendingMark, FormOf, MarksOf, MarksIn, Yield, YieldAt, Exec, Norm, Open;
    var (fs2, e1) := GoIf(Compile(fs, a).0, Compile(fs, a).1, true);
    var (fs4, e2) := Compile(fs2, Paren(c));
    var (code, h) := Concat(fs4.code, e2.f, e1.f);
    var w, k1 := Go(FormOf(a, fs.k).tail, true, YieldAt(g, b, a, fs.k, cy)), GoConstants(FormOf(a, fs.k), true);
    var b1 := Norm(Exec(fs2.code, Open(ls2, outer), g, 0, r), ls2.j);
    PairIs(fs, a, c, true);
    PairOf(a, c, fs.k, m, true);
    SecondYield(fs2, e1, ls2, outer, g, r, b, cy, a, c, fs.k, true, fs.freereg, fs.nactvar);
    MergeFalse(fs2, e1, ls2, fs4, e2, ls4, outer, g, r, b, w, YieldAt(g, b1, Paren(c), k1, Onward(w)), YieldAt(g, b, And(a, c), fs.k, cy), fs.freereg);
    JoinForm(FormOf(Paren(c), k1), fs4, e2, fs.nactvar, e1.f, true);
    KeptTrans(fs, fs2, fs4.(code := code), outer);
    SizedSame(fs4, fs4.(code := code), e2.k, fs.freereg);
  }

  lemma SizedSame(fs: Fs, fs': Fs, k: Kind, top: int)
    requires Sized(fs, k, top) && fs'.nactvar == fs.nactvar && fs'.freereg == fs.freereg
    ensures Sized(fs', k, top)
  {
  }

  lemma StartRuns(fs: Fs, j: seq<int>, outer: set<int>, g: Env, r: Regs, b: Outcome, cy: Carry)
    requires Start(fs, j, outer, g, r, b, cy)
    ensures !b.Stuck?
  {
  }

  /** The second operand sees the locals as the first one did. */
  lemma SecondYield(fs: Fs, e: Exp, ls: Ls, outer: set<int>, g: Env, r: Regs, b: Outcome, cy: Carry, a: Expr, c: Expr, k: seq<Value>,
                    side: bool, top: int, n: int)
    requires var w := Go(FormOf(a, k).tail, side, YieldAt(g, b, a, k, cy));
             Branch(fs, e, ls, outer, g, r, b, w, side, top)
             && (b.Fall? ==> (w.Arrives? <==> Norm(Exec(fs.code, Open(ls, outer), g, 0, r), ls.j).Fall?))
    requires LocalsBelow(c, n) && n <= top
    ensures var b1 := Norm(Exec(fs.code, Open(ls, outer), g, 0, r), ls.j);
            var w := Go(FormOf(a, k).tail, side, YieldAt(g, b, a, k, cy));
            var k1 := GoConstants(FormOf(a, k), side);
            b.Fall? ==> YieldAt(g, b, if side then And(a, c) else Or(a, c), k, cy) ==
                          if w.Leaves? then Left(!side, w.c) else YieldAt(g, b1, Paren(c), k1, Onward(w))
  {
    hide Exec, Listed, CodeOk, Go, FormOf;
    var b1 := Norm(Exec(fs.code, Open(ls, outer), g, 0, r), ls.j);
    var w := Go(FormOf(a, k).tail, side, YieldAt(g, b, a, k, cy));
    if b.Fall? && b1.Fall? {
      YieldFrame(g, b.r, b1.r, c, n, GoConstants(FormOf(a, k), side), Onward(w));
    }
  }

  lemma {:induction false} CompileOr(fs: Fs, a: Expr, c: Expr, j: seq<int>, outer: set<int>, g: Env, r: Regs, b: Outcome, cy: Carry)
    returns (ls: Ls)
    requires Start(fs, j, outer, g, r, b, cy) && Compilable(fs, Or(a, c), g)
    ensures Computes(fs, Or(a, c), Compile(fs, Or(a, c)).0, Compile(fs, Or(a, c)).1, ls, outer, g, r, b, cy, SetIn(fs.code, j))
    decreases Or(a, c), 0
  {
    hide Start, Computes, CleanStart, OuterSame, GoIf, Compile, Compilable, LocalsBelow, Branch, Go, Onward, SetIn, PendingMark, FormOf, MarksOf, Exec, Norm, Open;
    var fs2 := GoIf(Compile(fs, a).0, Compile(fs, a).1, false).0;
    PairNeeds(fs, a, c, false, g);
    var ls2 := CompileFirst(fs, a, false, j, outer, g, r, b, cy);
    PairGoesOn(fs, fs2, a, c, false, outer, g);
    var w, b1 := Go(FormOf(a, fs.k).tail, false, YieldAt(g, b, a, fs.k, cy)), Norm(Exec(fs2.code, Open(ls2, outer), g, 0, r), ls2.j);
    var ls4 := CompileParen(fs2, c, ls2.j, outer + SetOf(ls2.t), g, r, b1, Onward(w));
    StartRuns(fs, j, outer, g, r, b, cy);
    FinishOr(fs, a, c, ls2, ls4, outer, g, r, b, cy, SetIn(fs.code, j));
    ls := ls4.(t := ls4.t + ls2.t);
  }

  lemma FinishOr(fs: Fs, a: Expr, c: Expr, ls2: Ls, ls4: Ls, outer: set<int>, g: Env, r: Regs, b: Outcome, cy: Carry, m: bool)
    requires FirstDone(fs, a, false, ls2, outer, g, r, b, cy, m) && !b.Stuck? && LocalsBelow(c, fs.nactvar) && fs.nactvar <= fs.freereg
    requires var fs2 := GoIf(Compile(fs, a).0, Compile(fs, a).1, false).0;
             var w := Go(FormOf(a, fs.k).tail, false, YieldAt(g, b, a, fs.k, cy));
             Computes(fs2, Paren(c), Compile(fs2, Paren(c)).0, Compile(fs2, Paren(c)).1, ls4, outer + SetOf(ls2.t), g, r,
                      Norm(Exec(fs2.code, Open(ls2, outer), g, 0, r), ls2.j), Onward(w), SetIn(fs2.code, ls2.j))
    ensures Computes(fs, Or(a, c), Compile(fs, Or(a, c)).0, Compile(fs, Or(a, c)).1, ls4.(t := ls4.t + ls2.t), outer, g, r, b, cy, m)
  {
    hide Holds, CleanStart, OuterSame, GoIf, Compile, LocalsBelow, Concat, Branch, Sized, FormIs, Go, Onward, Join, SetIn, AwayMark, PendingMark, FormOf, MarksOf, MarksIn, Yield, YieldAt, Exec, Norm, Open;
    var (fs2, e1) := GoIf(Compile(fs, a).0, Compile(fs, a).1, false);
    var (fs4, e2) := Compile(fs2, Paren(c));
    var (code, h) := Concat(fs4.code, e2.t, e1.t);
    var w, k1 := Go(FormOf(a, fs.k).tail, false, YieldAt(g, b, a, fs.k, cy)), GoConstants(FormOf(a, fs.k), false);
    var b1 := Norm(Exec(fs2.code, Open(ls2, outer), g, 0, r), ls2.j);
    PairIs(fs, a, c, false);
    PairOf(a, c, fs.k, m, false);
    SecondYield(fs2, e1, ls2, outer, g, r, b, cy, a, c, fs.k, false, fs.freereg, fs.nactvar);
    MergeTrue(fs2, e1, ls2, fs4, e2, ls4, outer, g, r, b, w, YieldAt(g, b1, Paren(c), k1, Onward(w)), YieldAt(g, b, Or(a, c), fs.k, cy), fs.freereg);
    JoinForm(FormOf(Paren(c), k1), fs4, e2, fs.nactvar, e1.t, false);
    KeptTrans(fs, fs2, fs4.(code := code), outer);
    SizedSame(fs4, fs4.(code := code), e2.k, fs.freereg);
  }

  ghost function OperandAt(g: Env, b: Outcome, x: Expr, k: seq<Value>, cy: Carry): Res {
    if b.Fall? then Placed(FormOf(x, k), Yield(g, b.r, x, k, cy)) else Here(Nil, Bare)
  }

  /** `luaK_exp2RK` finds the operand in place exactly if its form says so. */
  lemma OperandForm(a: Form, fs: Fs, e: Exp, ls: Ls, outer: set<int>, y: Res)
    requires FormIs(a, fs, e, fs.nactvar) && Ok(fs, e, ls, outer)
    ensures AsOperand(fs, e, y) == Placed(a, y) && (OperandStays(fs, e) <==> InPlace(a))
    ensures Exp2RK(fs, e).0.k == OperandConstants(a)
  {
    hide Ok, Exp2AnyReg, Delivered, FindK;
    EqualHeads(fs, e, ls, outer);
    AnyConstants(fs, e);
    AnyConstants(Exp2Val(fs, e).0, Exp2Val(fs, e).1);
  }

  lemma EqualHeads(fs: Fs, e: Exp, ls: Ls, outer: set<int>)
    requires Ok(fs, e, ls, outer)
    ensures e.t == e.f ==> e.t == NO_JUMP
  {
    if e.t == e.f {
      NoJumps(fs.code, e.t, e.f, fs.jpc, ls, outer);
    }
  }

  /** An operand of a comparison, compiled and brought into place. */
  lemma {:induction false} CompileOperand(fs: Fs, a: Expr, j: seq<int>, outer: set<int>, g: Env, r: Regs, b: Outcome, cy: Carry)
    returns (ls: Ls)
    requires Start(fs, j, outer, g, r, b, cy)
    requires 0 <= fs.nactvar <= fs.freereg <= fs.maxstack && LocalsBelow(a, fs.nactvar)
    requires var fs2 := Exp2RK(Compile(fs, a).0, Compile(fs, a).1).0; fs2.k <= g.k && fs2.maxstack < MAXSTACK
    ensures var (fs2, ea) := Exp2RK(Compile(fs, a).0, Compile(fs, a).1);
            && Holds(fs2, ea, ls, outer, g, r, b, OperandAt(g, b, a, fs.k, cy), fs.freereg) && Sized(fs2, ea.k, fs.freereg)
            && Kept(fs, fs2, outer) && ea == Leaf(ea.k) && IsRk(ea.k) && fs2.freereg <= fs2.maxstack
            && fs2.k == OperandConstants(FormOf(a, fs.k))
            && (SetIn(fs2.code, ls.j) <==> InPlace(FormOf(a, fs.k)) && MarksOf(a, fs.k, SetIn(fs.code, j)).j)
    decreases a, 2
  {
    hide Start, CleanStart, OuterSame, Exp2RK, Ok, Good, FormIs, FormOf, SetIn, InPlace;
    var (fs1, e1) := Compile(fs, a);
    var y := YieldAt(g, b, a, fs.k, cy);
    Exp2RKGrows(fs1, e1);
    CompileGrows(fs, a);
    var ls1 := CompileComputes(fs, a, j, outer, g, r, b, cy);
    OperandForm(FormOf(a, fs.k), fs1, e1, ls1, outer, y);
    ls := Exp2RKGood(fs1, e1, ls1, outer, g, r, b, y, fs.freereg);
    var (fs2, ea) := Exp2RK(fs1, e1);
    HoldsSame(fs2, ea, ls, outer, g, r, b, AsOperand(fs1, e1, y), OperandAt(g, b, a, fs.k, cy), fs.freereg);
    KeptTrans(fs, fs1, fs2, outer);
  }

  lemma {:induction false} CompileCmp(fs: Fs, op: BinCmp, a: Expr, c: Expr, j: seq<int>, outer: set<int>, g: Env, r: Regs, b: Outcome, cy: Carry)
    returns (ls: Ls)
    requires Start(fs, j, outer, g, r, b, cy) && Compilable(fs, CmpE(op, a, c), g)
    ensures Computes(fs, CmpE(op, a, c), Compile(fs, CmpE(op, a, c)).0, Compile(fs, CmpE(op, a, c)).1, ls, outer, g, r, b, cy, SetIn(fs.code, j))
    decreases CmpE(op, a, c), 0
  {
    hide Start, CleanStart, OuterSame, Exp2RK, CondJump, Ok, Good, EvalCmp, CodeComp, FormIs, FormOf, SetIn, MarksOf;
    var (fs1, e1) := Compile(fs, a);
    var (fs2, ea) := Exp2RK(fs1, e1);
    var (fs3, e2) := Compile(fs2, c);
    var (fs4, eb) := Exp2RK(fs3, e2);
    Exp2RKGrows(fs1, e1);
    CompileGrows(fs2, c);
    CompileGrows(fs, a);
    CodeCompGrows(fs3, op, ea, e2);
    StartRuns(fs, j, outer, g, r, b, cy);
    var ls2 := CompileOperand(fs, a, j, outer, g, r, b, cy);
    var ya := OperandAt(g, b, a, fs.k, cy);
    OperandStarts(fs2, ea, ls2, outer, g, r, b, ya, fs.freereg);
    ComparisonEnds(fs3, op, ea, e2);
    var b1 := Run(fs2, ea.k, ls2, outer, g, r);
    var ls4 := CompileOperand(fs2, c, ls2.j, outer, g, r, b1, ya.c);
    ls := Ls([], [], []);
    FinishCmp(fs, op, a, c, fs2, ea, ls2, fs4, eb, ls4, outer, g, r, b, cy, SetIn(fs.code, j));
  }

  /** The code of a comparison ends with `codecomp` on its two operands. */
  lemma ComparisonEnds(fs: Fs, op: BinCmp, ea: Exp, e2: Exp)
    requires ea == Leaf(ea.k) && IsRk(ea.k)
    ensures var (fs4, eb) := Exp2RK(fs, e2);
            var (fs6, p) := CondJump(FreeExp(FreeExp(fs4, eb), ea), CmpInstr(op, RkOf(ea.k), RkOf(eb.k)));
            CodeComp(fs, op, ea, e2) == (fs6, Leaf(VJmp(p)))
            && fs6.k == fs4.k && fs6.maxstack == fs4.maxstack
  {
    hide Exp2RK, Settled;
    var (fs4, eb) := Exp2RK(fs, e2);
    ReadyOperand(fs, ea);
    CondJumpIs(FreeExp(FreeExp(fs4, eb), ea), CmpInstr(op, RkOf(ea.k), RkOf(eb.k)));
  }

  /** The second operand of a comparison sees the locals as the first one did. */
  lemma ComparedYield(fs: Fs, e: Exp, ls: Ls, outer: set<int>, g: Env, r: Regs, b: Outcome, cy: Carry, op: BinCmp, a: Expr, c: Expr,
                      k: seq<Value>, top: int, n: int)
    requires Holds(fs, e, ls, outer, g, r, b, OperandAt(g, b, a, k, cy), top) && ls.t == [] && ls.f == [] && !e.k.VJmp?
    requires LocalsBelow(c, n) && n <= top
    ensures var b1 := Run(fs, e.k, ls, outer, g, r);
            var k1, ya := OperandConstants(FormOf(a, k)), OperandAt(g, b, a, k, cy);
            b.Fall? ==> YieldAt(g, b, CmpE(op, a, c), k, cy) ==
                          Here(Bool(EvalCmp(g, op, Delivered(ya), Delivered(OperandAt(g, b1, c, k1, ya.c)))), Bare)
  {
    hide Ok, CleanStart, Exec, EvalCmp, Delivered, FormOf, CarryAt;
    var b1 := Run(fs, e.k, ls, outer, g, r);
    if b.Fall? {
      assert b1.Fall?;
      YieldFrame(g, b.r, b1.r, c, n, OperandConstants(FormOf(a, k)), OperandAt(g, b, a, k, cy).c);
    }
  }

  lemma CompareForm(fs: Fs, op: BinCmp, a: Expr, c: Expr, fs6: Fs, p: int, m: bool, n: int)
    requires p >= 0 && fs6.k == OperandConstants(FormOf(c, OperandConstants(FormOf(a, fs.k))))
    ensures FormIs(FormOf(CmpE(op, a, c), fs.k), fs6, Leaf(VJmp(p)), n)
    ensures MarksIn(fs6.code, Ls([], [], [])) == MarksOf(CmpE(op, a, c), fs.k, m)
  {
  }

  lemma FinishCmp(fs: Fs, op: BinCmp, a: Expr, c: Expr, fs2: Fs, ea: Exp, ls2: Ls, fs4: Fs, eb: Exp, ls4: Ls, outer: set<int>, g: Env,
                  r: Regs, b: Outcome, cy: Carry, m: bool)
    requires Holds(fs2, ea, ls2, outer, g, r, b, OperandAt(g, b, a, fs.k, cy), fs.freereg) && Sized(fs2, ea.k, fs.freereg)
    requires var b1, ya := Run(fs2, ea.k, ls2, outer, g, r), OperandAt(g, b, a, fs.k, cy);
             Holds(fs4, eb, ls4, outer, g, r, b1, OperandAt(g, b1, c, fs2.k, ya.c), fs2.freereg)
    requires Sized(fs4, eb.k, fs2.freereg) && Kept(fs, fs2, outer) && Kept(fs2, fs4, outer)
    requires ea == Leaf(ea.k) && eb == Leaf(eb.k) && IsRk(ea.k) && IsRk(eb.k) && !b.Stuck?
    requires LocalsBelow(c, fs.nactvar) && fs.nactvar <= fs.freereg && ls2.t == [] && ls2.f == [] && fs.freereg <= fs4.maxstack
    requires fs2.k == OperandConstants(FormOf(a, fs.k)) && fs4.k == OperandConstants(FormOf(c, fs2.k))
    ensures var (fs6, p) := CondJump(FreeExp(FreeExp(fs4, eb), ea), CmpInstr(op, RkOf(ea.k), RkOf(eb.k)));
            Computes(fs, CmpE(op, a, c), fs6, Leaf(VJmp(p)), Ls([], [], []), outer, g, r, b, cy, m)
  {
    hide CleanStart, OuterSame, CondJump, Ok, Good, EvalCmp, Delivered, FormOf, FormIs, MarksOf, MarksIn, Yield, OperandAt, Run, Settled;
    var b1, top2 := Run(fs2, ea.k, ls2, outer, g, r), fs2.freereg;
    var ya := OperandAt(g, b, a, fs.k, cy);
    var yb, y := OperandAt(g, b1, c, fs2.k, ya.c), YieldAt(g, b, CmpE(op, a, c), fs.k, cy);
    var fs5 := FreeExp(FreeExp(fs4, eb), ea);
    var (fs6, p) := CondJump(fs5, CmpInstr(op, RkOf(ea.k), RkOf(eb.k)));
    OperandsFreed(fs4, ea.k, eb.k, fs.freereg, top2);
    HoldsRegs(fs4, fs5, eb, ls4, outer, g, r, b1, yb, top2);
    CompareGood(fs5, eb, ls4, outer, op, fs2, ea.k, ls2, g, r, b, ya, yb, fs.freereg, top2);
    CondJumpIs(fs5, CmpInstr(op, RkOf(ea.k), RkOf(eb.k)));
    CompareForm(fs, op, a, c, fs6, p, m, fs.nactvar);
    ComparedYield(fs2, ea, ls2, outer, g, r, b, cy, op, a, c, fs.k, fs.freereg, fs.nactvar);
    HoldsSame(fs6, Leaf(VJmp(p)), Ls([], [], []), outer, g, r, b,
              Here(Bool(EvalCmp(g, op, Delivered(ya), Delivered(yb))), Bare), y, fs.freereg);
    KeptTrans(fs, fs2, fs4, outer);
    KeptTrans(fs, fs4, fs5, outer);
    KeptTrans(fs, fs5, fs6, outer);
  }
}
