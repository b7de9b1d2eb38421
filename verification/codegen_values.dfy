/**
 Putting the value of an expression into a register: loading it (discharge2reg), and bringing
 in what left the expression by its jumps (exp2reg).
 */
module CodeGenValues {
  import opened Vm
  import opened CodeGen
  import opened CodeGenLists
  import opened CodeGenSem
  import opened CodeGenYield
  import opened Sequences

  /** Functions start with their free registers clean (`luaK_nil` relies on it). */
  ghost predicate CleanStart(fs: Fs, r: Regs) {
    fs.code == [] ==> forall i :: i >= fs.nactvar ==> Get(r, i) == Nil
  }

  /** A jump that left brings what it brought while code changes around it. */
  lemma CarrySame(c: Code, c': Code, j: int, r: Regs)
    requires 0 <= j < |c| && SameJump(c, c', j) && c[j].Jmp?
    ensures CarryAt(c', j, r) == CarryAt(c, j, r)
  {
  }

  /** What ended with the value of `y` still does, and what left has not changed. */
  ghost predicate GoesOn(g: Env, c: Code, k: Kind, c': Code, k': Kind, y: Res, top: int, o: Outcome, o': Outcome) {
    if o.Fall? then o'.Fall? && (y.Here? && HasValue(g, c, k, o.r, y.v) ==> SameBelow(o.r, o'.r, top) && HasValue(g, c', k', o'.r, y.v))
    else o' == o
  }

  /** The jumps of the lists have not changed, nor the tests in front of them. */
  ghost predicate ListsKept(c: Code, c': Code, ls: Ls) {
    && AreJumps(c, SetOf(ls.t) + SetOf(ls.f)) && OuterSame(c, c', SetOf(ls.t) + SetOf(ls.f))
    && SetOf(ls.j) !! SetOf(ls.t) + SetOf(ls.f)
  }

  /** Only what ends at the end of the code goes on, and the pending jumps with it. */
  lemma MeetsGoesOn(c: Code, c': Code, k: Kind, k': Kind, ls: Ls, ls': Ls, g: Env, b: Outcome, y: Res, top: int,
                    o: Outcome, o': Outcome)
    requires Meets(c, k, ls, g, b, y, top, o) && !k.VJmp? && ls'.t == ls.t && ls'.f == ls.f && (b.Exit? ==> b.j !in SetOf(ls.j))
    requires ListsKept(c, c', ls) && GoesOn(g, c, k, c', k', y, top, Norm(o, ls.j), o')
    ensures Meets(c', k', ls', g, b, Drop(y), top, o')
  {
    if b.Fall? && o.Exit? {
      if o.j in ls.t || o.j in ls.f {
        assert o.j in SetOf(ls.t) + SetOf(ls.f);
        assert SameJump(c, c', o.j);
        CarrySame(c, c', o.j, o.r);
        assert o.j !in ls.j by {
          assert o.j !in SetOf(ls.j);
        }
      }
    }
  }

  /** The same jumps have values in tow. */
  lemma SameMarks(c: Code, c': Code, l: seq<int>)
    requires forall j :: j in l ==> 0 <= j < |c| && 0 <= j < |c'| && IsSet(c', j) == IsSet(c, j)
    ensures SetIn(c', l) <==> SetIn(c, l)
  {
    if SetIn(c, l) {
      var j :| j in l && 0 <= j < |c| && IsSet(c, j);
      assert IsSet(c', j);
    }
    if SetIn(c', l) {
      var j :| j in l && 0 <= j < |c'| && IsSet(c', j);
      assert IsSet(c, j);
    }
  }

  lemma KeptMarks(c: Code, c': Code, ls: Ls)
    requires ListsKept(c, c', ls)
    ensures MarksIn(c', ls.(j := [])) == MarksIn(c, ls).(j := false)
  {
    hide IsSet;
    forall j | j in ls.t || j in ls.f
      ensures 0 <= j < |c| && 0 <= j < |c'| && IsSet(c', j) == IsSet(c, j)
    {
      assert j in SetOf(ls.t) + SetOf(ls.f);
      assert SameJump(c, c', j);
      SetSame(c, c', j);
    }
    SameMarks(c, c', ls.t);
    SameMarks(c, c', ls.f);
  }

  lemma SetSame(c: Code, c': Code, j: int)
    requires 0 <= j < |c| && SameJump(c, c', j) && c[j].Jmp?
    ensures j < |c'| && IsSet(c', j) == IsSet(c, j)
  {
  }

  lemma ListsKeptIs(c: Code, c': Code, t: int, f: int, jpc: int, ls: Ls, outer: set<int>)
    requires Listed(c, t, f, jpc, ls, outer) && OuterSame(c, c', outer + SetOf(ls.t) + SetOf(ls.f))
    ensures ListsKept(c, c', ls) && OuterSame(c, c', outer) && SetOf(ls.j) !! outer
  {
    ListedParts(c, t, f, jpc, ls, outer);
  }

  /** A plain instruction that loads the value of `e` into `reg`. */
  ghost predicate Loads(g: Env, c: Code, k: Kind, i: Instr, reg: int, top: int) {
    IsPlain(i) &&
    forall r: Regs, v :: HasValue(g, c, k, r, v) ==> SameBelow(r, Plain(g, i, r), top) && Get(Plain(g, i, r), reg) == v
  }

  lemma EmitGood(fs: Fs, e: Exp, ls: Ls, outer: set<int>, i: Instr, reg: int, g: Env, r: Regs, b: Outcome, y: Res,
                 top: int)
    requires Ok(fs, e, ls, outer) && Good(fs, e, ls, outer, g, r, b, y, top)
    requires !e.k.VJmp? && !e.k.VReloc? && Loads(g, fs.code, e.k, i, reg, top)
    ensures var fs' := Emit(fs, i);
            var e' := e.(k := VNonReloc(reg));
            && Ok(fs', e', ls.(j := []), outer) && Good(fs', e', ls.(j := []), outer, g, r, b, Drop(y), top)
            && OuterSame(fs.code, fs'.code, outer) && MarksIn(fs'.code, ls.(j := [])) == MarksIn(fs.code, ls).(j := false)
  {
    var fs' := Emit(fs, i);
    var ls' := ls.(j := []);
    hide Listed, CodeOk, Exec, Loads, Plain, Meets, OuterSame, MarksIn, ListsKept;
    LoadsPlain(g, fs.code, e.k, i, reg, top);
    EmitOk(fs, e.t, e.f, ls, outer, i);
    EmitRuns(fs, e.t, e.f, ls, outer, g, r, i);
    ListsKeptIs(fs.code, fs'.code, e.t, e.f, fs.jpc, ls, outer);
    KeptMarks(fs.code, fs'.code, ls);
    var o := Raw(fs, e.k, ls, outer, g, r);
    LoadsOutcome(fs.code, fs'.code, e.k, i, reg, g, y, top, Norm(o, ls.j));
    MeetsGoesOn(fs.code, fs'.code, e.k, VNonReloc(reg), ls, ls', g, b, y, top, o, Then(g, i, Norm(o, ls.j)));
  }

  lemma LoadsPlain(g: Env, c: Code, k: Kind, i: Instr, reg: int, top: int)
    requires Loads(g, c, k, i, reg, top)
    ensures IsPlain(i) && !i.IsTest() && !i.Jmp? && !(i.LoadBool? && i.skip)
  {
  }

  lemma LoadsOutcome(c: Code, c': Code, k: Kind, i: Instr, reg: int, g: Env, y: Res, top: int, o: Outcome)
    requires Loads(g, c, k, i, reg, top)
    ensures IsPlain(i) && GoesOn(g, c, k, c', VNonReloc(reg), y, top, o, Then(g, i, o))
  {
  }

  // ------------------------------------------------------------- discharge2reg

  /** What an operation on the state keeps. */
  ghost predicate Kept(fs: Fs, fs': Fs, outer: set<int>) {
    && fs'.nactvar == fs.nactvar && fs.k <= fs'.k && fs.maxstack <= fs'.maxstack && |fs.code| <= |fs'.code|
    && OuterSame(fs.code, fs'.code, outer)
  }

  lemma KeptTrans(fs: Fs, fs1: Fs, fs2: Fs, outer: set<int>)
    requires Kept(fs, fs1, outer) && Kept(fs1, fs2, outer)
    ensures Kept(fs, fs2, outer)
  {
    OuterSameTrans(fs.code, fs1.code, fs2.code, outer);
  }

  lemma AddKFinds(fs: Fs, v: Value, g: Env)
    requires AddK(fs, v).0.k <= g.k
    ensures fs.k <= AddK(fs, v).0.k && Const(g, AddK(fs, v).1) == v && AddK(fs, v).1 >= 0
  {
  }

  /** The list of pending jumps after a load. */
  function AfterLoad(k: Kind, reg: int, ls: Ls): Ls {
    if k == VNonReloc(reg) then ls else ls.(j := [])
  }

  function LoadedMarks(k: Kind, reg: int, m: Marks): Marks {
    if k == VNonReloc(reg) then m else m.(j := false)
  }

  function Loaded(k: Kind, reg: int, y: Res): Res {
    if k == VNonReloc(reg) then y else Drop(y)
  }

  lemma LoadGood(fs: Fs, e: Exp, ls: Ls, outer: set<int>, reg: int, g: Env, r: Regs, b: Outcome, y: Res, top: int)
    requires Ok(fs, e, ls, outer) && Good(fs, e, ls, outer, g, r, b, y, top)
    requires !e.k.VJmp? && !e.k.VLocal? && !e.k.VGlobal? && reg >= top
    requires Load(fs, e.k, reg).k <= g.k && CleanStart(fs, r) && (e.k.VNil? ==> reg >= fs.nactvar)
    ensures var fs' := Load(fs, e.k, reg);
            var e' := e.(k := VNonReloc(reg));
            var ls' := AfterLoad(e.k, reg, ls);
            && Ok(fs', e', ls', outer) && Good(fs', e', ls', outer, g, r, b, Loaded(e.k, reg, y), top)
            && Kept(fs, fs', outer) && fs'.freereg == fs.freereg
            && MarksIn(fs'.code, ls') == LoadedMarks(e.k, reg, MarksIn(fs.code, ls))
  {
    hide Ok, Good, Kept, Emit, CodeNil, MarksIn;
    match e.k {
      case VNil => NilGood(fs, e, ls, outer, reg, g, r, b, y, top);
      case VKNum(n) =>
        var (fs1, i) := AddK(fs, Number(n));
        EmitKept(fs1, LoadK(reg, i), outer);
        AddKGood(fs, e, ls, outer, Number(n), g, r, b, y, top);
        ConstantLoads(g, fs1.code, e.k, LoadK(reg, i), reg, top);
        EmitGood(fs1, e, ls, outer, LoadK(reg, i), reg, g, r, b, y, top);
        KeptTrans(fs, fs1, Load(fs, e.k, reg), outer);
      case VNonReloc(s) =>
        if s != reg {
          ConstantLoads(g, fs.code, e.k, Move(reg, s), reg, top);
          EmitGood(fs, e, ls, outer, Move(reg, s), reg, g, r, b, y, top);
          EmitKept(fs, Move(reg, s), outer);
        } else {
          KeptRefl(fs, outer);
        }
      case VReloc(_) =>
        RelocGood(fs, e, ls, outer, reg, g, r, b, y, top);
        RelocLs(fs, e, ls, outer);
      case _ =>
        var i := match e.k
                 case VFalse => LoadBool(reg, false, false)
                 case VK(x) => LoadK(reg, x)
                 case _ => LoadBool(reg, true, false);
        ConstantLoads(g, fs.code, e.k, i, reg, top);
        EmitGood(fs, e, ls, outer, i, reg, g, r, b, y, top);
        EmitKept(fs, i, outer);
    }
  }

  lemma RelocLs(fs: Fs, e: Exp, ls: Ls, outer: set<int>)
    requires Ok(fs, e, ls, outer) && e.k.VReloc?
    ensures ls.j == [] && ls.(j := []) == ls
  {
  }

  lemma ConstantLoads(g: Env, c: Code, k: Kind, i: Instr, reg: int, top: int)
    requires reg >= top
    requires match k
             case VFalse => i == LoadBool(reg, false, false)
             case VTrue => i == LoadBool(reg, true, false)
             case VK(x) => i == LoadK(reg, x)
             case VKNum(n) => i.LoadK? && i.a == reg && Const(g, i.bx) == Number(n)
             case VNonReloc(s) => i == Move(reg, s)
             case _ => false
    ensures Loads(g, c, k, i, reg, top)
  {
  }

  lemma AddKGood(fs: Fs, e: Exp, ls: Ls, outer: set<int>, x: Value, g: Env, r: Regs, b: Outcome, y: Res, top: int)
    requires Ok(fs, e, ls, outer) && Good(fs, e, ls, outer, g, r, b, y, top)
    requires AddK(fs, x).0.k <= g.k
    ensures var (fs1, i) := AddK(fs, x);
            Ok(fs1, e, ls, outer) && Good(fs1, e, ls, outer, g, r, b, y, top) && Kept(fs, fs1, outer) &&
            fs1.code == fs.code && Const(g, i) == x && fs1.freereg == fs.freereg
  {
    hide Listed, CodeOk, Meets, Exec;
    AddKFinds(fs, x, g);
  }

  lemma KeptRefl(fs: Fs, outer: set<int>)
    ensures Kept(fs, fs, outer)
  {
  }

  lemma EmitKept(fs: Fs, i: Instr, outer: set<int>)
    ensures OuterSame(fs.code, Emit(fs, i).code, outer) ==> Kept(fs, Emit(fs, i), outer)
    ensures Emit(fs, i).freereg == fs.freereg && Emit(fs, i).k == fs.k && Emit(fs, i).nactvar == fs.nactvar
  {
  }

  /** The last instruction gets the register it waited for. */
  lemma RelocGood(fs: Fs, e: Exp, ls: Ls, outer: set<int>, reg: int, g: Env, r: Regs, b: Outcome, y: Res, top: int)
    requires Ok(fs, e, ls, outer) && Good(fs, e, ls, outer, g, r, b, y, top)
    requires e.k.VReloc? && reg >= top
    ensures var fs' := Load(fs, e.k, reg);
            var e' := e.(k := VNonReloc(reg));
            && Ok(fs', e', ls, outer) && Good(fs', e', ls, outer, g, r, b, Drop(y), top)
            && Kept(fs, fs', outer) && MarksIn(fs'.code, ls.(j := [])) == MarksIn(fs.code, ls).(j := false)
  {
    hide Listed, Meets, GoesOn, CodeOk, ListsKept, OuterSame, Exec, MarksIn;
    var fs' := Load(fs, e.k, reg);
    var c, i := Body(fs, e.k), SetA(fs.code[e.k.info], reg);
    var open := Open(ls, outer);
    assert fs.code == c + [fs.code[e.k.info]] && fs'.code == c + [i];
    AppendOk(c, open, fs.lasttarget, i);
    CodeOkWf(c, open, fs.lasttarget);
    RelocRuns(fs.code, c, fs.code[e.k.info], reg, open, g, r, y, top);
    LastChanged(fs.code, fs'.code, e, fs.jpc, ls, outer, open);
    ListsKeptIs(fs.code, fs'.code, e.t, e.f, fs.jpc, ls, outer);
    KeptMarks(fs.code, fs'.code, ls);
    MeetsGoesOn(fs.code, fs'.code, e.k, VNonReloc(reg), ls, ls, g, b, y, top, Exec(c, open, g, 0, r),
                Exec(fs'.code, open, g, 0, r));
  }

  lemma RelocRuns(code: Code, c: Code, was: Instr, reg: int, open: set<int>, g: Env, r: Regs, y: Res, top: int)
    requires Wf(c, open) && (was.Not? || was.GetGlobal?) && reg >= top && code == c + [was]
    ensures GoesOn(g, code, VReloc(|c|), c + [SetA(was, reg)], VNonReloc(reg), y, top,
                   Exec(c, open, g, 0, r), Exec(c + [SetA(was, reg)], open, g, 0, r))
  {
    ExecAppend(c, [SetA(was, reg)], open, open, g, 0, r);
  }

  /** No list reaches the last instruction if that is not a jump. */
  lemma LastChanged(c: Code, c': Code, e: Exp, jpc: int, ls: Ls, outer: set<int>, open: set<int>)
    requires Listed(c, e.t, e.f, jpc, ls, outer) && |c'| == |c| && |c| > 0 && c'[..|c| - 1] == c[..|c| - 1]
    requires !c[|c| - 1].Jmp? && !c[|c| - 1].IsTest() && !c'[|c| - 1].IsTest()
    requires Wf(c[..|c| - 1], open) && outer + SetOf(ls.t) + SetOf(ls.f) <= open
    ensures Listed(c', e.t, e.f, jpc, ls, outer)
    ensures OuterSame(c, c', outer + SetOf(ls.t) + SetOf(ls.f))
  {
    ListInCode(c, e.t, ls.t);
    ListInCode(c, e.f, ls.f);
    ListInCode(c, jpc, ls.j);
    forall pc | 0 <= pc < |c| - 1
      ensures c'[pc] == c[pc]
    {
      assert c'[..|c| - 1][pc] == c[..|c| - 1][pc];
    }
    ListFrame(c, c', e.t, ls.t);
    ListFrame(c, c', e.f, ls.f);
    ListFrame(c, c', jpc, ls.j);
  }

  // ------------------------------------------------------------- luaK_nil

  lemma NilGood(fs: Fs, e: Exp, ls: Ls, outer: set<int>, reg: int, g: Env, r: Regs, b: Outcome, y: Res, top: int)
    requires Ok(fs, e, ls, outer) && Good(fs, e, ls, outer, g, r, b, y, top)
    requires e.k.VNil? && reg >= top && reg >= fs.nactvar && CleanStart(fs, r)
    ensures var fs' := CodeNil(fs, reg);
            var e' := e.(k := VNonReloc(reg));
            && Ok(fs', e', ls.(j := []), outer) && Good(fs', e', ls.(j := []), outer, g, r, b, Drop(y), top)
            && Kept(fs, fs', outer) && fs'.freereg == fs.freereg
            && MarksIn(fs'.code, ls.(j := [])) == MarksIn(fs.code, ls).(j := false)
  {
    hide Ok, Good, OuterSame, CleanStart, MarksIn;
    var n := |fs.code|;
    if n > fs.lasttarget && n == 0 && reg >= fs.nactvar {
      CleanNilGood(fs, e, ls, outer, reg, g, r, b, y, top);
    } else if n > fs.lasttarget && n > 0 && fs.code[n - 1].LoadNil? && fs.code[n - 1].a <= reg <= fs.code[n - 1].b + 1 {
      MergeNilGood(fs, e, ls, outer, reg, g, r, b, y, top);
    } else {
      NilLoads(g, fs.code, reg, top);
      EmitGood(fs, e, ls, outer, LoadNil(reg, reg), reg, g, r, b, y, top);
    }
  }

  /** At the very start of a function nothing is needed: the register is clean. */
  lemma CleanNilGood(fs: Fs, e: Exp, ls: Ls, outer: set<int>, reg: int, g: Env, r: Regs, b: Outcome, y: Res, top: int)
    requires Ok(fs, e, ls, outer) && Good(fs, e, ls, outer, g, r, b, y, top)
    requires e.k.VNil? && reg >= fs.nactvar && CleanStart(fs, r) && fs.code == [] && fs.lasttarget < 0
    ensures var e' := e.(k := VNonReloc(reg));
            && ls.j == []
            && Ok(fs, e', ls, outer) && Good(fs, e', ls, outer, g, r, b, Drop(y), top)
            && Kept(fs, fs, outer) && MarksIn(fs.code, ls.(j := [])) == MarksIn(fs.code, ls).(j := false)
  {
    assert Run(fs, e.k, ls, outer, g, r) == Fall(r);
  }

  lemma NilLoads(g: Env, c: Code, reg: int, top: int)
    requires reg >= top
    ensures Loads(g, c, VNil, LoadNil(reg, reg), reg, top)
  {
    forall r: Regs, v | HasValue(g, c, VNil, r, v)
      ensures SameBelow(r, Plain(g, LoadNil(reg, reg), r), top) && Get(Plain(g, LoadNil(reg, reg), r), reg) == v
    {
      forall i
        ensures Get(SetNil(r, reg, reg), i) == if i == reg then Nil else Get(r, i)
      {
        SetNilGet(r, reg, reg, i);
      }
    }
  }

  /** The previous instruction already clears the register, or can be made to: nothing jumps
      behind it. */
  lemma MergeNilGood(fs: Fs, e: Exp, ls: Ls, outer: set<int>, reg: int, g: Env, r: Regs, b: Outcome, y: Res, top: int)
    requires Ok(fs, e, ls, outer) && Good(fs, e, ls, outer, g, r, b, y, top)
    requires e.k.VNil? && reg >= top
    requires |fs.code| > fs.lasttarget && |fs.code| > 0 && fs.code[|fs.code| - 1].LoadNil?
    requires fs.code[|fs.code| - 1].a <= reg <= fs.code[|fs.code| - 1].b + 1
    ensures var fs' := CodeNil(fs, reg);
            var e' := e.(k := VNonReloc(reg));
            && ls.j == []
            && Ok(fs', e', ls, outer) && Good(fs', e', ls, outer, g, r, b, Drop(y), top)
            && Kept(fs, fs', outer) && MarksIn(fs'.code, ls.(j := [])) == MarksIn(fs.code, ls).(j := false)
  {
    hide Listed, CodeOk, Exec, Meets, GoesOn, ListsKept, OuterSame, CodeNil, MarksIn;
    var n, fs' := |fs.code|, CodeNil(fs, reg);
    var c, was := fs.code[..n - 1], fs.code[n - 1];
    var i := LoadNil(was.a, Max(was.b, reg));
    var open := Open(ls, outer);
    MergeShape(fs, reg);
    NonePending(fs, open, ls.j);
    assert Body(fs, e.k) == fs.code;
    MergeCode(c, was, i, open, fs.lasttarget);
    MergeRuns(c, was, i, open, g, r, reg, y, top);
    CodeOkWf(c, open, fs.lasttarget);
    LastChanged(fs.code, fs'.code, e, fs.jpc, ls, outer, open);
    ListsKeptIs(fs.code, fs'.code, e.t, e.f, fs.jpc, ls, outer);
    KeptMarks(fs.code, fs'.code, ls);
    MeetsGoesOn(fs.code, fs'.code, e.k, VNonReloc(reg), ls, ls, g, b, y, top,
                Exec(fs.code, open, g, 0, r), Exec(fs'.code, open, g, 0, r));
  }

  lemma MergeShape(fs: Fs, reg: int)
    requires |fs.code| > fs.lasttarget && |fs.code| > 0 && fs.code[|fs.code| - 1].LoadNil?
    requires fs.code[|fs.code| - 1].a <= reg <= fs.code[|fs.code| - 1].b + 1
    ensures var n := |fs.code|;
            var was := fs.code[n - 1];
            var c' := fs.code[..n - 1] + [LoadNil(was.a, Max(was.b, reg))];
            fs.code == fs.code[..n - 1] + [was] && CodeNil(fs, reg) == fs.(code := c') && c'[..|c'| - 1] == fs.code[..n - 1]
  {
  }

  lemma NonePending(fs: Fs, open: set<int>, j: seq<int>)
    requires CodeOk(fs.code, open, fs.lasttarget, j) && |fs.code| > fs.lasttarget
    ensures j == []
  {
  }

  lemma CodeOkWf(c: Code, open: set<int>, last: int)
    requires CodeOk(c, open, last, [])
    ensures Wf(c, open)
  {
  }

  lemma MergeCode(c: Code, was: Instr, i: Instr, open: set<int>, last: int)
    requires CodeOk(c + [was], open, last, []) && last < |c| + 1 && was.LoadNil? && i.LoadNil?
    ensures CodeOk(c, open, last, []) && CodeOk(c + [i], open, last, [])
  {
    assert (c + [was])[..|c|] == c;
    CutLast(c + [was], open, last);
    AppendOk(c, open, last, i);
  }

  lemma MergeRuns(c: Code, was: Instr, i: Instr, open: set<int>, g: Env, r: Regs, reg: int, y: Res, top: int)
    requires Wf(c, open) && was.LoadNil? && i.LoadNil? && i.a == was.a && was.a <= reg <= was.b + 1 && reg >= top
    requires i.b == Max(was.b, reg)
    ensures GoesOn(g, c + [was], VNil, c + [i], VNonReloc(reg), y, top,
                   Exec(c + [was], open, g, 0, r), Exec(c + [i], open, g, 0, r))
  {
    ExecAppend(c, [was], open, open, g, 0, r);
    ExecAppend(c, [i], open, open, g, 0, r);
    var o := Exec(c, open, g, 0, r);
    if o.Fall? {
      forall x
        ensures Get(SetNil(o.r, was.a, was.b), x) == (if was.a <= x <= was.b then Nil else Get(o.r, x))
        ensures Get(SetNil(o.r, i.a, i.b), x) == (if i.a <= x <= i.b then Nil else Get(o.r, x))
      {
        SetNilGet(o.r, was.a, was.b, x);
        SetNilGet(o.r, i.a, i.b, x);
      }
    }
  }

  /** Without its last instruction, which nothing jumps behind, the code is still well formed. */
  lemma CutLast(c: Code, open: set<int>, last: int)
    requires CodeOk(c, open, last, []) && |c| > 0 && last < |c| && !c[|c| - 1].Jmp?
    ensures CodeOk(c[..|c| - 1], open, last, [])
  {
    var c' := c[..|c| - 1];
    forall pc | 0 <= pc < |c'|
      ensures WfAt(c', open, pc)
      ensures (c'[pc].Jmp? && pc !in open ==> pc + 1 + c'[pc].sbx <= last) && (c'[pc].LoadBool? && c'[pc].skip ==> pc + 2 <= last)
    {
      assert WfAt(c, open, pc);
    }
  }
}
