/**
 What the expression compiler promises, and what it keeps: for every tree and every state of the
 registers the code delivers what `Yield` says of the tree. The value is right exactly where that
 is the value of the expression, and a condition takes the right branch exactly where its truth is.
 */
module CodeGenTheorems {
  import opened Vm
  import opened CodeGen
  import opened CodeGenLists
  import opened CodeGenSem
  import opened CodeGenValues
  import opened CodeGenRegs
  import opened CodeGenGrows
  import opened CodeGenOperands
  import opened CodeGenCond
  import opened CodeGenBranch
  import opened CodeGenCompile
  import opened CodeGenFaithful
  import opened CodeGenForm
  import opened CodeGenStack
  import opened CodeGenYield
  import opened Sequences

  // ------------------------------------------------------------- values

  /** `expr` and then `luaK_exp2nextreg`: the state afterwards, its pending jumps settled by the
      next instruction. */
  function ValueCode(fs: Fs, x: Expr): Fs {
    var (fs1, e) := Compile(fs, x);
    DischargeJpc(Exp2NextReg(fs1, e).0)
  }

  /** Code for an expression, wherever it stands and whatever arrives there: running it leaves what
      the tree yields in the next free register and every register below as it was. */
  lemma ValueInRegister(fs: Fs, x: Expr, j: seq<int>, g: Env, r: Regs, r0: Regs, cy: Carry)
    requires Start(fs, j, {}, g, r, Fall(r0), cy)
    requires 0 <= fs.nactvar <= fs.freereg <= fs.maxstack && LocalsBelow(x, fs.nactvar)
    requires ValueCode(fs, x).k <= g.k && ValueCode(fs, x).maxstack < MAXSTACK
    ensures var fs' := ValueCode(fs, x);
            var o := Exec(fs'.code, {}, g, 0, r);
            && o.Fall? && Get(o.r, fs.freereg) == Delivered(Yield(g, r0, x, fs.k, cy)) && SameBelow(r0, o.r, fs.freereg)
            && fs'.freereg == fs.freereg + 1
  {
    hide Start, Listed, CodeOk, Exec, CleanStart, Compile, Exp2NextReg, PatchList, OuterSame, FormIs;
    var (fs1, e) := Compile(fs, x);
    var fs2 := Exp2NextReg(fs1, e).0;
    var y := Yield(g, r0, x, fs.k, cy);
    Exp2NextRegGrows(fs1, e);
    CompileGrows(fs, x);
    var ls := CompileComputes(fs, x, j, {}, g, r, Fall(r0), cy);
    var ls2 := Exp2NextRegGood(fs1, e, ls, {}, g, r, Fall(r0), y, fs.freereg);
    NoLists(fs2, Leaf(VNonReloc(fs.freereg)), ls2, {});
    SettledRuns(fs2, NO_JUMP, NO_JUMP, ls2, {}, g, r);
    assert Open(ls2.(j := []), {}) == {};
    assert Delivered(InReg(e.k, fs.freereg, y)) == Delivered(y);
  }

  /** The state in which the code of a function with `n` parameters begins. */
  function FunctionStart(n: nat, k: seq<Value>, stack: int): Fs {
    Fs([], NO_JUMP, -1, n, n, k, stack)
  }

  lemma FunctionStarts(n: nat, k: seq<Value>, stack: int, g: Env, r: Regs)
    requires forall i :: i >= n ==> Get(r, i) == Nil
    ensures Start(FunctionStart(n, k, stack), [], {}, g, r, Fall(r), Bare)
  {
  }

  /** Trees that take few registers stay within the stack. */
  lemma ValueRegs(fs: Fs, x: Expr)
    requires LocalsBelow(x, fs.nactvar) && fs.nactvar <= fs.freereg
    ensures ValueCode(fs, x).maxstack <= Max(fs.maxstack, fs.freereg + Slots(x))
  {
    hide Compile, Exp2NextReg, PatchList, LocalsBelow;
    CompileRegs(fs, x);
    NextRegs(Compile(fs, x).0, Compile(fs, x).1);
  }

  /** A tree that a function with `n` parameters can begin with. */
  predicate Fitting(n: nat, stack: int, x: Expr) {
    n <= stack < MAXSTACK && n + Slots(x) < MAXSTACK && LocalsBelow(x, n)
  }

  ghost function SomeEnv(k: seq<Value>): Env {
    Env(k, (n: int) => Nil, (u, v) => false, (u, v) => false)
  }

  /** What the tree says about its code, at the start of a function. */
  lemma FormAtStart(n: nat, k: seq<Value>, stack: int, x: Expr)
    requires Fitting(n, stack, x)
    ensures var (fs1, e) := Compile(FunctionStart(n, k, stack), x); FormIs(FormOf(x, k), fs1, e, n)
    ensures ValueCode(FunctionStart(n, k, stack), x).k == FinalConstants(FormOf(x, k))
  {
    hide Compile, FormOf, Start, FormIs, Exp2NextReg, PatchList, Holds;
    var fs := FunctionStart(n, k, stack);
    var (fs1, e) := Compile(fs, x);
    FunctionStarts(n, k, stack, SomeEnv(fs1.k), map[]);
    CompileRegs(fs, x);
    var ls := CompileComputes(fs, x, [], {}, SomeEnv(fs1.k), map[], Fall(map[]), Bare);
    NextConstants(FormOf(x, k), fs1, e, n);
  }

  /** At the start of a function, for every tree and every state of the registers: the code is right
      exactly if the tree yields its value. */
  lemma ValueAtStart(n: nat, k: seq<Value>, stack: int, x: Expr, g: Env, r: Regs)
    requires Fitting(n, stack, x) && FinalConstants(FormOf(x, k)) <= g.k
    requires forall i :: i >= n ==> Get(r, i) == Nil
    ensures var o := Exec(ValueCode(FunctionStart(n, k, stack), x).code, {}, g, 0, r);
            && o.Fall? && Get(o.r, n) == Delivered(Yield(g, r, x, k, Bare)) && (forall i :: i < n ==> Get(o.r, i) == Get(r, i))
            && (Get(o.r, n) == Eval(g, r, x) <==> Delivered(Yield(g, r, x, k, Bare)) == Eval(g, r, x))
  {
    hide ValueCode, Yield, Eval, FormOf, FinalConstants, Start, FormIs, Exec, Compile, LocalsBelow, Slots;
    FunctionStarts(n, k, stack, g, r);
    FormAtStart(n, k, stack, x);
    ValueRegs(FunctionStart(n, k, stack), x);
    ValueInRegister(FunctionStart(n, k, stack), x, [], g, r, r, Bare);
  }

  /** Where no jump that is always taken can find a value in tow, the code is right in every state. */
  lemma ValueWithoutDeadEnds(n: nat, k: seq<Value>, stack: int, x: Expr, g: Env, r: Regs)
    requires Fitting(n, stack, x) && FinalConstants(FormOf(x, k)) <= g.k && Clean(x, k, false, true)
    requires forall i :: i >= n ==> Get(r, i) == Nil
    ensures var o := Exec(ValueCode(FunctionStart(n, k, stack), x).code, {}, g, 0, r);
            o.Fall? && Get(o.r, n) == Eval(g, r, x) && forall i :: i < n ==> Get(o.r, i) == Get(r, i)
  {
    hide ValueCode, Yield, Eval, FormOf;
    ValueAtStart(n, k, stack, x, g, r);
    CleanIsRight(g, r, x, k, Bare, false, true);
  }

  /** A jump that is always taken does no harm where nothing can be in tow. */
  lemma CleanDeadEnds(x: Expr, i: int, k: seq<Value>)
    requires Clean(x, k, false, true)
    ensures Clean(Or(TrueLit, x), k, false, true) && Clean(And(FalseLit, x), k, false, true)
    ensures Clean(And(And(Local(i), FalseLit), x), k, false, true)
  {
    var a := And(Local(i), FalseLit);
    assert FormOf(Local(i), k) == Form(EndsRegister, false, false, k);
    assert MarksOf(Local(i), k, false) == Marks(false, false, false);
    assert AwayMark(EndsRegister, true, Marks(false, false, false)) && !PendingMark(EndsRegister, true, Marks(false, false, false));
    assert FormOf(FalseLit, k) == Form(EndsFalse, false, false, k) && MarksOf(FalseLit, k, false) == Marks(false, false, false);
    assert Clean(Local(i), k, false, true) && Clean(FalseLit, k, false, true);
    assert FormOf(a, k) == Form(EndsFalse, false, true, k) && MarksOf(a, k, false) == Marks(false, true, false);
    assert Clean(a, k, false, true);
    CleanBehindFalse(a, x, k);
  }

  lemma CleanBehindFalse(a: Expr, x: Expr, k: seq<Value>)
    requires Clean(a, k, false, true) && FormOf(a, k) == Form(EndsFalse, false, true, k) && MarksOf(a, k, false) == Marks(false, true, false)
    requires Clean(x, k, false, true)
    ensures Clean(And(a, x), k, false, true)
  {
  }

  /** It does behind a literal that is reached with a tested value. */
  lemma ChainsAreNotClean(k: seq<Value>)
    ensures !Clean(LiteralsInChain, k, false, true) && !Clean(ComparedChain, k, false, false)
  {
    var a, v := Or(Local(0), FalseLit), Local(0);
    LeafMarks(v, k, false);
    LeafMarks(FalseLit, k, false);
    PairOf(v, FalseLit, k, false, false);
    assert FormOf(v, k) == Form(EndsRegister, false, false, k) && FormOf(a, k) == Form(EndsFalse, true, false, k);
    NotCleanBehindTrue(a, k);
  }

  lemma LeafMarks(x: Expr, k: seq<Value>, j: bool)
    requires IsLeaf(x) && !x.Global?
    ensures MarksOf(x, k, j) == Marks(false, false, j) && MarksOf(Paren(x), k, j) == Marks(false, false, j)
  {
  }

  lemma NotCleanBehindTrue(a: Expr, k: seq<Value>)
    requires FormOf(a, k) == Form(EndsFalse, true, false, k) && MarksOf(a, k, false) == Marks(true, false, false)
    ensures !Clean(Or(And(a, TrueLit), FalseLit), k, false, true)
  {
    LeafMarks(TrueLit, k, true);
    PairOf(a, TrueLit, k, false, true);
    assert FormOf(TrueLit, k).tail == EndsTrue && MarksOf(And(a, TrueLit), k, false).j;
  }

  /** Whether the compiler meets a value in tow with a jump that is always taken can be read off the
      tree. */
  lemma FaithfulAtStart(n: nat, k: seq<Value>, stack: int, x: Expr, exact: bool)
    requires Fitting(n, stack, x)
    ensures Faithful(FunctionStart(n, k, stack), x, exact) <==> Clean(x, k, false, exact)
  {
    hide Compile, Start, Clean, Faithful;
    var fs := FunctionStart(n, k, stack);
    var g := SomeEnv(Compile(fs, x).0.k);
    FunctionStarts(n, k, stack, g, map[]);
    CompileRegs(fs, x);
    FaithfulIff(fs, x, [], {}, g, map[], Fall(map[]), Bare, exact);
  }

  // ------------------------------------------------------------- conditions

  /** `cond` in the parser: a literal nil is as good as false. */
  function Condition(fs: Fs, x: Expr): (Fs, Exp) {
    var (fs1, e) := Compile(fs, x);
    GoIfTrue(fs1, if e.k.VNil? then e.(k := VFalse) else e)
  }

  function NilFalse(y: Res): Res {
    if y.Here? && y.v == Nil then Here(Bool(false), y.c) else y
  }

  lemma NilAsFalse(fs: Fs, e: Exp, ls: Ls, outer: set<int>, g: Env, r: Regs, b: Outcome, y: Res, top: int)
    requires Holds(fs, e, ls, outer, g, r, b, y, top) && e.k.VNil?
    ensures Holds(fs, e.(k := VFalse), ls, outer, g, r, b, NilFalse(y), top)
  {
    hide Listed, CodeOk, Exec, CleanStart, CarryAt;
  }

  /** A condition goes on exactly if its result is true. */
  lemma ConditionGoes(a: Form, y: Res)
    requires Fits(a, y)
    ensures var nil := a.tail.EndsNil?;
            Go(if nil then EndsFalse else a.tail, true, if nil then NilFalse(y) else y).Arrives? <==> Truth(y)
  {
    var nil := a.tail.EndsNil?;
    GoesByTruth(if nil then a.(tail := EndsFalse) else a, true, if nil then NilFalse(y) else y);
  }

  /** A condition, wherever it stands: control arrives behind it if what the tree yields is true, and
      leaves by one of the jumps that the caller patches to the other branch if it is false. So the
      branch is right exactly where the result has the truth of the value. */
  lemma ConditionTakesRightBranch(fs: Fs, x: Expr, j: seq<int>, outer: set<int>, g: Env, r: Regs, r0: Regs, cy: Carry)
    returns (j': seq<int>)
    requires Start(fs, j, outer, g, r, Fall(r0), cy)
    requires 0 <= fs.nactvar <= fs.freereg <= fs.maxstack && LocalsBelow(x, fs.nactvar)
    requires Condition(fs, x).0.k <= g.k && Condition(fs, x).0.maxstack < MAXSTACK
    ensures var (fs', e) := Condition(fs, x);
            var l := ListOf(fs'.code, e.f);
            var o := Norm(Exec(fs'.code, outer + SetOf(l) + SetOf(j'), g, 0, r), j');
            var y := Yield(g, r0, x, fs.k, cy);
            && IsList(fs'.code, fs'.jpc, j') && e.t == NO_JUMP && fs'.freereg == fs.freereg
            && (Truth(y) ==> o.Fall? && SameBelow(r0, o.r, fs.freereg))
            && (!Truth(y) ==> o.Exit? && o.j in l && SameBelow(r0, o.r, fs.freereg))
            && ((o.Fall? <==> Truthy(Eval(g, r0, x))) <==> (Truth(y) <==> Truthy(Eval(g, r0, x))))
  {
    hide Start, CodeOk, Exec, CleanStart, Compile, OuterSame, GoIfTrue, Ok, Good, NoDup, FormOf, Yield, Eval, Go, Fits, CarryAt;
    var (fs1, e) := Compile(fs, x);
    var nil := e.k.VNil?;
    var e1 := if nil then e.(k := VFalse) else e;
    var y, fa := Yield(g, r0, x, fs.k, cy), FormOf(x, fs.k);
    var y1 := if nil then NilFalse(y) else y;
    GoIfTrueGrows(fs1, e1);
    CompileGrows(fs, x);
    var ls := CompileComputes(fs, x, j, outer, g, r, Fall(r0), cy);
    if nil {
      NilAsFalse(fs1, e, ls, outer, g, r, Fall(r0), y, fs.freereg);
    }
    YieldFits(g, r0, x, fs.k, cy);
    ConditionGoes(fa, y);
    var ls2 := GoIfTrueBranch(fs1, e1, ls, outer, g, r, Fall(r0), y1, fs.freereg);
    j' := ls2.j;
    var (fs', e') := Condition(fs, x);
    ListedParts(fs'.code, e'.t, e'.f, fs'.jpc, ls2, outer);
    ListOfIs(fs'.code, e'.f, ls2.f);
    assert Open(ls2, outer) == outer + SetOf(ls2.f) + SetOf(ls2.j);
    WayTaken(fs'.code, ls2, r0, Go(Ends(fs1.code, e1.k), true, y1), fs.freereg, Exec(fs'.code, Open(ls2, outer), g, 0, r));
  }

  /** Which way the code has gone. */
  lemma WayTaken(c: Code, ls: Ls, r0: Regs, w: Way, top: int, o: Outcome)
    requires Forks(c, ls, [], Fall(r0), w, true, top, o) && ls.t == [] && SetOf(ls.f) !! SetOf(ls.j)
    ensures w.Arrives? ==> Norm(o, ls.j).Fall? && SameBelow(r0, o.r, top) && !o.Stuck?
    ensures w.Leaves? ==> Norm(o, ls.j) == o && o.Exit? && o.j in ls.f && SameBelow(r0, o.r, top)
  {
    if o.Exit? && o.j in ls.f {
      assert o.j in SetOf(ls.f) && o.j !in SetOf(ls.j);
    }
  }

  /** Where nothing that is compared can meet a value in tow, a condition takes the right branch in
      every state. */
  lemma ConditionWithoutDeadEnds(fs: Fs, x: Expr, j: seq<int>, outer: set<int>, g: Env, r: Regs, r0: Regs, cy: Carry)
    returns (j': seq<int>)
    requires Start(fs, j, outer, g, r, Fall(r0), cy) && Clean(x, fs.k, cy.Carried?, false)
    requires 0 <= fs.nactvar <= fs.freereg <= fs.maxstack && LocalsBelow(x, fs.nactvar)
    requires Condition(fs, x).0.k <= g.k && Condition(fs, x).0.maxstack < MAXSTACK
    ensures var (fs', e) := Condition(fs, x);
            var l := ListOf(fs'.code, e.f);
            var o := Norm(Exec(fs'.code, outer + SetOf(l) + SetOf(j'), g, 0, r), j');
            && IsList(fs'.code, fs'.jpc, j') && e.t == NO_JUMP && fs'.freereg == fs.freereg
            && (Truthy(Eval(g, r0, x)) ==> o.Fall? && SameBelow(r0, o.r, fs.freereg))
            && (!Truthy(Eval(g, r0, x)) ==> o.Exit? && o.j in l && SameBelow(r0, o.r, fs.freereg))
  {
    hide Start, Condition, Exec, Yield, Eval, Clean, Truth, IsList, SameBelow;
    j' := ConditionTakesRightBranch(fs, x, j, outer, g, r, r0, cy);
    CleanIsRight(g, r0, x, fs.k, cy, cy.Carried?, false);
  }

  lemma ConditionRegs(n: nat, k: seq<Value>, stack: int, x: Expr)
    requires Fitting(n, stack, x)
    ensures Condition(FunctionStart(n, k, stack), x).0.maxstack < MAXSTACK
    ensures Condition(FunctionStart(n, k, stack), x).0.k == FormOf(x, k).k
  {
    hide Compile, FormOf, GoIfTrue, LocalsBelow;
    var fs := FunctionStart(n, k, stack);
    var (fs1, e) := Compile(fs, x);
    var e1 := if e.k.VNil? then e.(k := VFalse) else e;
    var a := FormOf(x, k);
    CompileRegs(fs, x);
    GoRegs(fs1, e1, true);
    FormAtStart(n, k, stack, x);
    GoForm(if e.k.VNil? then a.(tail := EndsFalse) else a, fs1, e1, n, true);
  }

  /** A condition at the start of a function: it goes on exactly if the tree yields something true. */
  lemma ConditionAtStart(n: nat, k: seq<Value>, stack: int, x: Expr, g: Env, r: Regs)
    returns (j': seq<int>)
    requires Fitting(n, stack, x) && FormOf(x, k).k <= g.k
    requires forall i :: i >= n ==> Get(r, i) == Nil
    ensures var (fs', e) := Condition(FunctionStart(n, k, stack), x);
            var l := ListOf(fs'.code, e.f);
            var o := Norm(Exec(fs'.code, SetOf(l) + SetOf(j'), g, 0, r), j');
            && IsList(fs'.code, fs'.jpc, j') && (if Truth(Yield(g, r, x, k, Bare)) then o.Fall? else o.Exit? && o.j in l)
  {
    hide Condition, Yield, FormOf, Exec, IsList, Eval;
    FunctionStarts(n, k, stack, g, r);
    ConditionRegs(n, k, stack, x);
    j' := ConditionTakesRightBranch(FunctionStart(n, k, stack), x, [], {}, g, r, r, Bare);
    var (fs', e) := Condition(FunctionStart(n, k, stack), x);
    assert {} + SetOf(ListOf(fs'.code, e.f)) + SetOf(j') == SetOf(ListOf(fs'.code, e.f)) + SetOf(j');
  }

  // ------------------------------------------------------------- where the code is wrong

  /** `(a or false) and true`, on the local in register 0. */
  const LiteralInChain := And(Or(Local(0), FalseLit), TrueLit)

  /** `((a or false) and true) or false` */
  const LiteralsInChain := Or(LiteralInChain, FalseLit)

  /** `(((a or false) and true) or false) == true` */
  const ComparedChain := CmpE(Eq, LiteralsInChain, TrueLit)

  /** What the local brings along is delivered in place of the literal. */
  lemma ChainYields(g: Env, r: Regs)
    ensures Yield(g, r, LiteralsInChain, [], Bare) == if Truthy(Get(r, 0)) then Left(true, Carried(Get(r, 0))) else Here(Bool(false), Bare)
    ensures Eval(g, r, LiteralsInChain) == Bool(Truthy(Get(r, 0)))
    ensures FormOf(LiteralsInChain, []) == Form(EndsFalse, true, false, [])
  {
    var v := Get(r, 0);
    assert Yield(g, r, Or(Local(0), FalseLit), [], Bare) == if Truthy(v) then Left(true, Carried(v)) else Here(Bool(false), Bare);
    assert FormOf(Or(Local(0), FalseLit), []) == Form(EndsFalse, true, false, []);
    assert Yield(g, r, LiteralInChain, [], Bare) == if Truthy(v) then Here(Bool(true), Carried(v)) else Left(false, Bare);
    assert FormOf(LiteralInChain, []) == Form(EndsTrue, false, true, []);
    assert Eval(g, r, Or(Local(0), FalseLit)) == if Truthy(v) then v else Bool(false);
    assert Eval(g, r, LiteralInChain) == Bool(Truthy(v));
  }

  lemma ComparedYields(g: Env, r: Regs)
    ensures Yield(g, r, ComparedChain, [], Bare) == Here(Bool(Get(r, 0) == Bool(true)), Bare)
    ensures Eval(g, r, ComparedChain) == Bool(Truthy(Get(r, 0)))
    ensures FormOf(ComparedChain, []).k == [Bool(true)]
  {
    hide Yield, Eval, FormOf;
    ChainYields(g, r);
    ComparedYield(g, r, LiteralsInChain);
  }

  lemma ComparedYield(g: Env, r: Regs, x: Expr)
    requires FormOf(x, []) == Form(EndsFalse, true, false, [])
    ensures Yield(g, r, CmpE(Eq, x, TrueLit), [], Bare) == Here(Bool(Delivered(Yield(g, r, x, [], Bare)) == Bool(true)), Bare)
    ensures Eval(g, r, CmpE(Eq, x, TrueLit)) == Bool(Eval(g, r, x) == Bool(true))
    ensures FormOf(CmpE(Eq, x, TrueLit), []).k == [Bool(true)]
  {
  }

  /** The code for this tree is right exactly if the local is false, nil or true: any other value comes
      out itself where true is meant. */
  lemma LiteralInChainIsWrong(g: Env, r: Regs)
    requires forall i :: i >= 1 ==> Get(r, i) == Nil
    ensures var o := Exec(ValueCode(FunctionStart(1, [], 2), LiteralsInChain).code, {}, g, 0, r);
            && o.Fall? && Get(o.r, 1) == (if Truthy(Get(r, 0)) then Get(r, 0) else Bool(false))
            && (Get(o.r, 1) == Eval(g, r, LiteralsInChain) <==> !Truthy(Get(r, 0)) || Get(r, 0) == Bool(true))
  {
    hide ValueCode, Yield, Eval, FormOf;
    ChainYields(g, r);
    ValueAtStart(1, [], 2, LiteralsInChain, g, r);
  }

  /** As a condition, compared with true: the branch is right exactly in those cases, and for any other
      local, 1 say, the wrong one is taken. */
  lemma ComparedChainIsWrong(g: Env, r: Regs)
    returns (j': seq<int>)
    requires (forall i :: i >= 1 ==> Get(r, i) == Nil) && [Bool(true)] <= g.k
    ensures var (fs', e) := Condition(FunctionStart(1, [], 2), ComparedChain);
            var o := Norm(Exec(fs'.code, SetOf(ListOf(fs'.code, e.f)) + SetOf(j'), g, 0, r), j');
            && (o.Fall? <==> Get(r, 0) == Bool(true))
            && ((o.Fall? <==> Truthy(Eval(g, r, ComparedChain))) <==> !Truthy(Get(r, 0)) || Get(r, 0) == Bool(true))
            && (Get(r, 0) == Number(1) ==> Truthy(Eval(g, r, ComparedChain)) && o.Exit? && o.j in ListOf(fs'.code, e.f))
  {
    hide Condition, Exec, ListOf, Yield, Eval, FormOf, IsList;
    ComparedYields(g, r);
    j' := ConditionAtStart(1, [], 2, ComparedChain, g, r);
  }
}
