/**
 Which trees the compiler is faithful to. `Faithful` asks it of the compiler, jump list by jump
 list; `Clean` reads the same off the tree.
 */
module CodeGenFaithful {
  import opened Vm
  import opened CodeGen
  import opened CodeGenLists
  import opened CodeGenSem
  import opened CodeGenValues
  import opened CodeGenRegs
  import opened CodeGenGrows
  import opened CodeGenCond
  import opened CodeGenCompile
  import opened CodeGenStack
  import opened CodeGenYield
  import opened Sequences

  /** None of the jumps to the current place would bring a value along. */
  predicate Quiet(fs: Fs) {
    forall j :: j in ListOf(fs.code, fs.jpc) && 0 <= j < |fs.code| ==> !IsSet(fs.code, j)
  }

  /** While the tree is compiled, no jump that is always taken finds a value among the jumps that
      wait for its place. A condition (not `exact`) needs this only of what is compared. */
  predicate Faithful(fs: Fs, x: Expr, exact: bool)
    decreases x
  {
    match x
    case Paren(a) => Faithful(fs, a, exact)
    case NotE(a) => Faithful(fs, a, false)
    case And(a, b) =>
      var (fs1, e1) := Compile(fs, a);
      Faithful(fs, a, exact) && (exact && e1.k.VFalse? ==> Quiet(fs1)) && Faithful(GoIfTrue(fs1, e1).0, b, exact)
    case Or(a, b) =>
      var (fs1, e1) := Compile(fs, a);
      Faithful(fs, a, exact) && (exact && e1.k.VTrue? ==> Quiet(fs1)) && Faithful(GoIfFalse(fs1, e1).0, b, exact)
    case CmpE(_, a, b) =>
      var (fs1, e1) := Compile(fs, a);
      Faithful(fs, a, true) && Faithful(Exp2RK(fs1, e1).0, b, true)
    case _ => true
  }

  lemma QuietIs(fs: Fs, e: Exp, ls: Ls, outer: set<int>)
    requires Listed(fs.code, e.t, e.f, fs.jpc, ls, outer)
    ensures Quiet(fs) <==> !SetIn(fs.code, ls.j)
  {
    hide IsSet;
    ListedParts(fs.code, e.t, e.f, fs.jpc, ls, outer);
    ListOfIs(fs.code, fs.jpc, ls.j);
  }

  lemma HoldsListed(fs: Fs, e: Exp, ls: Ls, outer: set<int>, g: Env, r: Regs, b: Outcome, y: Res, top: int)
    requires Holds(fs, e, ls, outer, g, r, b, y, top)
    ensures Listed(fs.code, e.t, e.f, fs.jpc, ls, outer)
  {
  }

  /** The compiler is faithful to a tree exactly if the tree is clean. */
  lemma {:induction false} FaithfulIff(fs: Fs, x: Expr, j: seq<int>, outer: set<int>, g: Env, r: Regs, b: Outcome, cy: Carry, exact: bool)
    requires Start(fs, j, outer, g, r, b, cy) && Compilable(fs, x, g)
    ensures Faithful(fs, x, exact) <==> Clean(x, fs.k, SetIn(fs.code, j), exact)
    decreases x, 1
  {
    hide Start, Compile, SetIn, MarksOf, FormOf, PendingMark, GoIfTrue, GoIfFalse;
    match x {
      case Paren(a) =>
        CompileGrowsSub(fs, x, a);
        FaithfulIff(fs, a, j, outer, g, r, b, cy, exact);
      case NotE(a) =>
        CompileGrowsSub(fs, x, a);
        FaithfulIff(fs, a, j, outer, g, r, b, cy, false);
      case And(a, c) => FaithfulPair(fs, a, c, true, j, outer, g, r, b, cy, exact);
      case Or(a, c) => FaithfulPair(fs, a, c, false, j, outer, g, r, b, cy, exact);
      case CmpE(op, a, c) => FaithfulCmp(fs, op, a, c, j, outer, g, r, b, cy, exact);
      case _ =>
    }
  }

  /** What a part needs, the whole needs. */
  lemma CompileGrowsSub(fs: Fs, x: Expr, a: Expr)
    requires x == Paren(a) || x == NotE(a)
    ensures Grows(Compile(fs, a).0, Compile(fs, x).0)
  {
    hide DischargeVars, CodeNot;
    DischargeVarsGrows(Compile(fs, a).0, Compile(fs, a).1);
    CodeNotGrows(Compile(fs, a).0, Compile(fs, a).1);
  }

  lemma PairGrows(fs: Fs, a: Expr, c: Expr, side: bool)
    ensures var fs2 := GoIf(Compile(fs, a).0, Compile(fs, a).1, side).0;
            && Grows(Compile(fs, a).0, fs2) && Grows(fs2, Compile(fs2, c).0)
            && Grows(Compile(fs2, c).0, Compile(fs, if side then And(a, c) else Or(a, c)).0)
  {
    hide Compile, DischargeVars, GoIfTrue, GoIfFalse;
    var (fs1, e1) := Compile(fs, a);
    GoIfTrueGrows(fs1, e1);
    GoIfFalseGrows(fs1, e1);
    var fs2 := GoIf(fs1, e1, side).0;
    CompileGrows(fs2, c);
    DischargeVarsGrows(Compile(fs2, c).0, Compile(fs2, c).1);
    JoinIs(fs, a, c, side);
  }

  lemma {:induction false} FaithfulPair(fs: Fs, a: Expr, c: Expr, side: bool, j: seq<int>, outer: set<int>, g: Env, r: Regs, b: Outcome,
                                        cy: Carry, exact: bool)
    requires var x := if side then And(a, c) else Or(a, c); Start(fs, j, outer, g, r, b, cy) && Compilable(fs, x, g)
    ensures var x := if side then And(a, c) else Or(a, c);
            Faithful(fs, x, exact) <==> Clean(x, fs.k, SetIn(fs.code, j), exact)
    decreases if side then And(a, c) else Or(a, c), 0
  {
    hide Start, Compile, SetIn, MarksOf, FormOf, PendingMark, AwayMark, GoIfTrue, GoIfFalse, Holds, Kept, Branch, Quiet, OuterSame;
    var (fs1, e1) := Compile(fs, a);
    var fs2 := GoIf(fs1, e1, side).0;
    var ya := YieldAt(g, b, a, fs.k, cy);
    var w := Go(FormOf(a, fs.k).tail, side, ya);
    PairGrows(fs, a, c, side);
    FaithfulIff(fs, a, j, outer, g, r, b, cy, exact);
    var ls1 := CompileComputes(fs, a, j, outer, g, r, b, cy);
    HoldsListed(fs1, e1, ls1, outer, g, r, b, ya, fs.freereg);
    QuietIs(fs1, e1, ls1, outer);
    var ls2 := CompileFirst(fs, a, side, j, outer, g, r, b, cy);
    var b1 := Norm(Exec(fs2.code, Open(ls2, outer), g, 0, r), ls2.j);
    KeptSame(fs, fs2, outer);
    FaithfulIff(fs2, c, ls2.j, outer + SetOf(if side then ls2.f else ls2.t), g, r, b1, Onward(w), exact);
  }

  lemma KeptSame(fs: Fs, fs': Fs, outer: set<int>)
    requires Kept(fs, fs', outer)
    ensures fs'.nactvar == fs.nactvar
  {
  }

  lemma CmpIs(fs: Fs, op: BinCmp, a: Expr, c: Expr)
    ensures var (fs2, ea) := Exp2RK(Compile(fs, a).0, Compile(fs, a).1);
            Compile(fs, CmpE(op, a, c)) == CodeComp(Compile(fs2, c).0, op, ea, Compile(fs2, c).1)
  {
    hide Exp2RK, CodeComp;
  }

  lemma CmpGrows(fs: Fs, op: BinCmp, a: Expr, c: Expr)
    ensures var (fs1, e1) := Compile(fs, a);
            var (fs2, ea) := Exp2RK(fs1, e1);
            && Grows(fs1, fs2) && Grows(fs2, Compile(fs2, c).0)
            && Grows(Compile(fs2, c).0, Compile(fs, CmpE(op, a, c)).0)
  {
    hide Exp2RK, CodeComp, Compile;
    CmpIs(fs, op, a, c);
    var (fs1, e1) := Compile(fs, a);
    var (fs2, ea) := Exp2RK(fs1, e1);
    Exp2RKGrows(fs1, e1);
    CompileGrows(fs2, c);
    CodeCompGrows(Compile(fs2, c).0, op, ea, Compile(fs2, c).1);
  }

  lemma {:induction false} FaithfulCmp(fs: Fs, op: BinCmp, a: Expr, c: Expr, j: seq<int>, outer: set<int>, g: Env, r: Regs, b: Outcome,
                                       cy: Carry, exact: bool)
    requires Start(fs, j, outer, g, r, b, cy) && Compilable(fs, CmpE(op, a, c), g)
    ensures Faithful(fs, CmpE(op, a, c), exact) <==> Clean(CmpE(op, a, c), fs.k, SetIn(fs.code, j), exact)
    decreases CmpE(op, a, c), 0
  {
    hide Start, Compile, SetIn, MarksOf, FormOf, Exp2RK, Holds, Kept, InPlace, OuterSame;
    var (fs1, e1) := Compile(fs, a);
    var (fs2, ea) := Exp2RK(fs1, e1);
    var ya := OperandAt(g, b, a, fs.k, cy);
    CmpGrows(fs, op, a, c);
    FaithfulIff(fs, a, j, outer, g, r, b, cy, true);
    var ls2 := CompileOperand(fs, a, j, outer, g, r, b, cy);
    StartRuns(fs, j, outer, g, r, b, cy);
    OperandStarts(fs2, ea, ls2, outer, g, r, b, ya, fs.freereg);
    KeptSame(fs, fs2, outer);
    FaithfulIff(fs2, c, ls2.j, outer, g, r, Run(fs2, ea.k, ls2, outer, g, r), ya.c, true);
  }
}
