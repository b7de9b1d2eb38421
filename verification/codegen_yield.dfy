/**
 What generated code yields, as a function of the tree alone. It differs from the value of the
 expression where a jump that waits for a place with a tested value in tow is taken on by a jump
 that is always taken: the value it brings is then delivered in place of the literal.
 */
module CodeGenYield {
  import opened Vm
  import opened CodeGen

  /** What an arrival brings along: the value that a TESTSET hands over, or nothing. */
  datatype Carry = Bare | Carried(v: Value)

  /** How the code of an expression is left: at its end, where it has the value `v`, or by one of its
      jumps for true or for false. */
  datatype Res =
    | Here(v: Value, c: Carry)
    | Left(side: bool, c: Carry)

  /** The value that reaches a register. */
  function Delivered(y: Res): Value {
    match y
    case Here(v, _) => v
    case Left(_, Carried(w)) => w
    case Left(side, Bare) => Bool(side)
  }

  /** The way a condition goes. */
  predicate Truth(y: Res) {
    match y
    case Here(v, _) => Truthy(v)
    case Left(side, _) => side
  }

  /** Behind an instruction: what arrives at it brings nothing any further. */
  function Drop(y: Res): Res {
    if y.Here? then Here(y.v, Bare) else y
  }

  /** The lists are closed: the value is in the register. */
  function Brought(y: Res): Res {
    if y.Here? then y else Here(Delivered(y), Bare)
  }

  function Ready(y: Res): Res {
    Here(Delivered(y), Bare)
  }

  // ------------------------------------------------------------- how code ends

  /** What an expression is when all of its code has been emitted. */
  datatype Tail =
    | EndsNil
    | EndsTrue
    | EndsFalse
    | EndsString(i: int)     // index of the constant
    | EndsNumber(n: int)
    | EndsRegister
    | EndsGlobal
    | EndsFetched            // a global that has been loaded
    | EndsNot
    | EndsCompare
  {
    /** No instruction stands for it yet. */
    predicate Literal() {
      EndsNil? || EndsTrue? || EndsFalse? || EndsString? || EndsNumber?
    }

    /** `luaK_goiftrue` and `luaK_goiffalse` let this through without code. */
    predicate Stays(side: bool) {
      if side then EndsTrue? || EndsString? || EndsNumber? else EndsNil? || EndsFalse?
    }

    /** They send this away with a jump that is always taken. */
    predicate Goes(side: bool) {
      if side then EndsFalse? else EndsTrue?
    }

    /** The test of this has no value to hand over. */
    predicate Testless() {
      EndsNot? || EndsCompare?
    }
  }

  /** `luaK_dischargevars` */
  function FetchTail(t: Tail): Tail {
    if t.EndsGlobal? then EndsFetched else t
  }

  function Fetch(t: Tail, y: Res): Res {
    if t.EndsGlobal? then Drop(y) else y
  }

  /** `codenot` */
  function NegateTail(t: Tail): Tail {
    match t
    case EndsNil => EndsTrue
    case EndsFalse => EndsTrue
    case EndsTrue => EndsFalse
    case EndsString(_) => EndsFalse
    case EndsNumber(_) => EndsFalse
    case EndsCompare => EndsCompare
    case _ => EndsNot
  }

  function Negate(t: Tail, y: Res): Res {
    match y
    case Here(v, c) => Here(Bool(!Truthy(v)), if t.Literal() then c else Bare)
    case Left(side, _) => Left(!side, Bare)
  }

  /** Where a condition leads: on, or away through its list. */
  datatype Way = Arrives(c: Carry) | Leaves(c: Carry)

  /** What control has in tow if it goes on. */
  function Onward(w: Way): Carry {
    if w.Arrives? then w.c else Bare
  }

  /** `jumponcond`: the value is tested, and handed over if it is in a register. */
  function Tests(t: Tail, side: bool, y: Res): Way {
    match y
    case Left(s, c) => if s == side then Arrives(c) else Leaves(c)
    case Here(v, _) => if Truthy(v) == side then Arrives(Bare) else Leaves(if t.Testless() then Bare else Carried(v))
  }

  /** `luaK_goiftrue` (`side`) and `luaK_goiffalse` */
  function Go(t: Tail, side: bool, y: Res): Way {
    if y.Here? && t.Stays(side) then Arrives(y.c)
    else if y.Here? && t.Goes(side) then Leaves(y.c)
    else Tests(t, side, y)
  }

  // ------------------------------------------------------------- what the shape of a tree decides

  /** The constants once `v` is among them (`addk`). */
  function Interned(k: seq<Value>, v: Value): seq<Value> {
    if FindK(k, v) < |k| then k else k + [v]
  }

  /** The tail of a compiled expression, whether it has jumps for true and for false, and the
      constants. */
  datatype Form = Form(tail: Tail, t: bool, f: bool, k: seq<Value>)

  /** An operand that `luaK_exp2RK` finds in place, or makes a constant. */
  predicate InPlace(a: Form) {
    && !a.t && !a.f
    && match a.tail
       case EndsString(i) => i <= MAXINDEXRK
       case EndsRegister => true
       case _ => a.tail.Literal() && |a.k| <= MAXINDEXRK
  }

  function LiteralValue(t: Tail): Value {
    match t
    case EndsTrue => Bool(true)
    case EndsFalse => Bool(false)
    case EndsNumber(n) => Number(n)
    case _ => Nil
  }

  /** The constants when the operand is in its register or is a constant. */
  function OperandConstants(a: Form): seq<Value> {
    if a.tail.EndsNumber? || (InPlace(a) && a.tail.Literal() && !a.tail.EndsString?) then Interned(a.k, LiteralValue(a.tail)) else a.k
  }

  /** The constants behind a condition: only `luaK_goiffalse` loads a number. */
  function GoConstants(a: Form, side: bool): seq<Value> {
    if !side && a.tail.EndsNumber? then Interned(a.k, LiteralValue(a.tail)) else a.k
  }

  /** The form of `and` (`side`) and `or`, of the forms of their operands. */
  function JoinForms(a: Form, b: Form, side: bool): Form {
    var away := !a.tail.Stays(side);
    if side then Form(FetchTail(b.tail), b.t, b.f || a.f || away, b.k)
    else Form(FetchTail(b.tail), b.t || a.t || away, b.f, b.k)
  }

  function FormOf(x: Expr, k: seq<Value>): Form {
    match x
    case NilLit => Form(EndsNil, false, false, k)
    case TrueLit => Form(EndsTrue, false, false, k)
    case FalseLit => Form(EndsFalse, false, false, k)
    case NumberLit(n) => Form(EndsNumber(n), false, false, k)
    case StringLit(id) => Form(EndsString(FindK(k, Other(id))), false, false, Interned(k, Other(id)))
    case Local(_) => Form(EndsRegister, false, false, k)
    case Global(_) => Form(EndsGlobal, false, false, k)
    case Paren(a) => var fa := FormOf(a, k); fa.(tail := FetchTail(fa.tail))
    case NotE(a) => var fa := FormOf(a, k); Form(NegateTail(fa.tail), fa.f, fa.t, fa.k)
    case And(a, b) => var fa := FormOf(a, k); JoinForms(fa, FormOf(b, GoConstants(fa, true)), true)
    case Or(a, b) => var fa := FormOf(a, k); JoinForms(fa, FormOf(b, GoConstants(fa, false)), false)
    case CmpE(_, a, b) => Form(EndsCompare, false, false, OperandConstants(FormOf(b, OperandConstants(FormOf(a, k)))))
  }

  // ------------------------------------------------------------- what the code yields

  function Placed(a: Form, y: Res): Res {
    if InPlace(a) then Brought(y) else Ready(y)
  }

  /** The second operand of `and` or `or`, if control gets there. */
  function Join(w: Way, side: bool, b: Form, y: Res): Res {
    if w.Leaves? then Left(!side, w.c) else Fetch(b.tail, y)
  }

  /** How the code of `x` is left when it is entered with `cy` in tow, with the locals in `r` and the
      constants `k` in use. */
  function Yield(g: Env, r: Regs, x: Expr, k: seq<Value>, cy: Carry): Res {
    match x
    case NilLit => Here(Nil, cy)
    case TrueLit => Here(Bool(true), cy)
    case FalseLit => Here(Bool(false), cy)
    case NumberLit(n) => Here(Number(n), cy)
    case StringLit(id) => Here(Other(id), cy)
    case Local(i) => Here(Get(r, i), cy)
    case Global(n) => Here(g.globals(n), cy)
    case Paren(a) => Fetch(FormOf(a, k).tail, Yield(g, r, a, k, cy))
    case NotE(a) => Negate(FormOf(a, k).tail, Yield(g, r, a, k, cy))
    case And(a, b) =>
      var k1 := GoConstants(FormOf(a, k), true);
      var w := Go(FormOf(a, k).tail, true, Yield(g, r, a, k, cy));
      Join(w, true, FormOf(b, k1), Yield(g, r, b, k1, Onward(w)))
    case Or(a, b) =>
      var k1 := GoConstants(FormOf(a, k), false);
      var w := Go(FormOf(a, k).tail, false, Yield(g, r, a, k, cy));
      Join(w, false, FormOf(b, k1), Yield(g, r, b, k1, Onward(w)))
    case CmpE(op, a, b) =>
      var k1 := OperandConstants(FormOf(a, k));
      var ya := Placed(FormOf(a, k), Yield(g, r, a, k, cy));
      var yb := Placed(FormOf(b, k1), Yield(g, r, b, k1, ya.c));
      Here(Bool(EvalCmp(g, op, Delivered(ya), Delivered(yb))), Bare)
  }

  /** What a literal tail says about the value, and the lists about how the code can be left. */
  ghost predicate Fits(a: Form, y: Res) {
    match y
    case Here(v, _) =>
      (match a.tail
       case EndsNil => v == Nil
       case EndsTrue => v == Bool(true)
       case EndsFalse => v == Bool(false)
       case EndsString(_) => Truthy(v)
       case EndsNumber(_) => Truthy(v)
       case EndsNot => v.Bool?
       case EndsCompare => v.Bool?
       case _ => true)
    case Left(side, _) => if side then a.t else a.f
  }

  lemma {:induction false} YieldFits(g: Env, r: Regs, x: Expr, k: seq<Value>, cy: Carry)
    ensures Fits(FormOf(x, k), Yield(g, r, x, k, cy))
    decreases x
  {
    match x {
      case Paren(a) => YieldFits(g, r, a, k, cy);
      case NotE(a) => YieldFits(g, r, a, k, cy);
      case And(a, b) =>
        YieldFits(g, r, a, k, cy);
        YieldFits(g, r, b, GoConstants(FormOf(a, k), true), Onward(Go(FormOf(a, k).tail, true, Yield(g, r, a, k, cy))));
      case Or(a, b) =>
        YieldFits(g, r, a, k, cy);
        YieldFits(g, r, b, GoConstants(FormOf(a, k), false), Onward(Go(FormOf(a, k).tail, false, Yield(g, r, a, k, cy))));
      case _ =>
    }
  }

  /** A condition goes the way that its result is true or false. */
  lemma GoesByTruth(a: Form, side: bool, y: Res)
    requires Fits(a, y)
    ensures Go(a.tail, side, y).Arrives? <==> Truth(y) == side
  {
  }

  lemma {:induction false} YieldFrame(g: Env, r: Regs, r': Regs, x: Expr, n: int, k: seq<Value>, cy: Carry)
    requires (forall i :: i < n ==> Get(r', i) == Get(r, i)) && LocalsBelow(x, n)
    ensures Yield(g, r', x, k, cy) == Yield(g, r, x, k, cy)
    decreases x
  {
    match x {
      case Paren(a) => YieldFrame(g, r, r', a, n, k, cy);
      case NotE(a) => YieldFrame(g, r, r', a, n, k, cy);
      case And(a, b) =>
        YieldFrame(g, r, r', a, n, k, cy);
        YieldFrame(g, r, r', b, n, GoConstants(FormOf(a, k), true), Onward(Go(FormOf(a, k).tail, true, Yield(g, r, a, k, cy))));
      case Or(a, b) =>
        YieldFrame(g, r, r', a, n, k, cy);
        YieldFrame(g, r, r', b, n, GoConstants(FormOf(a, k), false), Onward(Go(FormOf(a, k).tail, false, Yield(g, r, a, k, cy))));
      case CmpE(_, a, b) =>
        YieldFrame(g, r, r', a, n, k, cy);
        YieldFrame(g, r, r', b, n, OperandConstants(FormOf(a, k)), Placed(FormOf(a, k), Yield(g, r, a, k, cy)).c);
      case _ =>
    }
  }

  /** The locals of the tree are registers of active variables. */
  predicate LocalsBelow(x: Expr, n: int) {
    match x
    case Local(i) => i < n
    case Paren(a) => LocalsBelow(a, n)
    case NotE(a) => LocalsBelow(a, n)
    case And(a, b) => LocalsBelow(a, n) && LocalsBelow(b, n)
    case Or(a, b) => LocalsBelow(a, n) && LocalsBelow(b, n)
    case CmpE(_, a, b) => LocalsBelow(a, n) && LocalsBelow(b, n)
    case _ => true
  }

  // ------------------------------------------------------------- which trees yield their value

  /** May a jump on the list for true, on the one for false, or among those that wait for the end of
      the code have a value in tow? */
  datatype Marks = Marks(t: bool, f: bool, j: bool)

  function FetchMarks(t: Tail, m: Marks): Marks {
    if t.EndsGlobal? then m.(j := false) else m
  }

  /** The list that a condition leaves by. */
  predicate AwayMark(t: Tail, side: bool, m: Marks) {
    || (if side then m.f else m.t)
    || (if t.Stays(side) then false else if t.Goes(side) then m.j else !t.Testless())
  }

  /** The jumps that wait behind a condition. */
  predicate PendingMark(t: Tail, side: bool, m: Marks) {
    (if side then m.t else m.f) || (t.Stays(side) && m.j)
  }

  function JoinMarks(away: bool, side: bool, t: Tail, m: Marks): Marks {
    var m1 := FetchMarks(t, m);
    if side then m1.(f := m1.f || away) else m1.(t := m1.t || away)
  }

  function MarksOf(x: Expr, k: seq<Value>, j: bool): Marks {
    match x
    case Paren(a) => FetchMarks(FormOf(a, k).tail, MarksOf(a, k, j))
    case NotE(a) => Marks(false, false, FormOf(a, k).tail.Literal() && MarksOf(a, k, j).j)
    case And(a, b) =>
      var fa, ma := FormOf(a, k), MarksOf(a, k, j);
      var k1 := GoConstants(fa, true);
      JoinMarks(AwayMark(fa.tail, true, ma), true, FormOf(b, k1).tail, MarksOf(b, k1, PendingMark(fa.tail, true, ma)))
    case Or(a, b) =>
      var fa, ma := FormOf(a, k), MarksOf(a, k, j);
      var k1 := GoConstants(fa, false);
      JoinMarks(AwayMark(fa.tail, false, ma), false, FormOf(b, k1).tail, MarksOf(b, k1, PendingMark(fa.tail, false, ma)))
    case CmpE(_, _, _) => Marks(false, false, false)
    case _ => Marks(false, false, j)
  }

  /** `and` (`side`) and `or` by their second operand, as it is once discharged. */
  lemma PairOf(a: Expr, b: Expr, k: seq<Value>, j: bool, side: bool)
    ensures var fa, ma := FormOf(a, k), MarksOf(a, k, j);
            var fb := FormOf(Paren(b), GoConstants(fa, side));
            var mb := MarksOf(Paren(b), GoConstants(fa, side), PendingMark(fa.tail, side, ma));
            var away := (if side then fa.f else fa.t) || !fa.tail.Stays(side);
            var x := if side then And(a, b) else Or(a, b);
            && FormOf(x, k) == (if side then fb.(f := fb.f || away) else fb.(t := fb.t || away))
            && MarksOf(x, k, j) == if side then mb.(f := mb.f || AwayMark(fa.tail, side, ma)) else mb.(t := mb.t || AwayMark(fa.tail, side, ma))
  {
  }

  /** No jump that is always taken takes on a jump with a value in tow. Where only the truth of the
      result matters (not `exact`) this is asked of what is compared alone. */
  predicate Clean(x: Expr, k: seq<Value>, j: bool, exact: bool) {
    match x
    case Paren(a) => Clean(a, k, j, exact)
    case NotE(a) => Clean(a, k, j, false)
    case And(a, b) =>
      var fa, ma := FormOf(a, k), MarksOf(a, k, j);
      && Clean(a, k, j, exact) && (exact && fa.tail.EndsFalse? ==> !ma.j)
      && Clean(b, GoConstants(fa, true), PendingMark(fa.tail, true, ma), exact)
    case Or(a, b) =>
      var fa, ma := FormOf(a, k), MarksOf(a, k, j);
      && Clean(a, k, j, exact) && (exact && fa.tail.EndsTrue? ==> !ma.j)
      && Clean(b, GoConstants(fa, false), PendingMark(fa.tail, false, ma), exact)
    case CmpE(_, a, b) =>
      var fa := FormOf(a, k);
      Clean(a, k, j, true) && Clean(b, OperandConstants(fa), InPlace(fa) && MarksOf(a, k, j).j, true)
    case _ => true
  }

  ghost predicate Covers(m: Marks, y: Res) {
    y.c.Carried? ==> (match y case Here(_, _) => m.j case Left(side, _) => if side then m.t else m.f)
  }

  lemma JoinCovers(fa: Form, ma: Marks, ya: Res, t: Tail, mb: Marks, yb: Res, fb: Form, side: bool)
    requires Covers(ma, ya) && Covers(mb, yb) && t == fb.tail
    ensures Covers(JoinMarks(AwayMark(fa.tail, side, ma), side, t, mb), Join(Go(fa.tail, side, ya), side, fb, yb))
  {
  }

  lemma OnwardCovers(t: Tail, side: bool, m: Marks, y: Res)
    requires Covers(m, y)
    ensures Onward(Go(t, side, y)).Carried? ==> PendingMark(t, side, m)
  {
  }

  /** The marks cover every value that is in tow. */
  lemma {:induction false} YieldCovered(g: Env, r: Regs, x: Expr, k: seq<Value>, cy: Carry, j: bool)
    requires cy.Carried? ==> j
    ensures Covers(MarksOf(x, k, j), Yield(g, r, x, k, cy))
    decreases x, 1
  {
    hide Join, JoinMarks, Go, Onward, AwayMark, PendingMark, FormOf;
    match x {
      case Paren(a) => YieldCovered(g, r, a, k, cy, j);
      case NotE(a) => YieldCovered(g, r, a, k, cy, j);
      case And(a, b) => JoinCovered(g, r, a, b, k, cy, j, true);
      case Or(a, b) => JoinCovered(g, r, a, b, k, cy, j, false);
      case _ =>
    }
  }

  lemma {:induction false} JoinCovered(g: Env, r: Regs, a: Expr, b: Expr, k: seq<Value>, cy: Carry, j: bool, side: bool)
    requires cy.Carried? ==> j
    ensures var x := if side then And(a, b) else Or(a, b); Covers(MarksOf(x, k, j), Yield(g, r, x, k, cy))
    decreases if side then And(a, b) else Or(a, b), 0
  {
    hide Join, JoinMarks, Go, Onward, AwayMark, PendingMark, FormOf, Covers;
    var fa, ma, ya := FormOf(a, k), MarksOf(a, k, j), Yield(g, r, a, k, cy);
    var k1, w := GoConstants(fa, side), Go(fa.tail, side, ya);
    YieldCovered(g, r, a, k, cy, j);
    OnwardCovers(fa.tail, side, ma, ya);
    YieldCovered(g, r, b, k1, Onward(w), PendingMark(fa.tail, side, ma));
    JoinCovers(fa, ma, ya, FormOf(b, k1).tail, MarksOf(b, k1, PendingMark(fa.tail, side, ma)), Yield(g, r, b, k1, Onward(w)), FormOf(b, k1), side);
  }

  /** The result is as good as the value: for its truth, and as a value if it is `exact`. */
  ghost predicate Right(y: Res, v: Value, exact: bool) {
    Truth(y) == Truthy(v) && (exact ==> Delivered(y) == v)
  }

  /** `and` (`side`) and `or` of results that are right. */
  lemma JoinRight(fa: Form, ma: Marks, ya: Res, va: Value, fb: Form, yb: Res, vb: Value, side: bool, exact: bool)
    requires Fits(fa, ya) && Covers(ma, ya) && Right(ya, va, exact) && (exact && fa.tail.Goes(side) ==> !ma.j)
    requires Right(yb, vb, exact)
    ensures Right(Join(Go(fa.tail, side, ya), side, fb, yb), if Truthy(va) == side then vb else va, exact)
  {
  }

  /** Clean trees yield their values. */
  lemma {:induction false} CleanIsRight(g: Env, r: Regs, x: Expr, k: seq<Value>, cy: Carry, j: bool, exact: bool)
    requires Clean(x, k, j, exact) && (cy.Carried? ==> j)
    ensures Right(Yield(g, r, x, k, cy), Eval(g, r, x), exact)
    decreases x, 1
  {
    hide Join, Go, Onward, PendingMark, FormOf, InPlace, EvalCmp, MarksOf;
    match x {
      case Paren(a) => CleanIsRight(g, r, a, k, cy, j, exact);
      case NotE(a) => CleanIsRight(g, r, a, k, cy, j, false);
      case And(a, b) => CleanJoin(g, r, a, b, k, cy, j, true, exact);
      case Or(a, b) => CleanJoin(g, r, a, b, k, cy, j, false, exact);
      case CmpE(op, a, b) => CleanCmp(g, r, op, a, b, k, cy, j, exact);
      case _ =>
    }
  }

  lemma {:induction false} CleanJoin(g: Env, r: Regs, a: Expr, b: Expr, k: seq<Value>, cy: Carry, j: bool, side: bool, exact: bool)
    requires Clean(if side then And(a, b) else Or(a, b), k, j, exact) && (cy.Carried? ==> j)
    ensures var x := if side then And(a, b) else Or(a, b); Right(Yield(g, r, x, k, cy), Eval(g, r, x), exact)
    decreases if side then And(a, b) else Or(a, b), 0
  {
    hide Join, Go, Onward, PendingMark, FormOf, Right, MarksOf;
    var fa, ma, ya := FormOf(a, k), MarksOf(a, k, j), Yield(g, r, a, k, cy);
    var k1, w := GoConstants(fa, side), Go(fa.tail, side, ya);
    CleanIsRight(g, r, a, k, cy, j, exact);
    YieldFits(g, r, a, k, cy);
    YieldCovered(g, r, a, k, cy, j);
    OnwardCovers(fa.tail, side, ma, ya);
    CleanIsRight(g, r, b, k1, Onward(w), PendingMark(fa.tail, side, ma), exact);
    JoinRight(fa, ma, ya, Eval(g, r, a), FormOf(b, k1), Yield(g, r, b, k1, Onward(w)), Eval(g, r, b), side, exact);
  }

  lemma OperandCovers(fa: Form, ma: Marks, ya: Res)
    requires Fits(fa, ya) && Covers(ma, ya)
    ensures Placed(fa, ya).c.Carried? ==> InPlace(fa) && ma.j
  {
  }

  lemma OperandDelivers(fa: Form, ya: Res)
    ensures Delivered(Placed(fa, ya)) == Delivered(ya)
  {
  }

  lemma {:induction false} CleanCmp(g: Env, r: Regs, op: BinCmp, a: Expr, b: Expr, k: seq<Value>, cy: Carry, j: bool, exact: bool)
    requires Clean(CmpE(op, a, b), k, j, exact) && (cy.Carried? ==> j)
    ensures Right(Yield(g, r, CmpE(op, a, b), k, cy), Eval(g, r, CmpE(op, a, b)), exact)
    decreases CmpE(op, a, b), 0
  {
    hide FormOf, InPlace, EvalCmp, MarksOf, Operand, OperandConstants, Fits, Covers, Delivered;
    var fa, ya := FormOf(a, k), Yield(g, r, a, k, cy);
    var k1, c1 := OperandConstants(fa), Placed(fa, ya).c;
    CleanIsRight(g, r, a, k, cy, j, true);
    YieldFits(g, r, a, k, cy);
    YieldCovered(g, r, a, k, cy, j);
    OperandCovers(fa, MarksOf(a, k, j), ya);
    OperandDelivers(fa, ya);
    CleanIsRight(g, r, b, k1, c1, InPlace(fa) && MarksOf(a, k, j).j, true);
    OperandDelivers(FormOf(b, k1), Yield(g, r, b, k1, c1));
    BoolIsRight(EvalCmp(g, op, Eval(g, r, a), Eval(g, r, b)), exact);
  }

  lemma BoolIsRight(b: bool, exact: bool)
    ensures Right(Here(Bool(b), Bare), Bool(b), exact)
  {
  }
}
