/**
 The code generator for expressions (lcode.c), driven as the parser drives it (subexpr in
 lparser.c). One pass, no tree: jumps whose target is not known yet are threaded into lists
 through the offsets of the jump instructions themselves.
 */
module CodeGen {
  import opened Vm

  const NO_JUMP := -1
  const MAXINDEXRK := 255

  datatype Kind =
    | VNil
    | VTrue
    | VFalse
    | VK(info: int)          // index of a constant
    | VKNum(nval: int)
    | VLocal(info: int)      // register of a local
    | VGlobal(info: int)     // constant that holds the name
    | VReloc(info: int)      // instruction that can put its result in any register
    | VNonReloc(info: int)   // register that holds the result
    | VJmp(info: int)        // jump that is taken when the expression is true

  /** `expdesc`: besides its kind, the lists of jumps that leave it when true and when false. */
  datatype Exp = Exp(k: Kind, t: int, f: int)

  /** The part of `FuncState` that expressions use. `pc` is the length of the code. */
  datatype Fs = Fs(code: Code, jpc: int, lasttarget: int, freereg: int, nactvar: int, k: seq<Value>, maxstack: int)

  // ------------------------------------------------------------- jump lists

  /** `getjump` */
  function GetJump(c: Code, pc: int): int
    requires 0 <= pc < |c| && c[pc].Jmp?
  {
    if c[pc].sbx == NO_JUMP then NO_JUMP else pc + 1 + c[pc].sbx
  }

  /** `fixjump` */
  function FixJump(c: Code, pc: int, dest: int): Code
    requires 0 <= pc < |c|
  {
    c[pc := Jmp(dest - (pc + 1))]
  }

  /** The jumps of a list, in order, at most `fuel` of them. */
  function Walk(c: Code, list: int, fuel: nat): seq<int>
    decreases fuel
  {
    if fuel == 0 || !(0 <= list < |c|) || !c[list].Jmp? then []
    else [list] + Walk(c, GetJump(c, list), fuel - 1)
  }

  function ListOf(c: Code, list: int): seq<int> {
    Walk(c, list, |c|)
  }

  /** `luaK_concat` */
  function Concat(c: Code, l1: int, l2: int): (Code, int) {
    var l := ListOf(c, l1);
    if l2 == NO_JUMP then (c, l1)
    else if l1 == NO_JUMP || l == [] || !(0 <= l[|l| - 1] < |c|) then (c, l2)
    else (FixJump(c, l[|l| - 1], l2), l1)
  }

  /** One turn of `patchlistaux`: `patchtestreg`, then `fixjump`. */
  function PatchOne(c: Code, j: int, vt: int, reg: int, dt: int): (c': Code)
    ensures |c'| == |c|
  {
    if 0 <= j < |c| then
      FixJump(c[Control(c, j) := PatchedTest(c[Control(c, j)], reg)], j, if IsSet(c, j) then vt else dt)
    else c
  }

  function PatchAll(c: Code, l: seq<int>, vt: int, reg: int, dt: int): (c': Code)
    ensures |c'| == |c|
    decreases |l|
  {
    if l == [] then c else PatchAll(PatchOne(c, l[0], vt, reg, dt), l[1..], vt, reg, dt)
  }

  /** `patchlistaux` */
  function PatchList(c: Code, list: int, vt: int, reg: int, dt: int): Code {
    PatchAll(c, ListOf(c, list), vt, reg, dt)
  }

  /** `removevalues` on the jumps of a list. */
  function RemoveAll(c: Code, l: seq<int>): (c': Code)
    ensures |c'| == |c|
    decreases |l|
  {
    if l == [] then c
    else if 0 <= l[0] < |c| then RemoveAll(c[Control(c, l[0]) := PatchedTest(c[Control(c, l[0])], NO_REG)], l[1..])
    else RemoveAll(c, l[1..])
  }

  /** `need_value`: does some jump of the list come without a value, or with an inverted one? */
  function NeedValue(c: Code, l: seq<int>): bool
    decreases |l|
  {
    l != [] && ((0 <= l[0] < |c| && !IsSet(c, l[0])) || NeedValue(c, l[1..]))
  }

  // ------------------------------------------------------------- emitting code

  /** `luaK_getlabel` */
  function GetLabel(fs: Fs): Fs {
    fs.(lasttarget := |fs.code|)
  }

  /** `dischargejpc` */
  function DischargeJpc(fs: Fs): Fs {
    fs.(code := PatchList(fs.code, fs.jpc, |fs.code|, NO_REG, |fs.code|), jpc := NO_JUMP)
  }

  /** `luaK_code` */
  function Emit(fs: Fs, i: Instr): Fs {
    var fs1 := DischargeJpc(fs);
    fs1.(code := fs1.code + [i])
  }

  /** `luaK_patchtohere` */
  function PatchToHere(fs: Fs, list: int): Fs {
    var (c, jpc) := Concat(fs.code, fs.jpc, list);
    fs.(code := c, jpc := jpc, lasttarget := |fs.code|)
  }

  /** `luaK_jump`: the jumps that wait for this place go wherever the new jump goes. */
  function Jump(fs: Fs): (Fs, int) {
    var j := |fs.code|;
    var (c, list) := Concat(fs.code + [Jmp(NO_JUMP)], j, fs.jpc);
    (fs.(code := c, jpc := NO_JUMP), list)
  }

  /** `condjump` */
  function CondJump(fs: Fs, i: Instr): (Fs, int) {
    Jump(Emit(fs, i))
  }

  function Max(a: int, b: int): int {
    if a > b then a else b
  }

  /** `luaK_reserveregs` of one register, with `luaK_checkstack` */
  function Reserve(fs: Fs): Fs {
    fs.(freereg := fs.freereg + 1, maxstack := Max(fs.maxstack, fs.freereg + 1))
  }

  /** `freeexp` */
  function FreeExp(fs: Fs, e: Exp): Fs {
    if e.k.VNonReloc? && e.k.info >= fs.nactvar then fs.(freereg := fs.freereg - 1) else fs
  }

  function FindK(k: seq<Value>, v: Value): (i: nat)
    ensures i <= |k| && (i < |k| ==> k[i] == v)
  {
    if k == [] || k[0] == v then 0 else 1 + FindK(k[1..], v)
  }

  /** `addk` */
  function AddK(fs: Fs, v: Value): (Fs, int) {
    var i := FindK(fs.k, v);
    if i < |fs.k| then (fs, i) else (fs.(k := fs.k + [v]), |fs.k|)
  }

  /** `luaK_nil` for one register */
  function CodeNil(fs: Fs, reg: int): Fs {
    var n := |fs.code|;
    if n > fs.lasttarget && n == 0 && reg >= fs.nactvar then fs
    else if n > fs.lasttarget && n > 0 && fs.code[n - 1].LoadNil? &&
            fs.code[n - 1].a <= reg <= fs.code[n - 1].b + 1 then
      if reg > fs.code[n - 1].b then fs.(code := fs.code[n - 1 := LoadNil(fs.code[n - 1].a, reg)]) else fs
    else Emit(fs, LoadNil(reg, reg))
  }

  // ------------------------------------------------------------- discharging expressions

  /** `luaK_dischargevars` */
  function DischargeVars(fs: Fs, e: Exp): (Fs, Exp) {
    match e.k
    case VLocal(r) => (fs, e.(k := VNonReloc(r)))
    case VGlobal(n) => (Emit(fs, GetGlobal(0, n)), e.(k := VReloc(|fs.code|)))
    case _ => (fs, e)
  }

  /** `SETARG_A` */
  function SetA(i: Instr, reg: int): Instr {
    match i
    case GetGlobal(_, bx) => GetGlobal(reg, bx)
    case Not(_, b) => Not(reg, b)
    case _ => i
  }

  /** `discharge2reg`, after `luaK_dischargevars` */
  function Load(fs: Fs, k: Kind, reg: int): Fs {
    match k
    case VNil => CodeNil(fs, reg)
    case VFalse => Emit(fs, LoadBool(reg, false, false))
    case VTrue => Emit(fs, LoadBool(reg, true, false))
    case VK(i) => Emit(fs, LoadK(reg, i))
    case VKNum(n) => var (fs1, i) := AddK(fs, Number(n)); Emit(fs1, LoadK(reg, i))
    case VReloc(pc) => if 0 <= pc < |fs.code| then fs.(code := fs.code[pc := SetA(fs.code[pc], reg)]) else fs
    case VNonReloc(r) => if r != reg then Emit(fs, Move(reg, r)) else fs
    case _ => fs
  }

  function Discharge2Reg(fs: Fs, e: Exp, reg: int): (Fs, Exp) {
    var (fs1, e1) := DischargeVars(fs, e);
    if e1.k.VJmp? then (fs1, e1) else (Load(fs1, e1.k, reg), e1.(k := VNonReloc(reg)))
  }

  /** `discharge2anyreg` */
  function Discharge2AnyReg(fs: Fs, e: Exp): (Fs, Exp) {
    if e.k.VNonReloc? then (fs, e) else Discharge2Reg(Reserve(fs), e, fs.freereg)
  }

  /** The LOADBOOL pair of `exp2reg`, with a jump around it if the code falls in with a value. */
  function LoadBools(fs: Fs, fallsIn: bool, reg: int): Fs {
    var (fs1, fj) := if fallsIn then Jump(fs) else (fs, NO_JUMP);
    var fs2 := Emit(GetLabel(fs1), LoadBool(reg, false, true));
    var fs3 := Emit(GetLabel(fs2), LoadBool(reg, true, false));
    PatchToHere(fs3, fj)
  }

  /** Does some jump of the lists come without a value? */
  function Needs(fs: Fs, t: int, f: int): bool {
    NeedValue(fs.code, ListOf(fs.code, t)) || NeedValue(fs.code, ListOf(fs.code, f))
  }

  /** The state in which `exp2reg` patches the lists. */
  function Widened(fs: Fs, t: int, f: int, fallsIn: bool, reg: int): Fs {
    GetLabel(if Needs(fs, t, f) then LoadBools(fs, fallsIn, reg) else fs)
  }

  /** The second half of `exp2reg`: everything that left by a jump arrives with its value in `reg`. */
  function CloseLists(fs: Fs, t: int, f: int, fallsIn: bool, reg: int): Fs {
    if t == f then fs
    else
      var fs1 := Widened(fs, t, f, fallsIn, reg);
      var n := |fs1.code|;
      fs1.(code := PatchList(PatchList(fs1.code, f, n, reg, n - 2), t, n, reg, n - 1))
  }

  /** `exp2reg` */
  function Exp2Reg(fs: Fs, e: Exp, reg: int): (Fs, Exp) {
    var (fs1, e1) := Discharge2Reg(fs, e, reg);
    var (c, t) := if e1.k.VJmp? then Concat(fs1.code, e1.t, e1.k.info) else (fs1.code, e1.t);
    (CloseLists(fs1.(code := c), t, e1.f, !e1.k.VJmp?, reg), Exp(VNonReloc(reg), NO_JUMP, NO_JUMP))
  }

  /** `luaK_exp2nextreg` */
  function Exp2NextReg(fs: Fs, e: Exp): (Fs, Exp) {
    var (fs1, e1) := DischargeVars(fs, e);
    var fs2 := Reserve(FreeExp(fs1, e1));
    Exp2Reg(fs2, e1, fs2.freereg - 1)
  }

  /** `luaK_exp2anyreg` */
  function Exp2AnyReg(fs: Fs, e: Exp): (Fs, Exp) {
    var (fs1, e1) := DischargeVars(fs, e);
    if e1.k.VNonReloc? && e1.t == e1.f then (fs1, e1)
    else if e1.k.VNonReloc? && e1.k.info >= fs1.nactvar then Exp2Reg(fs1, e1, e1.k.info)
    else Exp2NextReg(fs1, e1)
  }

  /** `luaK_exp2val` */
  function Exp2Val(fs: Fs, e: Exp): (Fs, Exp) {
    if e.t != e.f then Exp2AnyReg(fs, e) else DischargeVars(fs, e)
  }

  /** The value of a constant expression, if it can be an operand as it is. */
  function ConstantOf(k: Kind): Value
    requires k.VNil? || k.VTrue? || k.VFalse? || k.VKNum?
  {
    match k
    case VNil => Nil
    case VTrue => Bool(true)
    case VFalse => Bool(false)
    case VKNum(n) => Number(n)
  }

  function RkOf(k: Kind): Rk {
    match k
    case VK(i) => Kst(i)
    case VNonReloc(r) => Reg(r)
    case _ => Kst(-1)
  }

  /** `luaK_exp2RK`; the operand it returns is `RkOf` of the new kind. */
  function Exp2RK(fs: Fs, e: Exp): (Fs, Exp) {
    var (fs1, e1) := Exp2Val(fs, e);
    if (e1.k.VNil? || e1.k.VTrue? || e1.k.VFalse? || e1.k.VKNum?) && |fs1.k| <= MAXINDEXRK then
      var (fs2, i) := AddK(fs1, ConstantOf(e1.k));
      (fs2, e1.(k := VK(i)))
    else if e1.k.VK? && e1.k.info <= MAXINDEXRK then (fs1, e1)
    else Exp2AnyReg(fs1, e1)
  }

  // ------------------------------------------------------------- conditions

  /** `invertjump` */
  function InvertJump(c: Code, j: int): Code {
    if 1 <= j < |c| && c[j - 1].Cmp? then c[j - 1 := Cmp(c[j - 1].op, !c[j - 1].cond, c[j - 1].rb, c[j - 1].rc)] else c
  }

  /** `jumponcond`: a NOT that was just emitted is taken back and its operand tested instead. */
  function JumpOnCond(fs: Fs, e: Exp, cond: bool): (Fs, int) {
    if e.k.VReloc? && 0 <= e.k.info < |fs.code| && fs.code[e.k.info].Not? then
      CondJump(fs.(code := fs.code[..|fs.code| - 1]), Test(fs.code[e.k.info].b, !cond))
    else
      var (fs1, e1) := Discharge2AnyReg(fs, e);
      CondJump(FreeExp(fs1, e1), TestSet(NO_REG, if e1.k.VNonReloc? then e1.k.info else NO_REG, cond))
  }

  /** What `jumponcond` leaves in the descriptor. */
  function TestedKind(fs: Fs, e: Exp): Kind {
    if e.k.VReloc? && 0 <= e.k.info < |fs.code| && fs.code[e.k.info].Not? then e.k else Discharge2AnyReg(fs, e).1.k
  }

  /** `luaK_goiftrue`: go on only if the expression is true; jumps on false join `f`. */
  function GoIfTrue(fs: Fs, e: Exp): (Fs, Exp) {
    var (fs1, e1) := DischargeVars(fs, e);
    var (fs2, pc, k) :=
      match e1.k
      case VK(_) => (fs1, NO_JUMP, e1.k)
      case VKNum(_) => (fs1, NO_JUMP, e1.k)
      case VTrue => (fs1, NO_JUMP, e1.k)
      case VFalse => var (fs3, j) := Jump(fs1); (fs3, j, e1.k)
      case VJmp(j) => (fs1.(code := InvertJump(fs1.code, j)), j, e1.k)
      case _ => var (fs3, j) := JumpOnCond(fs1, e1, false); (fs3, j, TestedKind(fs1, e1));
    var (c, f) := Concat(fs2.code, e1.f, pc);
    (PatchToHere(fs2.(code := c), e1.t), Exp(k, NO_JUMP, f))
  }

  /** `luaK_goiffalse` */
  function GoIfFalse(fs: Fs, e: Exp): (Fs, Exp) {
    var (fs1, e1) := DischargeVars(fs, e);
    var (fs2, pc, k) :=
      match e1.k
      case VNil => (fs1, NO_JUMP, e1.k)
      case VFalse => (fs1, NO_JUMP, e1.k)
      case VTrue => var (fs3, j) := Jump(fs1); (fs3, j, e1.k)
      case VJmp(j) => (fs1, j, e1.k)
      case _ => var (fs3, j) := JumpOnCond(fs1, e1, true); (fs3, j, TestedKind(fs1, e1));
    var (c, t) := Concat(fs2.code, e1.t, pc);
    (PatchToHere(fs2.(code := c), e1.f), Exp(k, t, NO_JUMP))
  }

  /** `codenot` */
  function CodeNot(fs: Fs, e: Exp): (Fs, Exp) {
    var (fs1, e1) := DischargeVars(fs, e);
    var (fs2, k) :=
      match e1.k
      case VNil => (fs1, VTrue)
      case VFalse => (fs1, VTrue)
      case VK(_) => (fs1, VFalse)
      case VKNum(_) => (fs1, VFalse)
      case VTrue => (fs1, VFalse)
      case VJmp(j) => (fs1.(code := InvertJump(fs1.code, j)), e1.k)
      case _ =>
        var (fs3, e3) := Discharge2AnyReg(fs1, e1);
        var fs4 := FreeExp(fs3, e3);
        (Emit(fs4, Not(0, if e3.k.VNonReloc? then e3.k.info else NO_REG)), VReloc(|fs4.code|));
    var c1 := RemoveAll(fs2.code, ListOf(fs2.code, e1.t));
    (fs2.(code := RemoveAll(c1, ListOf(c1, e1.f))), Exp(k, e1.f, e1.t))
  }

  // ------------------------------------------------------------- comparisons

  datatype BinCmp = Eq | Ne | Lt | Le | Gt | Ge

  /** `codecomp`: `>` and `>=` swap their operands, `~=` jumps on the opposite outcome. */
  function CmpInstr(op: BinCmp, a: Rk, b: Rk): Instr {
    match op
    case Eq => Cmp(EQ, true, a, b)
    case Ne => Cmp(EQ, false, a, b)
    case Lt => Cmp(LT, true, a, b)
    case Le => Cmp(LE, true, a, b)
    case Gt => Cmp(LT, true, b, a)
    case Ge => Cmp(LE, true, b, a)
  }

  function CodeComp(fs: Fs, op: BinCmp, e1: Exp, e2: Exp): (Fs, Exp) {
    var (fs1, a) := Exp2RK(fs, e1);
    var (fs2, b) := Exp2RK(fs1, e2);
    var (fs3, j) := CondJump(FreeExp(FreeExp(fs2, b), a), CmpInstr(op, RkOf(a.k), RkOf(b.k)));
    (fs3, Exp(VJmp(j), a.t, a.f))
  }

  // ------------------------------------------------------------- expressions

  /** Expression trees: what subexpr parses. */
  datatype Expr =
    | NilLit
    | TrueLit
    | FalseLit
    | NumberLit(n: int)
    | StringLit(id: int)
    | Local(reg: int)
    | Global(name: int)
    | Paren(e: Expr)
    | NotE(e: Expr)
    | And(a: Expr, b: Expr)
    | Or(a: Expr, b: Expr)
    | CmpE(op: BinCmp, a: Expr, b: Expr)

  function Leaf(k: Kind): Exp {
    Exp(k, NO_JUMP, NO_JUMP)
  }

  /** `subexpr` on the tree: `luaK_infix` between the operands, `luaK_posfix` behind them. */
  function Compile(fs: Fs, x: Expr): (Fs, Exp)
    decreases x
  {
    match x
    case NilLit => (fs, Leaf(VNil))
    case TrueLit => (fs, Leaf(VTrue))
    case FalseLit => (fs, Leaf(VFalse))
    case NumberLit(n) => (fs, Leaf(VKNum(n)))
    case StringLit(id) => var (fs1, i) := AddK(fs, Other(id)); (fs1, Leaf(VK(i)))
    case Local(r) => (fs, Leaf(VLocal(r)))
    case Global(n) => (fs, Leaf(VGlobal(n)))
    case Paren(a) => var (fs1, e) := Compile(fs, a); DischargeVars(fs1, e)
    case NotE(a) => var (fs1, e) := Compile(fs, a); CodeNot(fs1, e)
    case And(a, b) =>
      var (fs1, e1) := Compile(fs, a);
      var (fs2, e1') := GoIfTrue(fs1, e1);
      var (fs3, e2) := Compile(fs2, b);
      var (fs4, e2') := DischargeVars(fs3, e2);
      var (c, f) := Concat(fs4.code, e2'.f, e1'.f);
      (fs4.(code := c), e2'.(f := f))
    case Or(a, b) =>
      var (fs1, e1) := Compile(fs, a);
      var (fs2, e1') := GoIfFalse(fs1, e1);
      var (fs3, e2) := Compile(fs2, b);
      var (fs4, e2') := DischargeVars(fs3, e2);
      var (c, t) := Concat(fs4.code, e2'.t, e1'.t);
      (fs4.(code := c), e2'.(t := t))
    case CmpE(op, a, b) =>
      var (fs1, e1) := Compile(fs, a);
      var (fs2, e1') := Exp2RK(fs1, e1);
      var (fs3, e2) := Compile(fs2, b);
      CodeComp(fs3, op, e1', e2)
  }

  /** What the expression means (section 2.5 of the Lua 5.1 Reference Manual). */
  function Eval(e: Env, r: Regs, x: Expr): Value {
    match x
    case NilLit => Nil
    case TrueLit => Bool(true)
    case FalseLit => Bool(false)
    case NumberLit(n) => Number(n)
    case StringLit(id) => Other(id)
    case Local(i) => Get(r, i)
    case Global(n) => e.globals(n)
    case Paren(a) => Eval(e, r, a)
    case NotE(a) => Bool(!Truthy(Eval(e, r, a)))
    case And(a, b) => var v := Eval(e, r, a); if Truthy(v) then Eval(e, r, b) else v
    case Or(a, b) => var v := Eval(e, r, a); if Truthy(v) then v else Eval(e, r, b)
    case CmpE(op, a, b) => Bool(EvalCmp(e, op, Eval(e, r, a), Eval(e, r, b)))
  }

  function EvalCmp(e: Env, op: BinCmp, x: Value, y: Value): bool {
    match op
    case Eq => x == y
    case Ne => x != y
    case Lt => e.lt(x, y)
    case Le => e.le(x, y)
    case Gt => e.lt(y, x)
    case Ge => e.le(y, x)
  }
}
