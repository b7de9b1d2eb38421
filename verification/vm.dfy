/**
 The part of the virtual machine that compiled conditions and boolean expressions use
 (lvm.c): moves, loads, tests, comparisons and jumps. Code under construction may still hold
 jumps that wait for a target; running into one of those is an outcome of its own.
 */
module Vm {

  datatype Value = Nil | Bool(b: bool) | Number(n: int) | Other(id: int)

  /** `!l_isfalse`. */
  predicate Truthy(v: Value) {
    !v.Nil? && v != Bool(false)
  }

  type Regs = map<int, Value>

  function Get(r: Regs, i: int): Value {
    if i in r then r[i] else Nil
  }

  /** An operand that is a register or a constant (`RK`). */
  datatype Rk = Reg(r: int) | Kst(i: int)

  datatype CmpOp = EQ | LT | LE

  datatype Instr =
    | Move(a: int, b: int)
    | LoadK(a: int, bx: int)
    | LoadBool(a: int, v: bool, skip: bool)
    | LoadNil(a: int, b: int)
    | GetGlobal(a: int, bx: int)
    | Not(a: int, b: int)
    | Jmp(sbx: int)
    | Cmp(op: CmpOp, cond: bool, rb: Rk, rc: Rk)
    | Test(a: int, c: bool)
    | TestSet(a: int, b: int, c: bool)
  {
    /** `testTMode`: the instruction decides whether the jump after it is taken. */
    predicate IsTest() {
      Cmp? || Test? || TestSet?
    }
  }

  type Code = seq<Instr>

  /** What the code cannot change: its constants, the globals, and the order on values. */
  datatype Env = Env(k: seq<Value>, globals: int -> Value, lt: (Value, Value) -> bool, le: (Value, Value) -> bool)

  function Const(e: Env, i: int): Value {
    if 0 <= i < |e.k| then e.k[i] else Nil
  }

  function Operand(e: Env, r: Regs, x: Rk): Value {
    match x
    case Reg(i) => Get(r, i)
    case Kst(i) => Const(e, i)
  }

  function Compare(e: Env, op: CmpOp, x: Value, y: Value): bool {
    match op
    case EQ => x == y
    case LT => e.lt(x, y)
    case LE => e.le(x, y)
  }

  /** Does the test let the jump behind it be taken? */
  function Jumps(e: Env, i: Instr, r: Regs): bool
    requires i.IsTest()
  {
    match i
    case Cmp(op, cond, b, c) => Compare(e, op, Operand(e, r, b), Operand(e, r, c)) == cond
    case Test(a, c) => Truthy(Get(r, a)) == c
    case TestSet(_, b, c) => Truthy(Get(r, b)) == c
  }

  function SetNil(r: Regs, first: int, last: int): Regs
    decreases last - first
  {
    if first > last then r else SetNil(r, first, last - 1)[last := Nil]
  }

  lemma {:induction false} SetNilGet(r: Regs, first: int, last: int, i: int)
    ensures Get(SetNil(r, first, last), i) == if first <= i <= last then Nil else Get(r, i)
    decreases last - first
  {
    if first <= last {
      SetNilGet(r, first, last - 1, i);
    }
  }

  /** The instructions that only compute a value. */
  predicate IsPlain(i: Instr) {
    i.Move? || i.LoadK? || i.LoadNil? || i.GetGlobal? || i.Not? || (i.LoadBool? && !i.skip)
  }

  function Plain(e: Env, i: Instr, r: Regs): Regs
    requires IsPlain(i)
  {
    match i
    case Move(a, b) => r[a := Get(r, b)]
    case LoadK(a, bx) => r[a := Const(e, bx)]
    case LoadNil(a, b) => SetNil(r, a, b)
    case GetGlobal(a, bx) => r[a := e.globals(bx)]
    case Not(a, b) => r[a := Bool(!Truthy(Get(r, b)))]
    case LoadBool(a, v, _) => r[a := Bool(v)]
  }

  datatype Outcome =
    | Fall(r: Regs)            // ran off the end of the code
    | Exit(j: int, r: Regs)    // took the jump at `j`, which has no target yet
    | Stuck

  /** What a taken test leaves in the registers. */
  function Taken(i: Instr, r: Regs): Regs {
    if i.TestSet? then r[i.a := Get(r, i.b)] else r
  }

  /** `luaV_execute` on code whose jumps in `open` wait for a target. A TESTSET in front of an open
      jump has no register yet either, and sets none. */
  function Exec(c: Code, open: set<int>, e: Env, pc: int, r: Regs): Outcome
    decreases |c| - pc
  {
    if pc == |c| then Fall(r)
    else if pc < 0 || pc > |c| then Stuck
    else if IsPlain(c[pc]) then Exec(c, open, e, pc + 1, Plain(e, c[pc], r))
    else if c[pc].LoadBool? then Exec(c, open, e, pc + 2, r[c[pc].a := Bool(c[pc].v)])
    else if c[pc].Jmp? then
      if pc in open then Exit(pc, r) else Goto(c, open, e, pc, r)
    else if pc + 1 >= |c| || !c[pc + 1].Jmp? then Stuck
    else if !Jumps(e, c[pc], r) then Exec(c, open, e, pc + 2, r)
    else if pc + 1 in open then Exit(pc + 1, r)
    else Goto(c, open, e, pc + 1, Taken(c[pc], r))
  }

  /** `dojump` from the jump at `j`. Compiled expressions only jump forward. */
  function Goto(c: Code, open: set<int>, e: Env, j: int, r: Regs): Outcome
    requires 0 <= j < |c| && c[j].Jmp?
    decreases |c| - j, 0
  {
    if c[j].sbx < 0 then Stuck else Exec(c, open, e, j + 1 + c[j].sbx, r)
  }

  // ------------------------------------------------------------- well-formed code

  /** A place where execution may come: not between a test and its jump. */
  ghost predicate Entry(c: Code, pc: int) {
    0 <= pc <= |c| && (pc > 0 ==> !c[pc - 1].IsTest())
  }

  /** Tests are followed by jumps; every jump with a target stays inside the code, the end included. */
  ghost predicate WfAt(c: Code, open: set<int>, pc: int)
    requires 0 <= pc < |c|
  {
    && (c[pc].IsTest() ==> pc + 1 < |c| && c[pc + 1].Jmp?)
    && (c[pc].Jmp? && pc !in open ==> c[pc].sbx >= 0 && Entry(c, pc + 1 + c[pc].sbx))
    && (c[pc].LoadBool? && c[pc].skip ==> Entry(c, pc + 2))
  }

  ghost predicate Wf(c: Code, open: set<int>) {
    (forall j :: j in open ==> 0 <= j < |c| && c[j].Jmp?) &&
    forall pc :: 0 <= pc < |c| ==> WfAt(c, open, pc)
  }

  /** Code is never entered behind its end, so what is appended runs when it falls off it. */
  lemma {:induction false} ExecAppend(c: Code, d: Code, open: set<int>, open': set<int>, e: Env, pc: int, r: Regs)
    requires Wf(c, open) && Entry(c, pc)
    requires forall j :: 0 <= j < |c| ==> (j in open' <==> j in open)
    ensures Exec(c + d, open', e, pc, r) ==
              match Exec(c, open, e, pc, r)
              case Fall(r') => Exec(c + d, open', e, |c|, r')
              case o => o
    decreases |c| - pc
  {
    if pc < |c| {
      var i := c[pc];
      assert WfAt(c, open, pc) && (c + d)[pc] == i;
      if IsPlain(i) {
        ExecAppend(c, d, open, open', e, pc + 1, Plain(e, i, r));
      } else if i.LoadBool? {
        ExecAppend(c, d, open, open', e, pc + 2, r[i.a := Bool(i.v)]);
      } else if i.Jmp? {
        if pc !in open {
          ExecAppend(c, d, open, open', e, pc + 1 + i.sbx, r);
        }
      } else {
        assert WfAt(c, open, pc + 1) && (c + d)[pc + 1] == c[pc + 1];
        if !Jumps(e, i, r) {
          ExecAppend(c, d, open, open', e, pc + 2, r);
        } else if pc + 1 !in open {
          ExecAppend(c, d, open, open', e, pc + 2 + c[pc + 1].sbx, Taken(i, r));
        }
      }
    }
  }

  // ------------------------------------------------------------- giving jumps their targets

  /** `getjumpcontrol`: the test in front of the jump, or the jump itself. */
  function Control(c: Code, j: int): int
    requires 0 <= j < |c|
  {
    if j >= 1 && c[j - 1].IsTest() then j - 1 else j
  }

  predicate IsSet(c: Code, j: int)
    requires 0 <= j < |c|
  {
    c[Control(c, j)].TestSet?
  }

  const NO_REG := 255

  /** `patchtestreg` on the test in front of a jump. */
  function PatchedTest(i: Instr, reg: int): Instr {
    if !i.TestSet? then i
    else if reg != NO_REG && reg != i.b then TestSet(reg, i.b, i.c)
    else Test(i.b, i.c)
  }

  /** The registers at the target of a jump that has been patched for `reg`. */
  function AtTarget(c: Code, j: int, reg: int, r: Regs): Regs
    requires 0 <= j < |c|
  {
    if IsSet(c, j) && reg != NO_REG && reg != c[Control(c, j)].b then r[reg := Get(r, c[Control(c, j)].b)] else r
  }

  /** `c'` is `c` with the jumps of `l` patched: the ones behind a TESTSET go to `vt`, the others to `dt`. */
  ghost predicate Patched(c: Code, c': Code, l: set<int>, vt: int, reg: int, dt: int) {
    |c'| == |c| &&
    forall pc :: 0 <= pc < |c| ==> c'[pc] == PatchedInstr(c, l, vt, reg, dt, pc)
  }

  ghost function PatchedInstr(c: Code, l: set<int>, vt: int, reg: int, dt: int, pc: int): Instr
    requires 0 <= pc < |c|
  {
    if pc in l then Jmp((if IsSet(c, pc) then vt else dt) - (pc + 1))
    else if pc + 1 in l then PatchedTest(c[pc], reg)
    else c[pc]
  }

  lemma PatchedTestSame(e: Env, i: Instr, reg: int, r: Regs)
    requires i.IsTest()
    ensures PatchedTest(i, reg).IsTest() && Jumps(e, PatchedTest(i, reg), r) == Jumps(e, i, r)
  {
  }

  /** What the test at `pc` and its jump become. */
  lemma PatchedPair(c: Code, c': Code, open: set<int>, l: set<int>, vt: int, reg: int, dt: int, pc: int)
    requires Wf(c, open) && l <= open && 0 <= pc < |c| && c[pc].IsTest()
    requires Patched(c, c', l, vt, reg, dt)
    ensures |c'| == |c| && pc + 1 < |c| && c[pc + 1].Jmp? && Control(c, pc + 1) == pc
    ensures c'[pc] == (if pc + 1 in l then PatchedTest(c[pc], reg) else c[pc])
    ensures c'[pc + 1] == if pc + 1 in l then Jmp((if c[pc].TestSet? then vt else dt) - (pc + 2)) else c[pc + 1]
  {
    assert WfAt(c, open, pc);
    assert c'[pc] == PatchedInstr(c, l, vt, reg, dt, pc);
    assert c'[pc + 1] == PatchedInstr(c, l, vt, reg, dt, pc + 1);
  }

  lemma PatchedOther(c: Code, c': Code, open: set<int>, l: set<int>, vt: int, reg: int, dt: int, pc: int)
    requires Wf(c, open) && l <= open && 0 <= pc < |c| && !c[pc].IsTest() && Entry(c, pc)
    requires Patched(c, c', l, vt, reg, dt)
    ensures c'[pc] == if pc in l then Jmp(dt - (pc + 1)) else c[pc]
    ensures !IsSet(c, pc)
  {
    assert c'[pc] == PatchedInstr(c, l, vt, reg, dt, pc);
    assert WfAt(c, open, pc);
  }

  /** Patching the jumps of `l` to targets behind all of them turns the exits through `l` into
      arrivals at those targets and changes nothing else. */
  lemma {:induction false} ExecPatched(c: Code, c': Code, open: set<int>, l: set<int>, vt: int, reg: int, dt: int,
                                       e: Env, pc: int, r: Regs)
    requires Wf(c, open) && l <= open && Entry(c, pc)
    requires Patched(c, c', l, vt, reg, dt) && TargetsBehind(c, l, vt, dt)
    ensures Exec(c', open - l, e, pc, r) == Redirected(c, c', open, l, vt, reg, dt, e, Exec(c, open, e, pc, r))
    decreases |c| - pc, 1
  {
    if pc < |c| {
      hide Patched, PatchedTest, Jumps, Plain, Taken, Wf, TargetsBehind;
      var i := c[pc];
      WfHere(c, open, pc);
      if i.IsTest() {
        ExecPatchedTest(c, c', open, l, vt, reg, dt, e, pc, r);
      } else {
        PatchedOther(c, c', open, l, vt, reg, dt, pc);
        if i.Jmp? {
          if pc !in open {
            ExecPatched(c, c', open, l, vt, reg, dt, e, pc + 1 + i.sbx, r);
          }
        } else if IsPlain(i) {
          ExecPatched(c, c', open, l, vt, reg, dt, e, pc + 1, Plain(e, i, r));
        } else {
          ExecPatched(c, c', open, l, vt, reg, dt, e, pc + 2, r[i.a := Bool(i.v)]);
        }
      }
    }
  }

  lemma {:induction false} ExecPatchedTest(c: Code, c': Code, open: set<int>, l: set<int>, vt: int, reg: int, dt: int,
                                           e: Env, pc: int, r: Regs)
    requires Wf(c, open) && l <= open && Entry(c, pc) && pc < |c| && c[pc].IsTest()
    requires Patched(c, c', l, vt, reg, dt) && TargetsBehind(c, l, vt, dt)
    ensures Exec(c', open - l, e, pc, r) == Redirected(c, c', open, l, vt, reg, dt, e, Exec(c, open, e, pc, r))
    decreases |c| - pc, 0
  {
    hide Patched, PatchedTest, Jumps, Plain, Taken, Wf;
    var i := c[pc];
    PatchedPair(c, c', open, l, vt, reg, dt, pc);
    PatchedTestSame(e, i, reg, r);
    WfHere(c, open, pc + 1);
    if !Jumps(e, i, r) {
      ExecPatched(c, c', open, l, vt, reg, dt, e, pc + 2, r);
    } else if pc + 1 in l {
      assert IsSet(c, pc + 1) == i.TestSet?;
      PatchedTaken(c, c', open, l, vt, reg, dt, e, pc, r);
    } else if pc + 1 !in open {
      ExecPatched(c, c', open, l, vt, reg, dt, e, pc + 2 + c[pc + 1].sbx, Taken(i, r));
    }
  }

  ghost predicate TargetsBehind(c: Code, l: set<int>, vt: int, dt: int) {
    forall j :: j in l && 0 <= j < |c| ==> if IsSet(c, j) then j < vt else j < dt
  }

  /** An outcome of the old code as an outcome of the patched code. */
  ghost function Redirected(c: Code, c': Code, open: set<int>, l: set<int>, vt: int, reg: int, dt: int, e: Env, o: Outcome): Outcome {
    match o
    case Exit(j, r) =>
      if j in l && 0 <= j < |c| then Exec(c', open - l, e, if IsSet(c, j) then vt else dt, AtTarget(c, j, reg, r))
      else o
    case _ => o
  }

  lemma WfHere(c: Code, open: set<int>, pc: int)
    requires Wf(c, open) && 0 <= pc < |c|
    ensures WfAt(c, open, pc)
  {
  }

  lemma PatchedTaken(c: Code, c': Code, open: set<int>, l: set<int>, vt: int, reg: int, dt: int, e: Env, pc: int, r: Regs)
    requires Wf(c, open) && l <= open && 0 <= pc < |c| && c[pc].IsTest() && pc + 1 in l && Jumps(e, c[pc], r)
    requires Patched(c, c', l, vt, reg, dt)
    requires if c[pc].TestSet? then pc + 1 < vt else pc + 1 < dt
    ensures |c'| == |c| && pc + 1 < |c| && Control(c, pc + 1) == pc
    ensures Exec(c', open - l, e, pc, r) ==
              Exec(c', open - l, e, if c[pc].TestSet? then vt else dt, AtTarget(c, pc + 1, reg, r))
  {
    PatchedPair(c, c', open, l, vt, reg, dt, pc);
    PatchedTestSame(e, c[pc], reg, r);
  }
}
