/**
 The bytecode checker (ldebug.c) as `luaG_checkcode` calls it, and what the interpreter needs of the
 code it runs (lvm.c).
 */
module CodeChecker {
  import opened Bytecode
  import opened Chunks

  const MAXSTACK := 250
  const NO_REG := 255

  // ------------------------------------------------------------- the checks

  predicate NeedsArg(f: Proto) {
    (f.isVararg as int) / 4 % 2 == 1
  }

  predicate IsVararg(f: Proto) {
    (f.isVararg as int) / 2 % 2 == 1
  }

  predicate CheckReg(f: Proto, reg: int) {
    reg < f.maxstack as int
  }

  /** `precheck` */
  predicate Precheck(f: Proto)
    requires f.code != []
  {
    && f.maxstack as int <= MAXSTACK
    && |f.upvalues| <= f.nups as int
    && (|f.lineinfo| == |f.code| || f.lineinfo == [])
    && OpOf(f.code[|f.code| - 1]) == RETURN
  }

  predicate CheckArgMode(f: Proto, r: int, mode: ArgMode) {
    match mode
    case ArgN => r == 0
    case ArgU => true
    case ArgR => CheckReg(f, r)
    case ArgK => if IsK(r) then IndexK(r) < |f.k| else CheckReg(f, r)
  }

  /** A jump goes to an instruction of the code, and not to the count of a SETLIST. */
  predicate CheckJump(f: Proto, dest: int) {
    0 <= dest < |f.code| && (dest > 0 ==> !Extended(f.code[dest - 1]))
  }

  predicate CheckFormat(f: Proto, pc: nat)
    requires pc < |f.code|
  {
    var w := f.code[pc];
    var m := Modes(OpOf(w));
    match m.format
    case IABC => CheckArgMode(f, ArgB(w), m.b) && CheckArgMode(f, ArgC(w), m.c)
    case IABx => m.b == ArgK ==> ArgBx(w) < |f.k|
    case IAsBx => m.b == ArgR ==> CheckJump(f, pc + 1 + ArgSBx(w))
  }

  predicate CheckTest(f: Proto, pc: nat)
    requires pc < |f.code|
  {
    Modes(OpOf(f.code[pc])).test ==> pc + 2 < |f.code| && OpOf(f.code[pc + 1]) == JMP
  }

  /** The pseudo-instructions behind a CLOSURE say where its upvalues are. */
  predicate CheckClosure(f: Proto, pc: nat, nup: nat)
    requires pc < |f.code|
  {
    pc + nup < |f.code| && forall j :: pc < j <= pc + nup ==> OpOf(f.code[j]) == GETUPVAL || OpOf(f.code[j]) == MOVE
  }

  predicate CheckOp(f: Proto, pc: nat)
    requires f.code != [] && Precheck(f) && pc < |f.code| && CheckFormat(f, pc)
  {
    var w := f.code[pc];
    var a, b, c := ArgA(w), ArgB(w), ArgC(w);
    match OpOf(w)
    case INVALID => false
    case LOADBOOL => c == 0 || pc + 2 < |f.code|
    case GETUPVAL | SETUPVAL => b < f.nups as int
    case GETGLOBAL | SETGLOBAL => f.k[ArgBx(w)].KStr?
    case SELF => CheckReg(f, a + 1)
    case CONCAT => b < c
    case TFORLOOP => c >= 1 && CheckReg(f, a + 2 + c)
    case FORLOOP | FORPREP => CheckReg(f, a + 3)
    case CALL | TAILCALL =>
      && (b != 0 ==> CheckReg(f, a + b - 1))
      && (if c == 0 then OpenOp(f.code[pc + 1]) else c != 1 ==> CheckReg(f, a + c - 2))
    case RETURN => b > 1 ==> CheckReg(f, a + b - 2)
    case SETLIST => b > 0 ==> CheckReg(f, a + b)
    case CLOSURE => ArgBx(w) < |f.p| && CheckClosure(f, pc, f.p[ArgBx(w)].nups as nat)
    case VARARG => IsVararg(f) && !NeedsArg(f) && (b == 0 ==> OpenOp(f.code[pc + 1])) && CheckReg(f, a + b - 2)
    case _ => true
  }

  /** One turn of the loop of `symbexec`. */
  predicate Passes(f: Proto, pc: nat)
    requires f.code != [] && Precheck(f) && pc < |f.code|
  {
    CheckReg(f, ArgA(f.code[pc])) && CheckFormat(f, pc) && CheckTest(f, pc) && CheckOp(f, pc)
  }

  /** The positions that the checker looks at: all but the counts of extended SETLISTs. */
  predicate Visited(code: seq<int>, pc: int): (r: bool)
    ensures r ==> 0 <= pc < |code|
    decreases pc
  {
    0 <= pc < |code| && (pc == 0 || !(Visited(code, pc - 1) && Extended(code[pc - 1])))
  }

  ghost predicate Accepts(f: Proto)
    requires f.code != []
  {
    Precheck(f) && forall pc: nat :: Visited(f.code, pc) ==> Passes(f, pc)
  }

  /** The effect on `last`: does the instruction change register `reg`? */
  predicate Changes(w: int, reg: int) {
    var a, b := ArgA(w), ArgB(w);
    || (Modes(OpOf(w)).setsA && a == reg)
    || match OpOf(w)
       case LOADNIL => a <= reg <= b
       case SELF => reg == a + 1
       case TFORLOOP => reg >= a + 2
       case CALL | TAILCALL => reg >= a
       case _ => false
  }

  lemma OnlyCallsChangeNoReg(f: Proto, pc: nat)
    requires f.code != [] && Precheck(f) && pc < |f.code| && Passes(f, pc) && Changes(f.code[pc], NO_REG)
    ensures f.code[pc] != 0
  {
  }

  // ------------------------------------------------------------- tracing

  /** Where `symbexec` goes from `pc`. Tracing a register it follows jumps forward, as far as they do
      not skip `lastpc`, and leaves out the pseudo-instructions of a CLOSURE. */
  function StepTo(f: Proto, lastpc: int, reg: int, pc: nat): (next: nat)
    requires pc < |f.code|
    ensures next > pc
  {
    var w := f.code[pc];
    var dest := pc + 1 + ArgSBx(w);
    match OpOf(w)
    case JMP | FORLOOP | FORPREP => if reg != NO_REG && pc < dest <= lastpc then dest else pc + 1
    case SETLIST => if ArgC(w) == 0 then pc + 2 else pc + 1
    case CLOSURE => if reg != NO_REG && ArgBx(w) < |f.p| then pc + 1 + f.p[ArgBx(w)].nups as nat else pc + 1
    case _ => pc + 1
  }

  /** The positions on the way from the first instruction. */
  ghost predicate Reached(f: Proto, lastpc: int, reg: int, pc: nat)
    decreases pc
  {
    pc == 0 || exists q: nat :: q < pc && q < lastpc && q < |f.code| && Reached(f, lastpc, reg, q) && StepTo(f, lastpc, reg, q) == pc
  }

  /** Every instruction on the way passes its checks. */
  ghost predicate TracePasses(f: Proto, lastpc: int, reg: int)
    requires f.code != [] && lastpc <= |f.code|
  {
    Precheck(f) && forall pc: nat :: pc < lastpc && Reached(f, lastpc, reg, pc) ==> Passes(f, pc)
  }

  ghost predicate ChangesOnWay(f: Proto, lastpc: int, reg: int, pc: nat) {
    pc < lastpc && pc < |f.code| && Reached(f, lastpc, reg, pc) && Changes(f.code[pc], reg)
  }

  /** The last instruction on the way that changes the register, or the final RETURN if there is none. */
  ghost predicate IsLastChange(f: Proto, lastpc: int, reg: int, last: nat) {
    && (ChangesOnWay(f, lastpc, reg, last) || (last == |f.code| - 1 && forall q: nat :: !ChangesOnWay(f, lastpc, reg, q)))
    && forall q: nat :: q > last ==> !ChangesOnWay(f, lastpc, reg, q)
  }

  /** The way does not come back: once it is at `pc`, what lies before is behind it. */
  ghost predicate AllBehind(f: Proto, lastpc: int, reg: int, pc: nat) {
    forall q: nat :: q < pc && q < lastpc && q < |f.code| && Reached(f, lastpc, reg, q) ==> StepTo(f, lastpc, reg, q) <= pc
  }

  lemma StepBehind(f: Proto, lastpc: int, reg: int, pc: nat)
    requires pc < |f.code| && pc < lastpc && Reached(f, lastpc, reg, pc) && AllBehind(f, lastpc, reg, pc)
    ensures var next := StepTo(f, lastpc, reg, pc);
            && Reached(f, lastpc, reg, next) && AllBehind(f, lastpc, reg, next)
            && forall q: nat :: pc < q < next ==> !Reached(f, lastpc, reg, q)
  {
    hide StepTo, Reached;
    var next := StepTo(f, lastpc, reg, pc);
    NextReached(f, lastpc, reg, pc);
    forall q: nat | pc < q < next
      ensures !Reached(f, lastpc, reg, q)
    {
      NotBetween(f, lastpc, reg, pc, q);
    }
    forall q: nat | q < next && q < lastpc && q < |f.code| && Reached(f, lastpc, reg, q)
      ensures StepTo(f, lastpc, reg, q) <= next
    {
      assert q <= pc;
    }
  }

  lemma NextReached(f: Proto, lastpc: int, reg: int, pc: nat)
    requires pc < |f.code| && pc < lastpc && Reached(f, lastpc, reg, pc)
    ensures Reached(f, lastpc, reg, StepTo(f, lastpc, reg, pc))
  {
    hide StepTo;
  }

  lemma Before(f: Proto, lastpc: int, reg: int, q: nat) returns (p: nat)
    requires q > 0 && Reached(f, lastpc, reg, q)
    ensures p < q && p < lastpc && p < |f.code| && Reached(f, lastpc, reg, p) && StepTo(f, lastpc, reg, p) == q
  {
    hide StepTo;
    p :| p < q && p < lastpc && p < |f.code| && Reached(f, lastpc, reg, p) && StepTo(f, lastpc, reg, p) == q;
  }

  lemma {:induction false} NotBetween(f: Proto, lastpc: int, reg: int, pc: nat, q: nat)
    requires pc < |f.code| && pc < lastpc && AllBehind(f, lastpc, reg, pc) && pc < q < StepTo(f, lastpc, reg, pc)
    ensures !Reached(f, lastpc, reg, q)
    decreases q
  {
    hide StepTo, Reached;
    if Reached(f, lastpc, reg, q) {
      var p := Before(f, lastpc, reg, q);
      if p > pc {
        NotBetween(f, lastpc, reg, pc, p);
      }
    }
  }

  /** `symbexec`: the last instruction before `lastpc` that changed the register, or 0 if a check has
      failed on the way. */
  method SymbExec(f: Proto, lastpc: nat, reg: int) returns (i: int)
    requires f.code != [] && lastpc <= |f.code|
    ensures TracePasses(f, lastpc, reg) ==> exists last: nat :: last < |f.code| && IsLastChange(f, lastpc, reg, last) && i == f.code[last]
    ensures !TracePasses(f, lastpc, reg) ==> i == 0
  {
    hide Passes, Changes, OpOf, Precheck, StepTo, Reached;
    var last: nat := |f.code| - 1;
    if !Precheck(f) {
      return 0;
    }
    var pc: nat := 0;
    StartReached(f, lastpc, reg);
    while pc < lastpc
      invariant last < |f.code| && Reached(f, lastpc, reg, pc) && AllBehind(f, lastpc, reg, pc)
      invariant forall q: nat :: q < pc && q < lastpc && Reached(f, lastpc, reg, q) ==> Passes(f, q)
      invariant (last < pc && ChangesOnWay(f, lastpc, reg, last)) ||
                (last == |f.code| - 1 && forall q: nat :: q < pc ==> !ChangesOnWay(f, lastpc, reg, q))
      invariant forall q: nat :: last < q < pc ==> !ChangesOnWay(f, lastpc, reg, q)
      decreases lastpc - pc
    {
      if !Passes(f, pc) {
        return 0;
      }
      StepBehind(f, lastpc, reg, pc);
      if Changes(f.code[pc], reg) {
        last := pc;
      }
      var w, next := f.code[pc], pc + 1;
      match OpOf(w) {
        case JMP | FORLOOP | FORPREP =>
          if reg != NO_REG && pc < pc + 1 + ArgSBx(w) <= lastpc {
            next := next + ArgSBx(w);
          }
        case SETLIST =>
          if ArgC(w) == 0 {
            next := next + 1;
          }
        case CLOSURE =>
          ClosureInside(f, pc);
          if reg != NO_REG {
            next := next + f.p[ArgBx(w)].nups as nat;
          }
        case _ =>
      }
      StepIs(f, lastpc, reg, pc, next);
      pc := next;
    }
    i := f.code[last];
  }

  lemma ClosureInside(f: Proto, pc: nat)
    requires f.code != [] && Precheck(f) && pc < |f.code| && Passes(f, pc) && OpOf(f.code[pc]) == CLOSURE
    ensures ArgBx(f.code[pc]) < |f.p|
  {
    hide OpOf, Modes;
  }

  lemma StepIs(f: Proto, lastpc: int, reg: int, pc: nat, next: int)
    requires pc < |f.code| && (OpOf(f.code[pc]) == CLOSURE ==> ArgBx(f.code[pc]) < |f.p|)
    requires var w := f.code[pc];
             match OpOf(w)
             case JMP | FORLOOP | FORPREP =>
               next == if reg != NO_REG && pc < pc + 1 + ArgSBx(w) <= lastpc then pc + 1 + ArgSBx(w) else pc + 1
             case SETLIST => next == if ArgC(w) == 0 then pc + 2 else pc + 1
             case CLOSURE => next == pc + 1 + if reg != NO_REG then f.p[ArgBx(w)].nups as nat else 0
             case _ => next == pc + 1
    ensures next == StepTo(f, lastpc, reg, pc)
  {
    hide OpOf;
  }

  lemma StartReached(f: Proto, lastpc: int, reg: int)
    ensures Reached(f, lastpc, reg, 0) && AllBehind(f, lastpc, reg, 0)
  {
  }

  // ------------------------------------------------------------- the whole code

  /** Without a register to trace, the way leads through everything but the counts of SETLISTs. */
  lemma {:induction false} ReachedIsVisited(f: Proto, pc: nat)
    requires pc < |f.code|
    ensures Reached(f, |f.code|, NO_REG, pc) <==> Visited(f.code, pc)
    decreases pc
  {
    hide OpOf, ArgC, Reached;
    if pc > 0 {
      ReachedIsVisited(f, pc - 1);
      ReachedStep(f, pc);
      if pc > 1 {
        ReachedIsVisited(f, pc - 2);
      }
    } else {
      StartReached(f, |f.code|, NO_REG);
    }
  }

  lemma ReachedStep(f: Proto, pc: nat)
    requires 0 < pc < |f.code|
    ensures Reached(f, |f.code|, NO_REG, pc) <==>
              (Reached(f, |f.code|, NO_REG, pc - 1) && !Extended(f.code[pc - 1])) ||
              (pc > 1 && Reached(f, |f.code|, NO_REG, pc - 2) && Extended(f.code[pc - 2]))
  {
    hide OpOf, ArgC;
    assert StepTo(f, |f.code|, NO_REG, pc - 1) == if Extended(f.code[pc - 1]) then pc + 1 else pc;
    if pc > 1 {
      assert StepTo(f, |f.code|, NO_REG, pc - 2) == if Extended(f.code[pc - 2]) then pc else pc - 1;
    }
    forall q: nat | q < pc
      ensures StepTo(f, |f.code|, NO_REG, q) <= q + 2
    {
    }
  }

  lemma TraceOfAll(f: Proto)
    requires f.code != []
    ensures TracePasses(f, |f.code|, NO_REG) <==> Accepts(f)
  {
    hide Passes, Precheck, Reached;
    forall pc: nat | pc < |f.code|
      ensures Reached(f, |f.code|, NO_REG, pc) <==> Visited(f.code, pc)
    {
      ReachedIsVisited(f, pc);
    }
  }

  /** `luaG_checkcode`. The last instruction that changed `NO_REG` is never the word 0. */
  method CheckWhole(f: Proto) returns (ok: bool)
    requires f.code != []
    ensures ok <==> Accepts(f)
  {
    hide Passes, Changes, OpOf, Precheck, Reached;
    var i := SymbExec(f, |f.code|, NO_REG);
    TraceOfAll(f);
    if Accepts(f) {
      var last: nat :| last < |f.code| && IsLastChange(f, |f.code|, NO_REG, last) && i == f.code[last];
      EndIsReturn(f);
      if ChangesOnWay(f, |f.code|, NO_REG, last) {
        OnlyCallsChangeNoReg(f, last);
      }
    }
    ok := i != 0;
  }

  lemma EndIsReturn(f: Proto)
    requires f.code != [] && Precheck(f)
    ensures f.code[|f.code| - 1] != 0 && !Extended(f.code[|f.code| - 1])
  {
  }
}