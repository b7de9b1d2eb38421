/**
 What the checker is for: code that it accepts runs without leaving its code, its constants, its
 registers, its upvalues and its nested functions. The interpreter is the relation `Next`, with every
 branch that depends on values left open.
 */
module CodeSafety {
  import opened Bytecode
  import opened Chunks
  import opened CodeChecker

  // ------------------------------------------------------------- the interpreter

  /** The next instruction, and whether the stack top is where the last one left an open result list. */
  datatype Frame = Frame(pc: int, open: bool)

  predicate Reg(f: Proto, x: int) {
    0 <= x < f.maxstack as int
  }

  predicate Upvalue(f: Proto, x: int) {
    0 <= x < f.nups as int
  }

  predicate Rk(f: Proto, x: int) {
    if IsK(x) then 0 <= IndexK(x) < |f.k| else Reg(f, x)
  }

  predicate Kst(f: Proto, x: int) {
    0 <= x < |f.k|
  }

  /** The word behind the instruction: a jump or a count. */
  predicate NextWord(f: Proto, pc: nat) {
    pc + 1 < |f.code|
  }

  /** What a pseudo-instruction of a CLOSURE names: an upvalue of this function, or a register. */
  predicate Captured(f: Proto, w: int) {
    (OpOf(w) == GETUPVAL && Upvalue(f, ArgB(w))) || (OpOf(w) == MOVE && Reg(f, ArgB(w)))
  }

  /** Everything that `luaV_execute` looks at for the instruction at `pc` exists. The three values in front
      of the results of a generic `for` are copied to R(A+3) .. R(A+5), up to two slots above the frame. */
  predicate Usable(f: Proto, pc: nat)
    requires pc < |f.code|
  {
    var w := f.code[pc];
    var a, b, c := ArgA(w), ArgB(w), ArgC(w);
    Reg(f, a) &&
    match OpOf(w)
    case INVALID => false
    case MOVE | UNM | NOT | LEN | LOADNIL => Reg(f, b)
    case LOADK => Kst(f, ArgBx(w))
    case LOADBOOL | NEWTABLE | JMP | CLOSE => true
    case GETUPVAL | SETUPVAL => Upvalue(f, b)
    case GETGLOBAL | SETGLOBAL => Kst(f, ArgBx(w)) && f.k[ArgBx(w)].KStr?
    case GETTABLE => Reg(f, b) && Rk(f, c)
    case SELF => Reg(f, a + 1) && Reg(f, b) && Rk(f, c)
    case SETTABLE | ADD | SUB | MUL | DIV | MOD | POW => Rk(f, b) && Rk(f, c)
    case CONCAT => Reg(f, b) && Reg(f, c) && b < c
    case EQ | LT | LE => Rk(f, b) && Rk(f, c) && NextWord(f, pc)
    case TEST => NextWord(f, pc)
    case TESTSET => Reg(f, b) && NextWord(f, pc)
    case CALL | TAILCALL => (b != 0 ==> Reg(f, a + b - 1)) && (c > 1 ==> Reg(f, a + c - 2))
    case RETURN => b > 1 ==> Reg(f, a + b - 2)
    case FORLOOP | FORPREP => Reg(f, a + 3)
    case TFORLOOP => Reg(f, a + 2 + c) && a + 5 < f.maxstack as int + 2 && NextWord(f, pc)
    case SETLIST => (b > 0 ==> Reg(f, a + b)) && (c == 0 ==> NextWord(f, pc))
    case CLOSURE =>
      && ArgBx(w) < |f.p|
      && pc + f.p[ArgBx(w)].nups as nat < |f.code|
      && forall j :: pc < j <= pc + f.p[ArgBx(w)].nups as nat ==> Captured(f, f.code[j])
    case VARARG => b > 1 ==> Reg(f, a + b - 2)
  }

  /** One turn of the loop of `luaV_execute`, seen from this function. A call is over when the function
      runs on; a tail call runs on only if it was one of a C function. */
  ghost predicate Next(f: Proto, s: Frame, t: Frame)
    requires 0 <= s.pc < |f.code| && Usable(f, s.pc)
  {
    var w := f.code[s.pc];
    match OpOf(w)
    case LOADBOOL => t == Frame(if ArgC(w) != 0 then s.pc + 2 else s.pc + 1, s.open)
    case JMP | FORPREP => t == Frame(s.pc + 1 + ArgSBx(w), s.open)
    case FORLOOP => t == Frame(s.pc + 1, s.open) || t == Frame(s.pc + 1 + ArgSBx(w), s.open)
    case EQ | LT | LE | TEST | TESTSET =>
      t == Frame(s.pc + 2, s.open) || t == Frame(s.pc + 2 + ArgSBx(f.code[s.pc + 1]), s.open)
    case TFORLOOP => t == Frame(s.pc + 2, false) || t == Frame(s.pc + 2 + ArgSBx(f.code[s.pc + 1]), false)
    case CALL => t == Frame(s.pc + 1, ArgC(w) == 0)
    case TAILCALL => t == Frame(s.pc + 1, true)
    case RETURN => false
    case SETLIST => t == Frame(if ArgC(w) == 0 then s.pc + 2 else s.pc + 1, s.open && ArgB(w) != 0)
    case CLOSURE => t == Frame(s.pc + 1 + f.p[ArgBx(w)].nups as int, s.open)
    case VARARG => t == Frame(s.pc + 1, s.open || ArgB(w) == 0)
    case _ => t == Frame(s.pc + 1, s.open)
  }

  /** An open result list is what the instruction takes. */
  predicate Taken(f: Proto, s: Frame)
    requires 0 <= s.pc < |f.code|
  {
    s.open ==> OpenOp(f.code[s.pc])
  }

  // ------------------------------------------------------------- accepted code

  lemma AcceptedAt(f: Proto, pc: nat)
    requires f.code != [] && Accepts(f) && Visited(f.code, pc)
    ensures Precheck(f) && Passes(f, pc)
  {
  }

  /** Behind an instruction that is no extended SETLIST comes an instruction. */
  lemma VisitedNext(code: seq<int>, pc: nat)
    requires Visited(code, pc) && !Extended(code[pc]) && pc + 1 < |code|
    ensures Visited(code, pc + 1)
  {
  }

  lemma VisitedJump(f: Proto, dest: int)
    requires CheckJump(f, dest)
    ensures Visited(f.code, dest)
  {
  }

  /** The code does not end before its last instruction, which returns. */
  lemma NotAtEnd(f: Proto, pc: nat)
    requires f.code != [] && Precheck(f) && pc < |f.code| && OpOf(f.code[pc]) != RETURN
    ensures pc + 1 < |f.code|
  {
  }

  lemma {:induction false} ClosureVisited(f: Proto, pc: nat, nup: nat, j: nat)
    requires f.code != [] && Precheck(f) && Visited(f.code, pc) && OpOf(f.code[pc]) == CLOSURE && CheckClosure(f, pc, nup)
    requires pc <= j <= pc + nup + 1
    ensures j < |f.code| && Visited(f.code, j)
    decreases j
  {
    if j > pc {
      ClosureVisited(f, pc, nup, j - 1);
      NotAtEnd(f, j - 1);
      VisitedNext(f.code, j - 1);
    }
  }

  lemma CapturedExist(f: Proto, pc: nat, nup: nat, j: nat)
    requires f.code != [] && Accepts(f) && Visited(f.code, pc) && OpOf(f.code[pc]) == CLOSURE && CheckClosure(f, pc, nup)
    requires pc < j <= pc + nup
    ensures Captured(f, f.code[j])
  {
    AcceptedAt(f, pc);
    ClosureVisited(f, pc, nup, j);
    AcceptedAt(f, j);
    assert OpOf(f.code[j]) == GETUPVAL || OpOf(f.code[j]) == MOVE;
  }

  /** Accepted code refers only to what there is. */
  lemma AcceptedIsUsable(f: Proto, pc: nat)
    requires f.code != [] && Accepts(f) && Visited(f.code, pc)
    ensures Usable(f, pc)
  {
    hide Accepts, OpOf, Extended, OpenOp, CheckClosure, Captured;
    AcceptedAt(f, pc);
    if OpOf(f.code[pc]) == CLOSURE {
      ClosureIsUsable(f, pc);
    } else if OpOf(f.code[pc]) != RETURN {
      NotAtEnd(f, pc);
    }
  }

  lemma ClosureIsUsable(f: Proto, pc: nat)
    requires f.code != [] && Accepts(f) && Visited(f.code, pc) && OpOf(f.code[pc]) == CLOSURE
    ensures Usable(f, pc)
  {
    hide Accepts, OpOf, Extended, OpenOp, Captured;
    AcceptedAt(f, pc);
    var nup := f.p[ArgBx(f.code[pc])].nups as nat;
    forall j | pc < j <= pc + nup
      ensures Captured(f, f.code[j])
    {
      CapturedExist(f, pc, nup, j);
    }
  }

  // ------------------------------------------------------------- what the checker has found out

  lemma AtInstruction(f: Proto, pc: nat)
    requires f.code != [] && Accepts(f) && Visited(f.code, pc)
    ensures Precheck(f) && (OpOf(f.code[pc]) != RETURN ==> pc + 1 < |f.code|)
  {
    hide Visited, OpOf;
    AcceptedAt(f, pc);
  }

  lemma OpenChecked(f: Proto, pc: nat)
    requires f.code != [] && Accepts(f) && Visited(f.code, pc) && pc + 1 < |f.code|
    requires (OpOf(f.code[pc]) in {CALL, TAILCALL} && ArgC(f.code[pc]) == 0) || (OpOf(f.code[pc]) == VARARG && ArgB(f.code[pc]) == 0)
    ensures OpenOp(f.code[pc + 1])
  {
    hide Accepts, OpOf, OpenOp, Visited, CheckFormat, CheckTest;
    AcceptedAt(f, pc);
  }

  lemma JumpChecked(f: Proto, pc: nat)
    requires f.code != [] && Accepts(f) && Visited(f.code, pc) && OpOf(f.code[pc]) in {JMP, FORPREP, FORLOOP}
    ensures Visited(f.code, pc + 1 + ArgSBx(f.code[pc]))
  {
    hide Accepts, OpOf, Visited, CheckJump;
    AcceptedAt(f, pc);
    VisitedJump(f, pc + 1 + ArgSBx(f.code[pc]));
  }

  lemma TestChecked(f: Proto, pc: nat)
    requires f.code != [] && Accepts(f) && Visited(f.code, pc) && OpOf(f.code[pc]) in {EQ, LT, LE, TEST, TESTSET, TFORLOOP}
    ensures pc + 2 < |f.code| && OpOf(f.code[pc + 1]) == JMP && Visited(f.code, pc + 1)
  {
    hide Accepts, Visited, CheckOp, CheckFormat;
    AcceptedAt(f, pc);
    VisitedNext(f.code, pc);
  }

  // ------------------------------------------------------------- when runs stay at instructions

  /** What the checker lets pass although the interpreter then leaves the instructions: an extended
      SETLIST whose count is the last word, and a LOADBOOL that skips an extended SETLIST and so runs
      into its count. */
  predicate Slips(f: Proto, pc: nat)
    requires pc < |f.code|
  {
    var w := f.code[pc];
    match OpOf(w)
    case SETLIST => ArgC(w) == 0 && pc + 2 == |f.code|
    case LOADBOOL => ArgC(w) != 0 && pc + 1 < |f.code| && Extended(f.code[pc + 1])
    case _ => false
  }

  lemma SetListStep(f: Proto, s: Frame, t: Frame)
    requires f.code != [] && Accepts(f) && Visited(f.code, s.pc) && Usable(f, s.pc) && Next(f, s, t) && !Slips(f, s.pc)
    requires OpOf(f.code[s.pc]) == SETLIST
    ensures Visited(f.code, t.pc)
  {
    hide Accepts, OpOf, Usable, Visited;
    AtInstruction(f, s.pc);
    if Extended(f.code[s.pc]) {
      CountNotVisited(f.code, s.pc);
      VisitedBehind(f.code, t.pc);
    } else {
      VisitedNext(f.code, s.pc);
    }
  }

  lemma CountNotVisited(code: seq<int>, pc: nat)
    requires Visited(code, pc) && Extended(code[pc])
    ensures !Visited(code, pc + 1)
  {
  }

  lemma VisitedBehind(code: seq<int>, pc: nat)
    requires 0 < pc < |code| && !Visited(code, pc - 1)
    ensures Visited(code, pc)
  {
  }

  lemma LoadBoolStep(f: Proto, s: Frame, t: Frame)
    requires f.code != [] && Accepts(f) && Visited(f.code, s.pc) && Usable(f, s.pc) && Next(f, s, t) && !Slips(f, s.pc)
    requires OpOf(f.code[s.pc]) == LOADBOOL
    ensures Visited(f.code, t.pc)
  {
    hide Accepts, OpOf, CheckFormat, Usable, Visited;
    AtInstruction(f, s.pc);
    AcceptedAt(f, s.pc);
    VisitedNext(f.code, s.pc);
    if t.pc == s.pc + 2 {
      VisitedNext(f.code, s.pc + 1);
    }
  }

  lemma JumpStep(f: Proto, s: Frame, t: Frame)
    requires f.code != [] && Accepts(f) && Visited(f.code, s.pc) && Usable(f, s.pc) && Next(f, s, t)
    requires OpOf(f.code[s.pc]) in {JMP, FORPREP, FORLOOP}
    ensures Visited(f.code, t.pc)
  {
    hide Accepts, OpOf, Usable, Visited;
    AtInstruction(f, s.pc);
    JumpChecked(f, s.pc);
    VisitedNext(f.code, s.pc);
  }

  lemma TestStep(f: Proto, s: Frame, t: Frame)
    requires f.code != [] && Accepts(f) && Visited(f.code, s.pc) && Usable(f, s.pc) && Next(f, s, t)
    requires OpOf(f.code[s.pc]) in {EQ, LT, LE, TEST, TESTSET, TFORLOOP}
    ensures Visited(f.code, t.pc)
  {
    hide Accepts, OpOf, Usable, Visited;
    TestChecked(f, s.pc);
    JumpChecked(f, s.pc + 1);
    VisitedNext(f.code, s.pc + 1);
  }

  lemma ClosureStep(f: Proto, s: Frame, t: Frame)
    requires f.code != [] && Accepts(f) && Visited(f.code, s.pc) && Usable(f, s.pc) && Next(f, s, t)
    requires OpOf(f.code[s.pc]) == CLOSURE
    ensures Visited(f.code, t.pc)
  {
    hide Accepts, OpOf, CheckFormat, Visited;
    AcceptedAt(f, s.pc);
    ClosureVisited(f, s.pc, f.p[ArgBx(f.code[s.pc])].nups as nat, t.pc);
  }

  lemma PlainStep(f: Proto, s: Frame, t: Frame)
    requires f.code != [] && Accepts(f) && Visited(f.code, s.pc) && Usable(f, s.pc) && Next(f, s, t)
    requires OpOf(f.code[s.pc]) !in {SETLIST, LOADBOOL, JMP, FORPREP, FORLOOP, CLOSURE}
    requires OpOf(f.code[s.pc]) !in {EQ, LT, LE, TEST, TESTSET, TFORLOOP}
    ensures Visited(f.code, t.pc)
  {
    hide Accepts, OpOf, Usable, Visited;
    AtInstruction(f, s.pc);
    if OpOf(f.code[s.pc]) != RETURN {
      VisitedNext(f.code, s.pc);
    }
  }

  /** From an instruction that does not slip, a run goes to an instruction. */
  lemma StepStaysInside(f: Proto, s: Frame, t: Frame)
    requires f.code != [] && Accepts(f) && Visited(f.code, s.pc) && !Slips(f, s.pc)
    requires Usable(f, s.pc) && Next(f, s, t)
    ensures Visited(f.code, t.pc)
  {
    hide *;
    var op := OpOf(f.code[s.pc]);
    if op == SETLIST {
      SetListStep(f, s, t);
    } else if op == LOADBOOL {
      LoadBoolStep(f, s, t);
    } else if op in {JMP, FORPREP, FORLOOP} {
      JumpStep(f, s, t);
    } else if op in {EQ, LT, LE, TEST, TESTSET, TFORLOOP} {
      TestStep(f, s, t);
    } else if op == CLOSURE {
      ClosureStep(f, s, t);
    } else {
      PlainStep(f, s, t);
    }
  }

  /** An instruction that slips leads away from the instructions. */
  lemma SlipLeaves(f: Proto, pc: nat) returns (t: Frame)
    requires f.code != [] && Accepts(f) && Visited(f.code, pc) && Slips(f, pc)
    ensures Usable(f, pc) && Next(f, Frame(pc, false), t) && !Visited(f.code, t.pc)
  {
    hide Accepts, OpOf, Visited, Usable;
    AcceptedIsUsable(f, pc);
    t := Frame(pc + 2, false);
    if OpOf(f.code[pc]) == LOADBOOL {
      assert !Extended(f.code[pc]);
      VisitedNext(f.code, pc);
      CountNotVisited(f.code, pc + 1);
    }
  }

  /** Accepted code is closed under steps of the interpreter exactly if none of its instructions slips. */
  lemma StaysInsideIff(f: Proto)
    requires f.code != [] && Accepts(f)
    ensures forall pc: nat :: Visited(f.code, pc) ==> Usable(f, pc)
    ensures (forall s: Frame, t: Frame :: Visited(f.code, s.pc) && Next(f, s, t) ==> Visited(f.code, t.pc))
            <==> (forall pc: nat :: Visited(f.code, pc) ==> !Slips(f, pc))
  {
    hide *;
    forall pc: nat | Visited(f.code, pc)
      ensures Usable(f, pc)
    {
      AcceptedIsUsable(f, pc);
    }
    if pc: nat :| Visited(f.code, pc) && Slips(f, pc) {
      var t := SlipLeaves(f, pc);
      var s := Frame(pc, false);
      assert Next(f, s, t) && Visited(f.code, s.pc);
    } else {
      forall s: Frame, t: Frame | Visited(f.code, s.pc) && Next(f, s, t)
        ensures Visited(f.code, t.pc)
      {
        StepStaysInside(f, s, t);
      }
    }
  }

  // ------------------------------------------------------------- open result lists

  /** A tail call that does not ask for all results of a C function, in front of an instruction that
      does not take them. */
  predicate Drops(f: Proto, pc: nat)
    requires pc < |f.code|
  {
    OpOf(f.code[pc]) == TAILCALL && ArgC(f.code[pc]) != 0 && pc + 1 < |f.code| && !OpenOp(f.code[pc + 1])
  }

  /** A result list that is left open is taken by the very next instruction. */
  lemma StepTakesResults(f: Proto, s: Frame, t: Frame)
    requires f.code != [] && Accepts(f) && Visited(f.code, s.pc) && Taken(f, s) && !Drops(f, s.pc)
    requires Usable(f, s.pc) && Next(f, s, t) && Visited(f.code, t.pc)
    ensures Taken(f, t)
  {
    hide Accepts, OpOf, Usable, Visited, OpenOp;
    var w := f.code[s.pc];
    OpenOnlyAtOpenOps(w);
    AtInstruction(f, s.pc);
    if (OpOf(w) in {CALL, TAILCALL} && ArgC(w) == 0) || (OpOf(w) == VARARG && ArgB(w) == 0) {
      OpenChecked(f, s.pc);
    }
  }

  lemma OpenOnlyAtOpenOps(w: int)
    ensures OpenOp(w) <==> OpOf(w) in {CALL, TAILCALL, RETURN, SETLIST} && ArgB(w) == 0
  {
  }

  lemma DropLosesResults(f: Proto, pc: nat)
    requires f.code != [] && Accepts(f) && Visited(f.code, pc) && Drops(f, pc)
    ensures Usable(f, pc) && Next(f, Frame(pc, false), Frame(pc + 1, true))
    ensures Visited(f.code, pc + 1) && Taken(f, Frame(pc, false)) && !Taken(f, Frame(pc + 1, true))
  {
    hide Accepts, OpOf, Visited, Usable, OpenOp;
    AcceptedIsUsable(f, pc);
    VisitedNext(f.code, pc);
  }

  /** Exactly without such tail calls, an open result list is always taken by the next instruction. */
  lemma TakesResultsIff(f: Proto)
    requires f.code != [] && Accepts(f)
    ensures forall pc: nat :: Visited(f.code, pc) ==> Usable(f, pc)
    ensures (forall s: Frame, t: Frame :: Visited(f.code, s.pc) && Taken(f, s) && Next(f, s, t) && Visited(f.code, t.pc) ==> Taken(f, t))
            <==> (forall pc: nat :: Visited(f.code, pc) ==> !Drops(f, pc))
  {
    hide *;
    StaysInsideIff(f);
    if pc: nat :| Visited(f.code, pc) && Drops(f, pc) {
      DropLosesResults(f, pc);
      var s, t := Frame(pc, false), Frame(pc + 1, true);
      assert Visited(f.code, s.pc) && Taken(f, s) && Next(f, s, t) && Visited(f.code, t.pc);
    } else {
      forall s: Frame, t: Frame | Visited(f.code, s.pc) && Taken(f, s) && Next(f, s, t) && Visited(f.code, t.pc)
        ensures Taken(f, t)
      {
        StepTakesResults(f, s, t);
      }
    }
  }
}
