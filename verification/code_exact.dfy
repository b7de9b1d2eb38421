/**
 Exactly which code the checker accepts (`luaG_checkcode` in ldebug.c), said of what the instructions
 mean and not of how they are checked: nothing unusable gets through, and nothing usable is refused.
 */
module CodeExact {
  import opened Bytecode
  import opened Chunks
  import opened CodeChecker
  import opened CodeSafety

  // ------------------------------------------------------------- what accepted code is

  /** The frame is not too large, the debug information fits, and the code ends by returning. */
  predicate Header(f: Proto)
    requires f.code != []
  {
    && f.maxstack <= 250
    && |f.upvalues| <= f.nups as int
    && (f.lineinfo == [] || |f.lineinfo| == |f.code|)
    && OpOf(f.code[|f.code| - 1]) == RETURN
  }

  /** A jump goes to a word of the code that is not behind one that looks like an extended SETLIST. */
  predicate JumpLands(f: Proto, pc: nat)
    requires pc < |f.code|
  {
    OpOf(f.code[pc]) in {JMP, FORLOOP, FORPREP} ==>
      var dest := pc + 1 + ArgSBx(f.code[pc]);
      0 <= dest < |f.code| && (dest == 0 || OpOf(f.code[dest - 1]) != SETLIST || ArgC(f.code[dest - 1]) != 0)
  }

  /** Behind a test comes a jump, and something behind that. */
  predicate TestHasJump(f: Proto, pc: nat)
    requires pc < |f.code|
  {
    OpOf(f.code[pc]) in {EQ, LT, LE, TEST, TESTSET, TFORLOOP} ==> pc + 2 < |f.code| && OpOf(f.code[pc + 1]) == JMP
  }

  /** Results without a number are for the next instruction, which takes all there are. */
  predicate ResultsGoOn(f: Proto, pc: nat)
    requires pc < |f.code|
  {
    var w := f.code[pc];
    (OpOf(w) in {CALL, TAILCALL} && ArgC(w) == 0) || (OpOf(w) == VARARG && ArgB(w) == 0) ==>
      pc + 1 < |f.code| && OpOf(f.code[pc + 1]) in {CALL, TAILCALL, RETURN, SETLIST} && ArgB(f.code[pc + 1]) == 0
  }

  /** Fields that the interpreter does not look at are 0; the unused field of a TEST has to be a register. */
  predicate UnusedFields(f: Proto, pc: nat)
    requires pc < |f.code|
  {
    var w := f.code[pc];
    match OpOf(w)
    case MOVE | LOADNIL | UNM | NOT | LEN | GETUPVAL | SETUPVAL | RETURN | VARARG => ArgC(w) == 0
    case TFORLOOP => ArgB(w) == 0
    case CLOSE => ArgB(w) == 0 && ArgC(w) == 0
    case TEST => Reg(f, ArgB(w))
    case _ => true
  }

  /** Three rules of single instructions: a LOADBOOL skips a word that is there, a generic `for` has a
      variable, and only a function with `...`, and without `arg`, asks for its extra arguments. */
  predicate OwnRules(f: Proto, pc: nat)
    requires pc < |f.code|
  {
    var w := f.code[pc];
    match OpOf(w)
    case LOADBOOL => ArgC(w) != 0 ==> pc + 2 < |f.code|
    case TFORLOOP => ArgC(w) != 0
    case VARARG => f.isVararg % 8 in {2, 3}
    case _ => true
  }

  predicate Sound(f: Proto, pc: nat)
    requires pc < |f.code|
  {
    Usable(f, pc) && JumpLands(f, pc) && TestHasJump(f, pc) && ResultsGoOn(f, pc) && UnusedFields(f, pc) && OwnRules(f, pc)
  }

  // ------------------------------------------------------------- it passes, and what passes is so

  lemma HeaderIs(f: Proto)
    requires f.code != []
    ensures Precheck(f) <==> Header(f)
  {
    hide OpOf;
  }

  lemma VarargIs(f: Proto)
    ensures IsVararg(f) && !NeedsArg(f) <==> f.isVararg % 8 in {2, 3}
  {
    var x := f.isVararg as int;
    assert x / 4 % 2 == x % 8 / 4 && x / 2 % 2 == x % 8 / 2 % 2;
  }

  lemma MovesPass(f: Proto, pc: nat)
    requires f.code != [] && Precheck(f) && pc < |f.code|
    requires OpOf(f.code[pc]) in {MOVE, LOADNIL, UNM, NOT, LEN}
    ensures Passes(f, pc) <==> Sound(f, pc)
  {
    hide OpOf, ArgA, ArgB, ArgC, ArgBx, OpenOp, CheckJump, CheckClosure, Extended;
    NotAtEnd(f, pc);
  }

  lemma LoadsPass(f: Proto, pc: nat)
    requires f.code != [] && Precheck(f) && pc < |f.code|
    requires OpOf(f.code[pc]) in {LOADK, LOADBOOL, NEWTABLE, CLOSE}
    ensures Passes(f, pc) <==> Sound(f, pc)
  {
    hide OpOf, ArgA, ArgB, ArgC, ArgBx, OpenOp, CheckJump, CheckClosure, Extended;
    NotAtEnd(f, pc);
  }

  lemma VariablesPass(f: Proto, pc: nat)
    requires f.code != [] && Precheck(f) && pc < |f.code|
    requires OpOf(f.code[pc]) in {GETUPVAL, SETUPVAL, GETGLOBAL, SETGLOBAL}
    ensures Passes(f, pc) <==> Sound(f, pc)
  {
    hide OpOf, ArgA, ArgB, ArgC, ArgBx, OpenOp, CheckJump, CheckClosure, Extended;
    NotAtEnd(f, pc);
  }

  lemma FieldsPass(f: Proto, pc: nat)
    requires f.code != [] && Precheck(f) && pc < |f.code|
    requires OpOf(f.code[pc]) in {GETTABLE, SELF, SETTABLE, CONCAT}
    ensures Passes(f, pc) <==> Sound(f, pc)
  {
    hide OpOf, ArgA, ArgB, ArgC, ArgBx, OpenOp, CheckJump, CheckClosure, Extended;
    NotAtEnd(f, pc);
  }

  lemma SumsPass(f: Proto, pc: nat)
    requires f.code != [] && Precheck(f) && pc < |f.code|
    requires OpOf(f.code[pc]) in {ADD, SUB, MUL}
    ensures Passes(f, pc) <==> Sound(f, pc)
  {
    hide OpOf, ArgA, ArgB, ArgC, ArgBx, OpenOp, CheckJump, CheckClosure, Extended;
    NotAtEnd(f, pc);
  }

  lemma QuotientsPass(f: Proto, pc: nat)
    requires f.code != [] && Precheck(f) && pc < |f.code|
    requires OpOf(f.code[pc]) in {DIV, MOD, POW}
    ensures Passes(f, pc) <==> Sound(f, pc)
  {
    hide OpOf, ArgA, ArgB, ArgC, ArgBx, OpenOp, CheckJump, CheckClosure, Extended;
    NotAtEnd(f, pc);
  }

  lemma JumpsPass(f: Proto, pc: nat)
    requires f.code != [] && Precheck(f) && pc < |f.code|
    requires OpOf(f.code[pc]) in {JMP, FORLOOP, FORPREP, INVALID}
    ensures Passes(f, pc) <==> Sound(f, pc)
  {
    hide OpOf, ArgA, ArgB, ArgC, ArgBx, OpenOp, CheckClosure;
    NotAtEnd(f, pc);
  }

  lemma ComparisonsPass(f: Proto, pc: nat)
    requires f.code != [] && Precheck(f) && pc < |f.code|
    requires OpOf(f.code[pc]) in {EQ, LT, LE}
    ensures Passes(f, pc) <==> Sound(f, pc)
  {
    hide OpOf, ArgA, ArgB, ArgC, ArgBx, OpenOp, CheckJump, CheckClosure, Extended;
    NotAtEnd(f, pc);
  }

  lemma TestsPass(f: Proto, pc: nat)
    requires f.code != [] && Precheck(f) && pc < |f.code|
    requires OpOf(f.code[pc]) in {TEST, TESTSET, TFORLOOP}
    ensures Passes(f, pc) <==> Sound(f, pc)
  {
    hide OpOf, ArgA, ArgB, ArgC, ArgBx, OpenOp, CheckJump, CheckClosure, Extended;
    NotAtEnd(f, pc);
  }

  lemma CallsPass(f: Proto, pc: nat)
    requires f.code != [] && Precheck(f) && pc < |f.code|
    requires OpOf(f.code[pc]) in {CALL, TAILCALL}
    ensures Passes(f, pc) <==> Sound(f, pc)
  {
    hide OpOf, ArgA, ArgB, ArgC, ArgBx, CheckJump, CheckClosure, Extended;
    NotAtEnd(f, pc);
  }

  lemma ReturnsPass(f: Proto, pc: nat)
    requires f.code != [] && Precheck(f) && pc < |f.code|
    requires OpOf(f.code[pc]) in {RETURN, SETLIST, VARARG}
    ensures Passes(f, pc) <==> Sound(f, pc)
  {
    hide OpOf, ArgA, ArgB, ArgC, ArgBx, IsVararg, NeedsArg, CheckJump, CheckClosure, Extended;
    VarargIs(f);
    if OpOf(f.code[pc]) != RETURN {
      NotAtEnd(f, pc);
    }
  }

  /** The checks of one instruction, apart from the words behind a CLOSURE. */
  lemma PassesIff(f: Proto, pc: nat)
    requires f.code != [] && Precheck(f) && pc < |f.code| && OpOf(f.code[pc]) != CLOSURE
    ensures Passes(f, pc) <==> Sound(f, pc)
  {
    hide OpOf, Passes, Sound, Precheck;
    match OpOf(f.code[pc]) {
      case MOVE | LOADNIL | UNM | NOT | LEN => MovesPass(f, pc);
      case LOADK | LOADBOOL | NEWTABLE | CLOSE => LoadsPass(f, pc);
      case GETUPVAL | SETUPVAL | GETGLOBAL | SETGLOBAL => VariablesPass(f, pc);
      case GETTABLE | SELF | SETTABLE | CONCAT => FieldsPass(f, pc);
      case ADD | SUB | MUL => SumsPass(f, pc);
      case DIV | MOD | POW => QuotientsPass(f, pc);
      case JMP | FORLOOP | FORPREP | INVALID => JumpsPass(f, pc);
      case EQ | LT | LE => ComparisonsPass(f, pc);
      case TEST | TESTSET | TFORLOOP => TestsPass(f, pc);
      case CALL | TAILCALL => CallsPass(f, pc);
      case RETURN | SETLIST | VARARG => ReturnsPass(f, pc);
    }
  }

  /** A CLOSURE whose pseudo-instructions are what they should be. */
  lemma ClosurePasses(f: Proto, pc: nat)
    requires f.code != [] && Precheck(f) && pc < |f.code| && OpOf(f.code[pc]) == CLOSURE
    ensures Sound(f, pc) ==> Passes(f, pc)
  {
    hide OpOf, OpenOp, CheckJump, Extended;
  }

  lemma ClosureSound(f: Proto, pc: nat)
    requires f.code != [] && Accepts(f) && Visited(f.code, pc) && OpOf(f.code[pc]) == CLOSURE
    ensures Sound(f, pc)
  {
    hide Accepts, OpOf, Usable, Visited;
    AcceptedIsUsable(f, pc);
  }

  /** The checker accepts a function if and only if its header is right and every instruction that it
      comes to is usable, leads where it may, and has no field that means nothing. */
  lemma AcceptedIff(f: Proto)
    requires f.code != []
    ensures Accepts(f) <==> Header(f) && forall pc: nat :: Visited(f.code, pc) ==> Sound(f, pc)
  {
    hide OpOf, Passes, Sound, Visited, Precheck, Header;
    HeaderIs(f);
    if Accepts(f) {
      forall pc: nat | Visited(f.code, pc)
        ensures Sound(f, pc)
      {
        if OpOf(f.code[pc]) == CLOSURE {
          ClosureSound(f, pc);
        } else {
          PassesIff(f, pc);
        }
      }
    }
    if Header(f) && forall pc: nat :: Visited(f.code, pc) ==> Sound(f, pc) {
      forall pc: nat | Visited(f.code, pc)
        ensures Passes(f, pc)
      {
        if OpOf(f.code[pc]) == CLOSURE {
          ClosurePasses(f, pc);
        } else {
          PassesIff(f, pc);
        }
      }
    }
  }

  // ------------------------------------------------------------- what counts as a change

  /** The instructions whose register A is not a target. */
  predicate OnlyReadsA(op: Op) {
    op in {SETGLOBAL, SETUPVAL, SETTABLE, JMP, EQ, LT, LE, TFORLOOP, RETURN, SETLIST, CLOSE, INVALID}
  }

  /** What the tracing of a register counts as a change of it: being the target, one of the targets of a
      LOADNIL or a SELF, and lying above the base of a call or of the results of a generic `for`. */
  lemma ChangesIff(w: int, reg: int)
    ensures Changes(w, reg) <==>
              || (reg == ArgA(w) && !OnlyReadsA(OpOf(w)))
              || (OpOf(w) == LOADNIL && ArgA(w) <= reg <= ArgB(w))
              || (OpOf(w) == SELF && reg == ArgA(w) + 1)
              || (OpOf(w) in {CALL, TAILCALL} && reg >= ArgA(w))
              || (OpOf(w) == TFORLOOP && reg >= ArgA(w) + 2)
  {
    hide OpOf, ArgA, ArgB;
  }
}
