/**
 The loop of `luaV_execute` (lvm.c) as it is written, with the values left out: which words, constants,
 registers and upvalues an instruction looks at, and where the program counter goes.
 */
module CodeInterpreter {
  import opened Bytecode
  import opened Chunks
  import opened CodeSafety

  /** Where `Next` goes, by the outcome of the test of the instruction. */
  function Successor(f: Proto, s: Frame, truth: bool): Frame
    requires 0 <= s.pc < |f.code| && Usable(f, s.pc)
  {
    var w, pc := f.code[s.pc], s.pc + 1;
    match OpOf(w)
    case JMP | FORPREP => Frame(pc + ArgSBx(w), s.open)
    case FORLOOP => Frame(if truth then pc + ArgSBx(w) else pc, s.open)
    case EQ | LT | LE | TEST | TESTSET => Frame(if truth then pc + 1 + ArgSBx(f.code[pc]) else pc + 1, s.open)
    case TFORLOOP => Frame(if truth then pc + 1 + ArgSBx(f.code[pc]) else pc + 1, false)
    case LOADBOOL => Frame(if ArgC(w) == 0 then pc else pc + 1, s.open)
    case CALL => Frame(pc, ArgC(w) == 0)
    case TAILCALL => Frame(pc, true)
    case SETLIST => Frame(if ArgC(w) == 0 then pc + 1 else pc, s.open && ArgB(w) != 0)
    case CLOSURE => Frame(pc + f.p[ArgBx(w)].nups as int, s.open)
    case VARARG => Frame(pc, s.open || ArgB(w) == 0)
    case _ => Frame(pc, s.open)
  }

  /** `Next` is what the two outcomes allow, and nothing else. */
  lemma NextIff(f: Proto, s: Frame, t: Frame)
    requires 0 <= s.pc < |f.code| && Usable(f, s.pc)
    ensures Next(f, s, t) <==> OpOf(f.code[s.pc]) != RETURN && (t == Successor(f, s, true) || t == Successor(f, s, false))
  {
    hide OpOf, Usable, ArgA, ArgB, ArgC, ArgBx;
  }

  class Interpreter {
    const f: Proto
    var pc: int
    var open: bool   // the stack top is where the last instruction left it, and not at the end of the frame

    constructor (f: Proto)
      ensures this.f == f && pc == 0 && !open
    {
      this.f, pc, open := f, 0, false;
    }

    ghost function S(): Frame
      reads this
    {
      Frame(pc, open)
    }

    // ----------------------------------------------------------- what an instruction looks at

    /** `base + i` */
    method R(i: int)
      requires Reg(f, i)
    {
    }

    /** `RK(x)` */
    method RK(x: int) returns (c: Const)
      requires Rk(f, x)
      ensures IsK(x) ==> c == f.k[IndexK(x)]
    {
      c := KNil;
      if IsK(x) {
        c := f.k[IndexK(x)];
      } else {
        R(x);
      }
    }

    method UpVal(i: int)
      requires Upvalue(f, i)
    {
    }

    /** `dojump` */
    method DoJump(i: int)
      modifies `pc
      ensures pc == old(pc) + i
    {
      pc := pc + i;
    }

    /** The jump behind a test is taken if the test says so, and passed over otherwise. */
    method Branch(truth: bool)
      requires 0 <= pc < |f.code|
      modifies `pc
      ensures pc == if truth then old(pc) + ArgSBx(f.code[old(pc)]) + 1 else old(pc) + 1
    {
      if truth {
        DoJump(ArgSBx(f.code[pc]));
      }
      pc := pc + 1;
    }

    /** The words behind a CLOSURE. */
    method Captures(nup: nat)
      requires 0 <= pc && pc + nup <= |f.code| && forall j :: pc <= j < pc + nup ==> Captured(f, f.code[j])
      modifies `pc
      ensures pc == old(pc) + nup
    {
      var j := 0;
      while j < nup
        invariant 0 <= j <= nup && pc == old(pc) + j
      {
        if OpOf(f.code[pc]) == GETUPVAL {
          UpVal(ArgB(f.code[pc]));
        } else {
          R(ArgB(f.code[pc]));
        }
        j, pc := j + 1, pc + 1;
      }
    }

    /** The instructions that compute a value and go on with the next word. */
    method Compute(w: int)
      requires 0 < pc <= |f.code| && w == f.code[pc - 1] && Usable(f, pc - 1)
      requires OpOf(w) in {MOVE, LOADK, LOADNIL, GETUPVAL, GETGLOBAL, GETTABLE, SETGLOBAL, SETUPVAL, SETTABLE, NEWTABLE,
                           SELF, ADD, SUB, MUL, DIV, MOD, POW, UNM, NOT, LEN, CONCAT, CLOSE}
      modifies this
      ensures S() == Successor(f, Frame(old(pc) - 1, old(open)), true)
    {
      hide OpOf, ArgA, ArgB, ArgC, ArgBx;
      var a, b, c := ArgA(w), ArgB(w), ArgC(w);
      R(a);
      match OpOf(w) {
        case MOVE | UNM | NOT | LEN | LOADNIL =>
          R(b);
        case LOADK =>
          var k := f.k[ArgBx(w)];
        case GETUPVAL | SETUPVAL =>
          UpVal(b);
        case GETGLOBAL | SETGLOBAL =>
          var name := f.k[ArgBx(w)].s;
        case GETTABLE =>
          R(b);
          var key := RK(c);
        case SELF =>
          R(a + 1);
          R(b);
          var key := RK(c);
        case SETTABLE | ADD | SUB | MUL | DIV | MOD | POW =>
          var x := RK(b);
          var y := RK(c);
        case CONCAT =>
          R(b);
          R(c);
        case _ =>
      }
    }

    /** The instructions that move the program counter themselves. */
    method Move(w: int, truth: bool)
      requires 0 < pc <= |f.code| && w == f.code[pc - 1] && Usable(f, pc - 1)
      requires OpOf(w) in {LOADBOOL, JMP, FORLOOP, FORPREP, CLOSURE}
      modifies this
      ensures S() == Successor(f, Frame(old(pc) - 1, old(open)), truth)
    {
      hide OpOf, ArgA, ArgB, ArgC, ArgBx;
      var a, b, c := ArgA(w), ArgB(w), ArgC(w);
      R(a);
      match OpOf(w) {
        case LOADBOOL =>
          if c != 0 {
            pc := pc + 1;
          }
        case JMP =>
          DoJump(ArgSBx(w));
        case FORLOOP =>
          R(a + 3);
          if truth {
            DoJump(ArgSBx(w));
          }
        case FORPREP =>
          R(a + 2);
          DoJump(ArgSBx(w));
        case CLOSURE =>
          var nup := f.p[ArgBx(w)].nups as nat;
          Captures(nup);
        case _ =>
      }
    }

    /** The tests, with the jump behind them. */
    method Test(w: int, truth: bool)
      requires 0 < pc <= |f.code| && w == f.code[pc - 1] && Usable(f, pc - 1)
      requires OpOf(w) in {EQ, LT, LE, TEST, TESTSET, TFORLOOP}
      modifies this
      ensures S() == Successor(f, Frame(old(pc) - 1, old(open)), truth)
    {
      hide OpOf, ArgA, ArgB, ArgC, ArgBx;
      var a, b, c := ArgA(w), ArgB(w), ArgC(w);
      R(a);
      match OpOf(w) {
        case EQ | LT | LE =>
          var x := RK(b);
          var y := RK(c);
        case TESTSET =>
          R(b);
        case TFORLOOP =>
          R(a + 2);
          open := false;
        case _ =>
      }
      Branch(truth);
    }

    /** The instructions that set the stack top, or use it. */
    method Call(w: int)
      requires 0 < pc <= |f.code| && w == f.code[pc - 1] && Usable(f, pc - 1)
      requires OpOf(w) in {CALL, TAILCALL, SETLIST, VARARG}
      modifies this
      ensures S() == Successor(f, Frame(old(pc) - 1, old(open)), true)
    {
      hide OpOf, ArgA, ArgB, ArgC, ArgBx;
      var a, b, c := ArgA(w), ArgB(w), ArgC(w);
      R(a);
      match OpOf(w) {
        case CALL =>
          if b != 0 {
            R(a + b - 1);
          }
          open := c - 1 < 0;
        case TAILCALL =>
          if b != 0 {
            R(a + b - 1);
          }
          open := true;
        case SETLIST =>
          if b == 0 {
            open := false;
          } else {
            R(a + b);
          }
          if c == 0 {
            var count := f.code[pc];
            pc := pc + 1;
          }
        case VARARG =>
          if b == 0 {
            open := true;
          } else if b > 1 {
            R(a + b - 2);
          }
        case _ =>
      }
    }

    /** One turn of the loop. `truth` is the outcome of the instruction's test, if it has one. */
    method Turn(truth: bool) returns (returned: bool)
      requires 0 <= pc < |f.code| && Usable(f, pc)
      modifies this
      ensures returned <==> OpOf(f.code[old(pc)]) == RETURN
      ensures !returned ==> S() == Successor(f, old(S()), truth) && Next(f, old(S()), S())
    {
      hide OpOf, ArgA, ArgB, ArgC, ArgBx, Next, Successor;
      NextIff(f, S(), Successor(f, S(), truth));
      if OpOf(f.code[pc]) !in {FORLOOP, EQ, LT, LE, TEST, TESTSET, TFORLOOP} {
        OutcomesSame(f, S());
      }
      var w := f.code[pc];
      pc := pc + 1;
      returned := false;
      match OpOf(w) {
        case INVALID =>
          assert false;
        case LOADBOOL | JMP | FORLOOP | FORPREP | CLOSURE =>
          Move(w, truth);
        case EQ | LT | LE | TEST | TESTSET | TFORLOOP =>
          Test(w, truth);
        case CALL | TAILCALL | SETLIST | VARARG =>
          Call(w);
        case RETURN =>
          if ArgB(w) > 1 {
            R(ArgA(w) + ArgB(w) - 2);
          }
          returned := true;
        case _ =>
          Compute(w);
      }
    }
  }

  /** Only the instructions with a test have two outcomes. */
  lemma OutcomesSame(f: Proto, s: Frame)
    requires 0 <= s.pc < |f.code| && Usable(f, s.pc)
    requires OpOf(f.code[s.pc]) !in {FORLOOP, EQ, LT, LE, TEST, TESTSET, TFORLOOP}
    ensures Successor(f, s, true) == Successor(f, s, false)
  {
    hide OpOf, Usable;
  }
}
