/**
 Instruction words (lopcodes.h, lopcodes.c): fields, operation codes, and the table of what the
 operands of an operation are.
 */
module Bytecode {

  datatype Op =
    | MOVE | LOADK | LOADBOOL | LOADNIL | GETUPVAL | GETGLOBAL | GETTABLE | SETGLOBAL | SETUPVAL | SETTABLE
    | NEWTABLE | SELF | ADD | SUB | MUL | DIV | MOD | POW | UNM | NOT | LEN | CONCAT | JMP | EQ | LT | LE
    | TEST | TESTSET | CALL | TAILCALL | RETURN | FORLOOP | FORPREP | TFORLOOP | SETLIST | CLOSE | CLOSURE | VARARG
    | INVALID   // a code that is not below NUM_OPCODES

  /** `GET_OPCODE` */
  function OpOf(w: int): Op {
    match w % 64
    case 0 => MOVE       case 1 => LOADK      case 2 => LOADBOOL   case 3 => LOADNIL   case 4 => GETUPVAL
    case 5 => GETGLOBAL  case 6 => GETTABLE   case 7 => SETGLOBAL  case 8 => SETUPVAL  case 9 => SETTABLE
    case 10 => NEWTABLE  case 11 => SELF      case 12 => ADD       case 13 => SUB      case 14 => MUL
    case 15 => DIV       case 16 => MOD       case 17 => POW       case 18 => UNM      case 19 => NOT
    case 20 => LEN       case 21 => CONCAT    case 22 => JMP       case 23 => EQ       case 24 => LT
    case 25 => LE        case 26 => TEST      case 27 => TESTSET   case 28 => CALL     case 29 => TAILCALL
    case 30 => RETURN    case 31 => FORLOOP   case 32 => FORPREP   case 33 => TFORLOOP case 34 => SETLIST
    case 35 => CLOSE     case 36 => CLOSURE   case 37 => VARARG
    case _ => INVALID
  }

  function ArgA(w: int): (r: int)
    ensures 0 <= r < 0x100
  {
    w / 0x40 % 0x100
  }

  function ArgB(w: int): (r: int)
    ensures 0 <= r < 0x200
  {
    w / 0x80_0000 % 0x200
  }

  function ArgC(w: int): (r: int)
    ensures 0 <= r < 0x200
  {
    w / 0x4000 % 0x200
  }

  function ArgBx(w: int): (r: int)
    ensures 0 <= r < 0x4_0000
  {
    w / 0x4000 % 0x4_0000
  }

  function ArgSBx(w: int): int {
    ArgBx(w) - 0x1_FFFF
  }

  /** Is the RK operand a constant (`ISK`), and which one (`INDEXK`)? */
  predicate IsK(x: int) {
    x >= 0x100
  }

  function IndexK(x: int): int {
    x - 0x100
  }

  datatype ArgMode = ArgN | ArgU | ArgR | ArgK

  datatype Format = IABC | IABx | IAsBx

  datatype Props = Props(test: bool, setsA: bool, b: ArgMode, c: ArgMode, format: Format)

  /** `luaP_opmodes` */
  function Modes(op: Op): Props {
    match op
    case MOVE | LOADNIL | UNM | NOT | LEN => Props(false, true, ArgR, ArgN, IABC)
    case LOADK | GETGLOBAL => Props(false, true, ArgK, ArgN, IABx)
    case LOADBOOL | NEWTABLE | CALL | TAILCALL => Props(false, true, ArgU, ArgU, IABC)
    case GETUPVAL | VARARG => Props(false, true, ArgU, ArgN, IABC)
    case GETTABLE | SELF => Props(false, true, ArgR, ArgK, IABC)
    case SETGLOBAL => Props(false, false, ArgK, ArgN, IABx)
    case SETUPVAL | RETURN => Props(false, false, ArgU, ArgN, IABC)
    case SETTABLE => Props(false, false, ArgK, ArgK, IABC)
    case ADD | SUB | MUL | DIV | MOD | POW => Props(false, true, ArgK, ArgK, IABC)
    case CONCAT => Props(false, true, ArgR, ArgR, IABC)
    case JMP => Props(false, false, ArgR, ArgN, IAsBx)
    case EQ | LT | LE => Props(true, false, ArgK, ArgK, IABC)
    case TEST | TESTSET => Props(true, true, ArgR, ArgU, IABC)
    case FORLOOP | FORPREP => Props(false, true, ArgR, ArgN, IAsBx)
    case TFORLOOP => Props(true, false, ArgN, ArgU, IABC)
    case SETLIST => Props(false, false, ArgU, ArgU, IABC)
    case CLOSE | INVALID => Props(false, false, ArgN, ArgN, IABC)
    case CLOSURE => Props(false, true, ArgU, ArgN, IABx)
  }

  /** A SETLIST whose count is the next word of the code. */
  predicate Extended(w: int) {
    OpOf(w) == SETLIST && ArgC(w) == 0
  }

  /** `luaG_checkopenop`: the instruction takes the values up to the top of the stack. */
  predicate OpenOp(w: int) {
    OpOf(w) in {CALL, TAILCALL, RETURN, SETLIST} && ArgB(w) == 0
  }

  // ------------------------------------------------------------- making instructions

  /** `OpCode`: the number of an operation. */
  function OpCode(op: Op): nat
    requires op != INVALID
  {
    match op
    case MOVE => 0 case LOADK => 1 case LOADBOOL => 2 case LOADNIL => 3 case GETUPVAL => 4 case GETGLOBAL => 5
    case GETTABLE => 6 case SETGLOBAL => 7 case SETUPVAL => 8 case SETTABLE => 9 case NEWTABLE => 10 case SELF => 11
    case ADD => 12 case SUB => 13 case MUL => 14 case DIV => 15 case MOD => 16 case POW => 17
    case UNM => 18 case NOT => 19 case LEN => 20 case CONCAT => 21 case JMP => 22 case EQ => 23
    case LT => 24 case LE => 25 case TEST => 26 case TESTSET => 27 case CALL => 28 case TAILCALL => 29
    case RETURN => 30 case FORLOOP => 31 case FORPREP => 32 case TFORLOOP => 33 case SETLIST => 34 case CLOSE => 35
    case CLOSURE => 36 case VARARG => 37
  }

  /** `CREATE_ABC` */
  function CreateABC(op: Op, a: nat, b: nat, c: nat): int
    requires op != INVALID
  {
    OpCode(op) + a * 0x40 + c * 0x4000 + b * 0x80_0000
  }

  /** `CREATE_ABx` */
  function CreateABx(op: Op, a: nat, bx: nat): int
    requires op != INVALID
  {
    OpCode(op) + a * 0x40 + bx * 0x4000
  }

  lemma OpCodeBack(w: int, op: Op)
    requires op != INVALID && w % 64 == OpCode(op)
    ensures OpOf(w) == op && OpCode(op) < 64
  {
  }

  lemma FieldA(o: int, a: int, x: int)
    requires 0 <= o < 0x40 && 0 <= a < 0x100
    ensures (o + 0x40 * a + 0x4000 * x) % 0x40 == o && (o + 0x40 * a + 0x4000 * x) / 0x40 % 0x100 == a
  {
    assert (o + 0x40 * a + 0x4000 * x) / 0x40 == a + 0x100 * x;
  }

  lemma FieldC(lo: int, c: int, b: int)
    requires 0 <= lo < 0x4000 && 0 <= c < 0x200
    ensures (lo + 0x4000 * c + 0x80_0000 * b) / 0x4000 % 0x200 == c
  {
    assert (lo + 0x4000 * c + 0x80_0000 * b) / 0x4000 == c + 0x200 * b;
  }

  lemma FieldBx(lo: int, bx: int)
    requires 0 <= lo < 0x4000 && 0 <= bx < 0x4_0000
    ensures (lo + 0x4000 * bx) / 0x4000 % 0x4_0000 == bx
  {
    assert (lo + 0x4000 * bx) / 0x4000 == bx;
  }

  lemma FieldB(lo: int, b: int)
    requires 0 <= lo < 0x80_0000 && 0 <= b < 0x200
    ensures (lo + 0x80_0000 * b) / 0x80_0000 % 0x200 == b
  {
    assert (lo + 0x80_0000 * b) / 0x80_0000 == b;
  }

  /** An instruction is taken apart into what it was made of. */
  lemma FieldsOfABC(op: Op, a: nat, b: nat, c: nat)
    requires op != INVALID && a < 0x100 && b < 0x200 && c < 0x200
    ensures var w := CreateABC(op, a, b, c); OpOf(w) == op && ArgA(w) == a && ArgB(w) == b && ArgC(w) == c
  {
    hide OpOf, OpCode;
    var o := OpCode(op);
    OpCodeSmall(op);
    FieldA(o, a, c + 0x200 * b);
    FieldC(o + 0x40 * a, c, b);
    FieldB(o + 0x40 * a + 0x4000 * c, b);
    OpCodeBack(CreateABC(op, a, b, c), op);
  }

  lemma FieldsOfABx(op: Op, a: nat, bx: nat)
    requires op != INVALID && a < 0x100 && bx < 0x4_0000
    ensures var w := CreateABx(op, a, bx); OpOf(w) == op && ArgA(w) == a && ArgBx(w) == bx && ArgSBx(w) == bx - 131071
  {
    hide OpOf, OpCode;
    OpCodeSmall(op);
    FieldA(OpCode(op), a, bx);
    FieldBx(OpCode(op) + 0x40 * a, bx);
    OpCodeBack(CreateABx(op, a, bx), op);
  }

  lemma OpCodeSmall(op: Op)
    requires op != INVALID
    ensures OpCode(op) < 38
  {
  }
}
