/**
 Precompiled chunks (ldump.c, lundump.c), byte by byte: a function prototype that is written and
 read again is the same prototype.
 */
module Chunks {

  type Byte = x: int | 0 <= x < 256

  const WORD := 0x1_0000_0000

  // ------------------------------------------------------------- words

  /** Four bytes, the least significant one first. */
  function Word(x: int): (s: seq<Byte>)
    ensures |s| == 4
  {
    [x % 256, x / 256 % 256, x / 0x1_0000 % 256, x / 0x100_0000 % 256]
  }

  function FromWord(s: seq<Byte>): (x: int)
    requires |s| == 4
    ensures 0 <= x < WORD
  {
    (s[0] as int) + 256 * (s[1] as int) + 0x1_0000 * (s[2] as int) + 0x100_0000 * (s[3] as int)
  }

  /** An `int` in two's complement. */
  function Signed(x: int): int {
    if x < WORD / 2 then x else x - WORD
  }

  lemma WordRoundTrip(x: int)
    ensures FromWord(Word(x)) == x % WORD
  {
    var a, b, c := x / 256, x / 0x1_0000, x / 0x100_0000;
    assert b == a / 256 && c == b / 256;
    assert x == 256 * a + x % 256 && a == 256 * b + a % 256 && b == 256 * c + b % 256;
  }

  // ------------------------------------------------------------- prototypes

  type Bytes = seq<Byte>

  datatype Name = NoName | Named(s: Bytes)

  /** A number is the eight bytes that represent it. */
  datatype Const = KNil | KBool(b: Byte) | KNum(n: Bytes) | KStr(s: Bytes)

  datatype LocVar = LocVar(name: Name, startpc: int, endpc: int)

  datatype Proto = Proto(source: Name, linedefined: int, lastlinedefined: int, nups: Byte, numparams: Byte, isVararg: Byte,
                         maxstack: Byte, code: seq<int>, k: seq<Const>, p: seq<Proto>, lineinfo: seq<int>,
                         locvars: seq<LocVar>, upvalues: seq<Name>)

  /** What the loader accepts as an `int`. */
  predicate Nat31(x: int) {
    0 <= x < WORD / 2
  }

  predicate NameFits(n: Name) {
    n.Named? ==> |n.s| + 1 < WORD
  }

  predicate ConstFits(c: Const) {
    match c
    case KNum(n) => |n| == 8
    case KStr(s) => |s| + 1 < WORD
    case _ => true
  }

  /** Every field is in the range of its type, and every function knows its source. */
  predicate Fits(f: Proto) {
    && f.source.Named? && NameFits(f.source) && Nat31(f.linedefined) && Nat31(f.lastlinedefined)
    && Nat31(|f.code|) && Nat31(|f.k|) && Nat31(|f.p|) && Nat31(|f.lineinfo|) && Nat31(|f.locvars|) && Nat31(|f.upvalues|)
    && (forall i :: 0 <= i < |f.code| ==> 0 <= f.code[i] < WORD)
    && (forall i :: 0 <= i < |f.k| ==> ConstFits(f.k[i]))
    && (forall i :: 0 <= i < |f.lineinfo| ==> -WORD / 2 <= f.lineinfo[i] < WORD / 2)
    && (forall i :: 0 <= i < |f.locvars| ==> NameFits(f.locvars[i].name) && Nat31(f.locvars[i].startpc) && Nat31(f.locvars[i].endpc))
    && (forall i :: 0 <= i < |f.upvalues| ==> NameFits(f.upvalues[i]))
    && forall i :: 0 <= i < |f.p| ==> Fits(f.p[i])
  }

  // ------------------------------------------------------------- writing

  /** `DumpString` */
  function DumpString(n: Name): Bytes {
    match n
    case NoName => Word(0)
    case Named(s) => Word(|s| + 1) + s + [0]
  }

  function DumpWords(s: seq<int>): Bytes {
    if s == [] then [] else Word(s[0]) + DumpWords(s[1..])
  }

  function DumpConst(c: Const): Bytes {
    match c
    case KNil => [0]
    case KBool(b) => [1, b]
    case KNum(n) => [3] + n
    case KStr(s) => [4] + DumpString(Named(s))
  }

  function DumpConsts(s: seq<Const>): Bytes {
    if s == [] then [] else DumpConst(s[0]) + DumpConsts(s[1..])
  }

  function DumpLocVars(s: seq<LocVar>): Bytes {
    if s == [] then [] else DumpString(s[0].name) + Word(s[0].startpc) + Word(s[0].endpc) + DumpLocVars(s[1..])
  }

  function DumpNames(s: seq<Name>): Bytes {
    if s == [] then [] else DumpString(s[0]) + DumpNames(s[1..])
  }

  /** The debug information that is written. */
  function Kept<T>(s: seq<T>, strip: bool): seq<T> {
    if strip then [] else s
  }

  /** `DumpDebug` */
  function DumpDebug(f: Proto, strip: bool): Bytes {
    var l, v, u := Kept(f.lineinfo, strip), Kept(f.locvars, strip), Kept(f.upvalues, strip);
    Word(|l|) + DumpWords(l) + (Word(|v|) + DumpLocVars(v) + (Word(|u|) + DumpNames(u)))
  }

  /** The part of `DumpFunction` in front of the constants. */
  function DumpHead(f: Proto, parent: Name, strip: bool): Bytes {
    DumpString(if f.source == parent || strip then NoName else f.source) + (Word(f.linedefined) + (Word(f.lastlinedefined) +
    ([f.nups, f.numparams, f.isVararg, f.maxstack] + (Word(|f.code|) + DumpWords(f.code)))))
  }

  /** `DumpFunction`: a source that is that of the enclosing function is left out. */
  function DumpFunction(f: Proto, parent: Name, strip: bool): Bytes
    decreases f, 2, 0
  {
    DumpHead(f, parent, strip) +
    (Word(|f.k|) + DumpConsts(f.k) + (Word(|f.p|) + DumpProtos(f, 0, strip) + DumpDebug(f, strip)))
  }

  function DumpProtos(f: Proto, i: nat, strip: bool): Bytes
    decreases f, 1, |f.p| - i
  {
    if i >= |f.p| then [] else DumpFunction(f.p[i], f.source, strip) + DumpProtos(f, i + 1, strip)
  }

  // ------------------------------------------------------------- reading

  datatype LoadError = UnexpectedEnd | BadInteger | BadConstant | BadCode | BadHeader

  datatype Loaded<T> = Got(v: T, rest: Bytes) | Bad(error: LoadError)

  /** `LoadBlock` */
  function LoadBlock(z: Bytes, n: nat): (r: Loaded<Bytes>)
    ensures r.Got? ==> |r.v| == n && z == r.v + r.rest
  {
    if |z| < n then Bad(UnexpectedEnd) else Got(z[..n], z[n..])
  }

  function LoadByte(z: Bytes): (r: Loaded<Byte>)
    ensures r.Got? ==> z == [r.v] + r.rest
  {
    if z == [] then Bad(UnexpectedEnd) else Got(z[0], z[1..])
  }

  function LoadWord(z: Bytes): (r: Loaded<int>)
    ensures r.Got? ==> r.v >= 0 && |r.rest| + 4 == |z|
  {
    match LoadBlock(z, 4)
    case Bad(e) => Bad(e)
    case Got(b, rest) => Got(FromWord(b), rest)
  }

  /** `LoadInt` */
  function LoadInt(z: Bytes): (r: Loaded<int>)
    ensures r.Got? ==> r.v >= 0 && |r.rest| + 4 == |z|
  {
    match LoadWord(z)
    case Bad(e) => Bad(e)
    case Got(x, rest) => if Signed(x) < 0 then Bad(BadInteger) else Got(Signed(x), rest)
  }

  /** `LoadString` */
  function LoadString(z: Bytes): (r: Loaded<Name>)
    ensures r.Got? ==> |r.rest| < |z|
  {
    match LoadWord(z)
    case Bad(e) => Bad(e)
    case Got(size, rest) =>
      if size == 0 then Got(NoName, rest)
      else
        match LoadBlock(rest, size)
        case Bad(e) => Bad(e)
        case Got(s, rest2) => Got(Named(s[..size - 1]), rest2)
  }

  function LoadWords(z: Bytes, n: int, signed: bool): (r: Loaded<seq<int>>)
    ensures r.Got? ==> |r.rest| <= |z|
    decreases n
  {
    if n <= 0 then Got([], z)
    else
      match LoadWord(z)
      case Bad(e) => Bad(e)
      case Got(x, rest) =>
        match LoadWords(rest, n - 1, signed)
        case Bad(e) => Bad(e)
        case Got(s, rest2) => Got([if signed then Signed(x) else x] + s, rest2)
  }

  /** One constant, behind its type. */
  function LoadConst(z: Bytes): (r: Loaded<Const>)
    ensures r.Got? ==> |r.rest| < |z|
  {
    match LoadByte(z)
    case Bad(e) => Bad(e)
    case Got(t, rest) =>
      if t == 0 then Got(KNil, rest)
      else if t == 1 then
        match LoadByte(rest)
        case Bad(e) => Bad(e)
        case Got(b, rest2) => Got(KBool(b), rest2)
      else if t == 3 then
        match LoadBlock(rest, 8)
        case Bad(e) => Bad(e)
        case Got(n, rest2) => Got(KNum(n), rest2)
      else if t == 4 then
        match LoadString(rest)
        case Bad(e) => Bad(e)
        case Got(NoName, _) => Bad(BadConstant)
        case Got(Named(s), rest2) => Got(KStr(s), rest2)
      else Bad(BadConstant)
  }

  function LoadConsts(z: Bytes, n: int): (r: Loaded<seq<Const>>)
    ensures r.Got? ==> |r.rest| <= |z|
    decreases n
  {
    if n <= 0 then Got([], z)
    else
      match LoadConst(z)
      case Bad(e) => Bad(e)
      case Got(c, rest) =>
        match LoadConsts(rest, n - 1)
        case Bad(e) => Bad(e)
        case Got(s, rest2) => Got([c] + s, rest2)
  }

  function LoadLocVar(z: Bytes): (r: Loaded<LocVar>)
    ensures r.Got? ==> |r.rest| < |z|
  {
    match LoadString(z)
    case Bad(e) => Bad(e)
    case Got(name, rest) =>
      match LoadInt(rest)
      case Bad(e) => Bad(e)
      case Got(a, rest2) =>
        match LoadInt(rest2)
        case Bad(e) => Bad(e)
        case Got(b, rest3) => Got(LocVar(name, a, b), rest3)
  }

  function LoadLocVars(z: Bytes, n: int): (r: Loaded<seq<LocVar>>)
    ensures r.Got? ==> |r.rest| <= |z|
    decreases n
  {
    if n <= 0 then Got([], z)
    else
      match LoadLocVar(z)
      case Bad(e) => Bad(e)
      case Got(c, rest) =>
        match LoadLocVars(rest, n - 1)
        case Bad(e) => Bad(e)
        case Got(s, rest2) => Got([c] + s, rest2)
  }

  function LoadNames(z: Bytes, n: int): (r: Loaded<seq<Name>>)
    ensures r.Got? ==> |r.rest| <= |z|
    decreases n
  {
    if n <= 0 then Got([], z)
    else
      match LoadString(z)
      case Bad(e) => Bad(e)
      case Got(c, rest) =>
        match LoadNames(rest, n - 1)
        case Bad(e) => Bad(e)
        case Got(s, rest2) => Got([c] + s, rest2)
  }

  /** The part of `LoadFunction` in front of the constants; the rest of the prototype is empty yet. */
  function LoadHead(z: Bytes, parent: Name): (r: Loaded<Proto>)
    ensures r.Got? ==> |r.rest| < |z|
  {
    match LoadString(z)
    case Bad(e) => Bad(e)
    case Got(name, z1) =>
      match LoadInt(z1)
      case Bad(e) => Bad(e)
      case Got(first, z2) =>
        match LoadInt(z2)
        case Bad(e) => Bad(e)
        case Got(last, z3) =>
          match LoadBlock(z3, 4)
          case Bad(e) => Bad(e)
          case Got(b, z4) =>
            match LoadInt(z4)
            case Bad(e) => Bad(e)
            case Got(n, z5) =>
              match LoadWords(z5, n, false)
              case Bad(e) => Bad(e)
              case Got(code, z6) =>
                Got(Proto(if name.NoName? then parent else name, first, last, b[0], b[1], b[2], b[3], code, [], [], [], [], []), z6)
  }

  /** `LoadDebug` */
  function LoadDebug(z: Bytes, f: Proto): (r: Loaded<Proto>)
    ensures r.Got? ==> |r.rest| <= |z|
  {
    match LoadInt(z)
    case Bad(e) => Bad(e)
    case Got(n, z1) =>
      match LoadWords(z1, n, true)
      case Bad(e) => Bad(e)
      case Got(lines, z2) =>
        match LoadInt(z2)
        case Bad(e) => Bad(e)
        case Got(m, z3) =>
          match LoadLocVars(z3, m)
          case Bad(e) => Bad(e)
          case Got(vars, z4) =>
            match LoadInt(z4)
            case Bad(e) => Bad(e)
            case Got(u, z5) =>
              match LoadNames(z5, u)
              case Bad(e) => Bad(e)
              case Got(ups, z6) => Got(f.(lineinfo := lines, locvars := vars, upvalues := ups), z6)
  }

  /** `LoadFunction`: what is loaded must pass the bytecode checker. */
  function LoadFunction(check: Proto -> bool, z: Bytes, parent: Name): (r: Loaded<Proto>)
    ensures r.Got? ==> |r.rest| < |z|
    decreases |z|, 1, 0
  {
    match LoadHead(z, parent)
    case Bad(e) => Bad(e)
    case Got(f, z1) =>
      match LoadInt(z1)
      case Bad(e) => Bad(e)
      case Got(n, z2) =>
        match LoadConsts(z2, n)
        case Bad(e) => Bad(e)
        case Got(k, z3) =>
          match LoadInt(z3)
          case Bad(e) => Bad(e)
          case Got(m, z4) =>
            match LoadProtos(check, z4, m, f.source)
            case Bad(e) => Bad(e)
            case Got(p, z5) =>
              match LoadDebug(z5, f.(k := k, p := p))
              case Bad(e) => Bad(e)
              case Got(g, z6) => if check(g) then Got(g, z6) else Bad(BadCode)
  }

  function LoadProtos(check: Proto -> bool, z: Bytes, n: int, source: Name): (r: Loaded<seq<Proto>>)
    ensures r.Got? ==> |r.rest| <= |z|
    decreases |z|, 2, n
  {
    if n <= 0 then Got([], z)
    else
      match LoadFunction(check, z, source)
      case Bad(e) => Bad(e)
      case Got(f, rest) =>
        match LoadProtos(check, rest, n - 1, source)
        case Bad(e) => Bad(e)
        case Got(s, rest2) => Got([f] + s, rest2)
  }

  // ------------------------------------------------------------- what comes back

  /** The prototype without its debug information; every function takes the source of the loader. */
  function Stripped(f: Proto, source: Name): Proto
    decreases f, 2, 0
  {
    f.(source := source, lineinfo := [], locvars := [], upvalues := [], p := StrippedAll(f, 0, source))
  }

  function StrippedAll(f: Proto, i: nat, source: Name): seq<Proto>
    decreases f, 1, |f.p| - i
  {
    if i >= |f.p| then [] else [Stripped(f.p[i], source)] + StrippedAll(f, i + 1, source)
  }

  function Restored(f: Proto, source: Name, strip: bool): Proto {
    if strip then Stripped(f, source) else f
  }

  function RestoredAll(f: Proto, i: nat, source: Name, strip: bool): seq<Proto>
    requires i <= |f.p|
  {
    if strip then StrippedAll(f, i, source) else f.p[i..]
  }

  /** The checker accepts the prototype and all that it encloses. */
  predicate Accepted(check: Proto -> bool, f: Proto) {
    check(f) && forall i :: 0 <= i < |f.p| ==> Accepted(check, f.p[i])
  }
}
