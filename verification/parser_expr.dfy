/**
 Operator precedence in the parser (subexpr in lparser.c): parsing the tokens of an expression
 tree gives the tree back, if the tree respects the priorities.
 */
module ParserExpr {

  datatype UnOp = Minus | Not | Len

  datatype BinOp = Add | Sub | Mul | Div | Mod | Pow | Concat | Ne | Eq | Lt | Le | Gt | Ge | AndOp | OrOp

  /** `-` is one token for two operators. */
  datatype Token =
    | Plus | Dash | Times | Slash | Percent | Caret | Dots2 | NotEqual | Equal | Less | LessEqual | Greater | GreaterEqual
    | AndWord | OrWord | NotWord | Hash | Open | Close
    | Simple(id: int)   // what `simpleexp` reads as a whole: a literal, a name, a call, a constructor
    | Other(code: int)  // anything that cannot begin or continue an expression

  /** `getunopr` */
  datatype MaybeUn = NoUn | JustUn(u: UnOp)

  function GetUnOp(t: Token): MaybeUn {
    match t
    case NotWord => JustUn(Not)
    case Dash => JustUn(Minus)
    case Hash => JustUn(Len)
    case _ => NoUn
  }

  datatype MaybeBin = NoBin | JustBin(op: BinOp)

  /** `getbinopr` */
  function GetBinOp(t: Token): MaybeBin {
    match t
    case Plus => JustBin(Add)
    case Dash => JustBin(Sub)
    case Times => JustBin(Mul)
    case Slash => JustBin(Div)
    case Percent => JustBin(Mod)
    case Caret => JustBin(Pow)
    case Dots2 => JustBin(Concat)
    case NotEqual => JustBin(Ne)
    case Equal => JustBin(Eq)
    case Less => JustBin(Lt)
    case LessEqual => JustBin(Le)
    case Greater => JustBin(Gt)
    case GreaterEqual => JustBin(Ge)
    case AndWord => JustBin(AndOp)
    case OrWord => JustBin(OrOp)
    case _ => NoBin
  }

  /** `priority` */
  function Left(op: BinOp): nat {
    match op
    case Add => 6
    case Sub => 6
    case Mul => 7
    case Div => 7
    case Mod => 7
    case Pow => 10
    case Concat => 5
    case AndOp => 2
    case OrOp => 1
    case _ => 3
  }

  function Right(op: BinOp): nat {
    match op
    case Pow => 9
    case Concat => 4
    case _ => Left(op)
  }

  const UNARY_PRIORITY: nat := 8
  const TOP: nat := 100

  // ------------------------------------------------------------- trees and their tokens

  datatype Tree = Leaf(id: int) | Paren(e: Tree) | Unary(u: UnOp, e: Tree) | Binary(op: BinOp, a: Tree, b: Tree)

  function UnToken(u: UnOp): (t: Token)
    ensures GetUnOp(t) == JustUn(u)
  {
    match u
    case Minus => Dash
    case Not => NotWord
    case Len => Hash
  }

  function BinToken(op: BinOp): (t: Token)
    ensures GetBinOp(t) == JustBin(op)
  {
    match op
    case Add => Plus
    case Sub => Dash
    case Mul => Times
    case Div => Slash
    case Mod => Percent
    case Pow => Caret
    case Concat => Dots2
    case Ne => NotEqual
    case Eq => Equal
    case Lt => Less
    case Le => LessEqual
    case Gt => Greater
    case Ge => GreaterEqual
    case AndOp => AndWord
    case OrOp => OrWord
  }

  function Flatten(t: Tree): (s: seq<Token>)
    ensures |s| > 0
  {
    match t
    case Leaf(id) => [Simple(id)]
    case Paren(e) => [Open] + Flatten(e) + [Close]
    case Unary(u, e) => [UnToken(u)] + Flatten(e)
    case Binary(op, a, b) => Flatten(a) + [BinToken(op)] + Flatten(b)
  }

  function Min(a: nat, b: nat): nat {
    if a < b then a else b
  }

  /** The weakest operator that is not inside an operand, on the left edge. */
  function LeftMin(t: Tree): nat {
    match t
    case Binary(op, a, _) => Min(Left(op), LeftMin(a))
    case _ => TOP
  }

  /** How weak an operator behind the tree must be not to be drawn into its right edge. */
  function RightMin(t: Tree): nat {
    match t
    case Binary(op, _, b) => Min(Right(op), RightMin(b))
    case Unary(_, e) => Min(UNARY_PRIORITY, RightMin(e))
    case _ => TOP
  }

  /** Operands bind tighter than their operators (section 2.5.6 of the Lua 5.1 Reference Manual). */
  predicate Respects(t: Tree) {
    match t
    case Leaf(_) => true
    case Paren(e) => Respects(e)
    case Unary(_, e) => Respects(e) && LeftMin(e) > UNARY_PRIORITY
    case Binary(op, a, b) => Respects(a) && Respects(b) && Left(op) <= RightMin(a) && LeftMin(b) > Right(op)
  }

  // ------------------------------------------------------------- parsing

  datatype Result = Parsed(t: Tree, rest: seq<Token>) | Unexpected

  function NextBin(toks: seq<Token>): MaybeBin {
    if toks == [] then NoBin else GetBinOp(toks[0])
  }

  /** Does the loop of `subexpr` go on? */
  predicate GoesOn(toks: seq<Token>, limit: nat) {
    NextBin(toks).JustBin? && Left(NextBin(toks).op) > limit
  }

  /** `subexpr` */
  function SubExpr(toks: seq<Token>, limit: nat): (r: Result)
    ensures r.Parsed? ==> |r.rest| < |toks|
    decreases |toks|, 1
  {
    if toks == [] then Unexpected
    else if GetUnOp(toks[0]).JustUn? then
      match SubExpr(toks[1..], UNARY_PRIORITY)
      case Unexpected => Unexpected
      case Parsed(e, rest) => Loop(Unary(GetUnOp(toks[0]).u, e), rest, limit)
    else
      match SimpleExp(toks)
      case Unexpected => Unexpected
      case Parsed(e, rest) => Loop(e, rest, limit)
  }

  /** `simpleexp`, and the parentheses of `prefixexp` */
  function SimpleExp(toks: seq<Token>): (r: Result)
    requires toks != []
    ensures r.Parsed? ==> |r.rest| < |toks|
    decreases |toks|, 0
  {
    match toks[0]
    case Simple(id) => Parsed(Leaf(id), toks[1..])
    case Open =>
      (match SubExpr(toks[1..], 0)
       case Unexpected => Unexpected
       case Parsed(e, rest) => if rest != [] && rest[0] == Close then Parsed(Paren(e), rest[1..]) else Unexpected)
    case _ => Unexpected
  }

  /** The loop of `subexpr` with the expression read so far. */
  function Loop(v: Tree, toks: seq<Token>, limit: nat): (r: Result)
    ensures r.Parsed? ==> |r.rest| <= |toks|
    decreases |toks|, 2
  {
    if !GoesOn(toks, limit) then Parsed(v, toks)
    else
      match SubExpr(toks[1..], Right(NextBin(toks).op))
      case Unexpected => Unexpected
      case Parsed(v2, rest) => Loop(Binary(NextBin(toks).op, v, v2), rest, limit)
  }

  // ------------------------------------------------------------- parsing inverts flattening

  /** The operator behind the tree is not drawn into it. */
  predicate Follows(t: Tree, rest: seq<Token>) {
    NextBin(rest).JustBin? ==> Left(NextBin(rest).op) <= RightMin(t)
  }

  lemma ReadsUnary(u: UnOp, toks: seq<Token>, limit: nat, e: Tree, rest: seq<Token>)
    requires SubExpr(toks, UNARY_PRIORITY) == Parsed(e, rest)
    ensures SubExpr([UnToken(u)] + toks, limit) == Loop(Unary(u, e), rest, limit)
  {
    hide Loop, UnToken, GetUnOp;
    assert ([UnToken(u)] + toks)[1..] == toks;
  }

  lemma LoopStops(v: Tree, toks: seq<Token>, limit: nat)
    ensures !GoesOn(toks, limit) ==> Loop(v, toks, limit) == Parsed(v, toks)
  {
  }

  lemma LoopTakes(v: Tree, op: BinOp, toks: seq<Token>, limit: nat, v2: Tree, rest: seq<Token>)
    requires Left(op) > limit && SubExpr(toks, Right(op)) == Parsed(v2, rest)
    ensures Loop(v, [BinToken(op)] + toks, limit) == Loop(Binary(op, v, v2), rest, limit)
  {
    hide SubExpr, GetBinOp, BinToken, Left, Right;
    assert ([BinToken(op)] + toks)[1..] == toks && NextBin([BinToken(op)] + toks) == JustBin(op);
  }

  lemma ReadsParen(e: Tree, rest: seq<Token>, limit: nat)
    requires SubExpr(Flatten(e) + ([Close] + rest), 0) == Parsed(e, [Close] + rest)
    ensures SubExpr(Flatten(Paren(e)) + rest, limit) == Loop(Paren(e), rest, limit)
  {
    hide Loop;
    var toks := Flatten(Paren(e)) + rest;
    assert toks[1..] == Flatten(e) + ([Close] + rest);
    assert ([Close] + rest)[1..] == rest;
  }

  /** Reading the tokens of a tree brings the loop to the tree. */
  lemma {:induction false} ReadsTree(t: Tree, rest: seq<Token>, limit: nat)
    requires Respects(t) && LeftMin(t) > limit && Follows(t, rest)
    ensures SubExpr(Flatten(t) + rest, limit) == Loop(t, rest, limit)
    decreases t
  {
    hide *;
    match t {
      case Leaf(id) =>
        ReadsLeaf(id, rest, limit);
      case Paren(e) =>
        LeftMinPositive(e);
        CloseStops(e, rest);
        ReadsTree(e, [Close] + rest, 0);
        ReadsParen(e, rest, limit);
      case Unary(u, e) =>
        UnaryEdges(u, e, rest);
        ReadsTree(e, rest, UNARY_PRIORITY);
        LoopStops(e, rest, UNARY_PRIORITY);
        ReadsUnary(u, Flatten(e) + rest, limit, e, rest);
      case Binary(op, a, b) =>
        BinaryEdges(op, a, b, limit, rest);
        ReadsTree(a, [BinToken(op)] + (Flatten(b) + rest), limit);
        ReadsTree(b, rest, Right(op));
        LoopStops(b, rest, Right(op));
        LoopTakes(a, op, Flatten(b) + rest, limit, b, rest);
    }
  }

  lemma UnaryEdges(u: UnOp, e: Tree, rest: seq<Token>)
    requires Respects(Unary(u, e)) && Follows(Unary(u, e), rest)
    ensures Respects(e) && LeftMin(e) > UNARY_PRIORITY && Follows(e, rest) && !GoesOn(rest, UNARY_PRIORITY)
    ensures Flatten(Unary(u, e)) + rest == [UnToken(u)] + (Flatten(e) + rest)
  {
    hide UnToken, GetBinOp;
  }

  lemma BinaryEdges(op: BinOp, a: Tree, b: Tree, limit: nat, rest: seq<Token>)
    requires Respects(Binary(op, a, b)) && LeftMin(Binary(op, a, b)) > limit && Follows(Binary(op, a, b), rest)
    ensures Respects(a) && Respects(b) && LeftMin(a) > limit && Left(op) > limit && LeftMin(b) > Right(op)
    ensures Follows(a, [BinToken(op)] + (Flatten(b) + rest)) && Follows(b, rest) && !GoesOn(rest, Right(op))
    ensures Flatten(Binary(op, a, b)) + rest == Flatten(a) + ([BinToken(op)] + (Flatten(b) + rest))
  {
    hide BinToken, GetBinOp, Left, Right;
    assert NextBin([BinToken(op)] + (Flatten(b) + rest)) == JustBin(op);
  }

  lemma ReadsLeaf(id: int, rest: seq<Token>, limit: nat)
    ensures SubExpr(Flatten(Leaf(id)) + rest, limit) == Loop(Leaf(id), rest, limit)
  {
    hide Loop;
    assert ([Simple(id)] + rest)[1..] == rest;
  }

  lemma CloseStops(e: Tree, rest: seq<Token>)
    requires Respects(Paren(e))
    ensures Loop(e, [Close] + rest, 0) == Parsed(e, [Close] + rest) && Follows(e, [Close] + rest) && Respects(e)
  {
  }

  lemma {:induction false} LeftMinPositive(t: Tree)
    ensures LeftMin(t) > 0
  {
    if t.Binary? {
      LeftMinPositive(t.a);
    }
  }

  /** `subexpr` inverts flattening on every tree that respects the priorities. */
  lemma SubExprInvertsFlatten(t: Tree, rest: seq<Token>, limit: nat)
    requires Respects(t) && LeftMin(t) > limit && Follows(t, rest) && !GoesOn(rest, limit)
    ensures SubExpr(Flatten(t) + rest, limit) == Parsed(t, rest)
  {
    ReadsTree(t, rest, limit);
  }

  /** What `subexpr` reads is a tree that respects the priorities, and its tokens are what was read;
      the operator it leaves is the first that is not above the limit. */
  lemma {:induction false} SubExprSound(toks: seq<Token>, limit: nat)
    requires SubExpr(toks, limit).Parsed? && limit < TOP
    ensures Reads(toks, limit, SubExpr(toks, limit))
    decreases |toks|, 1
  {
    hide Flatten, Respects, LeftMin, RightMin, Follows, Loop, SimpleExp;
    if GetUnOp(toks[0]).JustUn? {
      SubExprSound(toks[1..], UNARY_PRIORITY);
      UnarySound(toks, SubExpr(toks[1..], UNARY_PRIORITY));
      var r := SubExpr(toks[1..], UNARY_PRIORITY);
      LoopSound(Unary(GetUnOp(toks[0]).u, r.t), r.rest, limit);
    } else {
      SimpleSound(toks);
      var r := SimpleExp(toks);
      LoopSound(r.t, r.rest, limit);
    }
  }

  lemma UnarySound(toks: seq<Token>, r: Result)
    requires toks != [] && GetUnOp(toks[0]).JustUn? && Reads(toks[1..], UNARY_PRIORITY, r)
    ensures var v := Unary(GetUnOp(toks[0]).u, r.t);
            Flatten(v) + r.rest == toks && Respects(v) && LeftMin(v) == TOP && Follows(v, r.rest)
  {
    var v := Unary(GetUnOp(toks[0]).u, r.t);
    UnTokenOnly(toks[0]);
    assert toks == [toks[0]] + (Flatten(r.t) + r.rest);
    assert Flatten(v) + r.rest == toks;
  }

  /** The tree accounts for the tokens that have been read, and could not have taken more. */
  ghost predicate Reads(toks: seq<Token>, limit: nat, r: Result) {
    && r.Parsed? && Flatten(r.t) + r.rest == toks
    && Respects(r.t) && LeftMin(r.t) > limit && Follows(r.t, r.rest) && !GoesOn(r.rest, limit)
  }

  lemma UnTokenOnly(t: Token)
    requires GetUnOp(t).JustUn?
    ensures UnToken(GetUnOp(t).u) == t
  {
  }

  lemma BinTokenOnly(t: Token)
    requires GetBinOp(t).JustBin?
    ensures BinToken(GetBinOp(t).op) == t
  {
  }

  lemma {:induction false} SimpleSound(toks: seq<Token>)
    requires toks != [] && SimpleExp(toks).Parsed?
    ensures var r := SimpleExp(toks);
            Flatten(r.t) + r.rest == toks && Respects(r.t) && LeftMin(r.t) == TOP && Follows(r.t, r.rest)
    decreases |toks|, 0
  {
    hide SubExpr, LeftMin, RightMin, GetBinOp, Left, Right, Loop;
    if toks[0].Open? {
      var r := SubExpr(toks[1..], 0);
      SubExprSound(toks[1..], 0);
      assert toks == [Open] + (Flatten(r.t) + r.rest);
      assert r.rest == [Close] + r.rest[1..];
      assert Flatten(Paren(r.t)) + r.rest[1..] == toks;
      SimpleEdges(Paren(r.t), r.rest[1..]);
    } else {
      assert toks == [toks[0]] + toks[1..];
      SimpleEdges(Leaf(toks[0].id), toks[1..]);
    }
  }

  lemma SimpleEdges(t: Tree, rest: seq<Token>)
    requires t.Leaf? || t.Paren?
    ensures LeftMin(t) == TOP && Follows(t, rest)
  {
  }

  lemma TakenRespects(v: Tree, op: BinOp, toks: seq<Token>, limit: nat, r: Result)
    requires Respects(v) && LeftMin(v) > limit && Left(op) > limit && Left(op) <= RightMin(v) && Reads(toks, Right(op), r)
    ensures var v2 := Binary(op, v, r.t);
            && Respects(v2) && LeftMin(v2) > limit && Follows(v2, r.rest)
            && Flatten(v2) + r.rest == Flatten(v) + ([BinToken(op)] + toks)
  {
    hide Left, Right, GetBinOp, BinToken;
    assert Flatten(Binary(op, v, r.t)) + r.rest == Flatten(v) + ([BinToken(op)] + (Flatten(r.t) + r.rest));
  }

  lemma {:induction false} LoopSound(v: Tree, toks: seq<Token>, limit: nat)
    requires Loop(v, toks, limit).Parsed? && limit < TOP && Respects(v) && LeftMin(v) > limit && Follows(v, toks)
    ensures Reads(Flatten(v) + toks, limit, Loop(v, toks, limit))
    decreases |toks|, 2
  {
    hide SubExpr, Respects, LeftMin, RightMin, Flatten, GetBinOp, Left, Right, BinToken;
    if GoesOn(toks, limit) {
      var op := NextBin(toks).op;
      var r := SubExpr(toks[1..], Right(op));
      RightBelow(op);
      SubExprSound(toks[1..], Right(op));
      BinTokenOnly(toks[0]);
      assert toks == [BinToken(op)] + toks[1..];
      TakenRespects(v, op, toks[1..], limit, r);
      LoopSound(Binary(op, v, r.t), r.rest, limit);
    }
  }

  lemma RightBelow(op: BinOp)
    ensures Right(op) < TOP
  {
  }

  /** Reading and writing are inverse: exactly the trees that respect the priorities are read back
      from their own tokens, with nothing left over. */
  lemma ReadBackIff(t: Tree)
    ensures SubExpr(Flatten(t), 0) == Parsed(t, []) <==> Respects(t)
  {
    assert Flatten(t) + [] == Flatten(t);
    if Respects(t) {
      LeftMinPositive(t);
      SubExprInvertsFlatten(t, [], 0);
    }
    if SubExpr(Flatten(t), 0) == Parsed(t, []) {
      SubExprSound(Flatten(t), 0);
    }
  }
}
