/**
 The precedence of operators as the manual states it (section 2.5.6 of the Lua 5.1 Reference Manual),
 as a grammar with one kind of expression for each level, and the proof that the priorities of the
 parser say the same.
 */
module ParserGrammar {
  import opened ParserExpr

  // ------------------------------------------------------------- the grammar

  predicate IsComparison(op: BinOp) {
    op in {Lt, Gt, Le, Ge, Ne, Eq}
  }

  predicate IsAdditive(op: BinOp) {
    op in {Add, Sub}
  }

  predicate IsMultiplicative(op: BinOp) {
    op in {Mul, Div, Mod}
  }

  /** or ::= or `or` and | and */
  predicate OrExp(t: Tree)
    decreases t, 8
  {
    (t.Binary? && t.op == OrOp && OrExp(t.a) && AndExp(t.b)) || AndExp(t)
  }

  /** and ::= and `and` comparison | comparison */
  predicate AndExp(t: Tree)
    decreases t, 7
  {
    (t.Binary? && t.op == AndOp && AndExp(t.a) && ComparisonExp(t.b)) || ComparisonExp(t)
  }

  /** comparison ::= comparison (`<` | `>` | `<=` | `>=` | `~=` | `==`) concat | concat */
  predicate ComparisonExp(t: Tree)
    decreases t, 6
  {
    (t.Binary? && IsComparison(t.op) && ComparisonExp(t.a) && ConcatExp(t.b)) || ConcatExp(t)
  }

  /** concat ::= additive `..` concat | additive */
  predicate ConcatExp(t: Tree)
    decreases t, 5
  {
    (t.Binary? && t.op == Concat && AdditiveExp(t.a) && ConcatExp(t.b)) || AdditiveExp(t)
  }

  /** additive ::= additive (`+` | `-`) multiplicative | multiplicative */
  predicate AdditiveExp(t: Tree)
    decreases t, 4
  {
    (t.Binary? && IsAdditive(t.op) && AdditiveExp(t.a) && MultiplicativeExp(t.b)) || MultiplicativeExp(t)
  }

  /** multiplicative ::= multiplicative (`*` | `/` | `%`) unary | unary */
  predicate MultiplicativeExp(t: Tree)
    decreases t, 3
  {
    (t.Binary? && IsMultiplicative(t.op) && MultiplicativeExp(t.a) && UnaryExp(t.b)) || UnaryExp(t)
  }

  /** unary ::= (`not` | `#` | `-`) unary | power */
  predicate UnaryExp(t: Tree)
    decreases t, 2
  {
    (t.Unary? && UnaryExp(t.e)) || PowerExp(t)
  }

  /** power ::= primary `^` unary | primary */
  predicate PowerExp(t: Tree)
    decreases t, 1
  {
    (t.Binary? && t.op == Pow && PrimaryExp(t.a) && UnaryExp(t.b)) || PrimaryExp(t)
  }

  /** primary ::= atom | `(` or `)` */
  predicate PrimaryExp(t: Tree)
    decreases t, 0
  {
    t.Leaf? || (t.Paren? && OrExp(t.e))
  }

  // ------------------------------------------------------------- the priorities say the same

  /** The priority of the outermost operator. */
  function Outermost(t: Tree): nat {
    match t
    case Binary(op, _, _) => Left(op)
    case Unary(_, _) => UNARY_PRIORITY
    case _ => TOP
  }

  /** The priority with which it holds its right operand. */
  function OnTheRight(t: Tree): nat {
    match t
    case Binary(op, _, _) => Right(op)
    case Unary(_, _) => UNARY_PRIORITY
    case _ => TOP
  }

  lemma PrioritiesAre(op: BinOp)
    ensures Left(op) == if op == OrOp then 1 else if op == AndOp then 2 else if IsComparison(op) then 3
                        else if op == Concat then 5 else if IsAdditive(op) then 6 else if IsMultiplicative(op) then 7 else 10
    ensures Right(op) == if op == Concat then 4 else if op == Pow then 9 else Left(op)
    ensures op == OrOp || op == AndOp || IsComparison(op) || op == Concat || IsAdditive(op) || IsMultiplicative(op) || op == Pow
  {
  }

  /** In a tree that respects the priorities the outermost operator is the weakest at both edges. */
  lemma {:induction false} EdgesOf(t: Tree)
    requires Respects(t)
    ensures LeftMin(t) == if t.Binary? then Left(t.op) else TOP
    ensures forall op: BinOp :: Left(op) <= RightMin(t) <==> Left(op) <= OnTheRight(t)
    ensures RightMin(t) <= OnTheRight(t)
  {
    hide Left, Right;
    match t {
      case Unary(_, e) =>
        EdgesOf(e);
        if e.Binary? {
          PrioritiesAre(e.op);
        }
      case Binary(op, a, b) =>
        EdgesOf(a);
        EdgesOf(b);
        PrioritiesAre(op);
        if a.Binary? {
          PrioritiesAre(a.op);
        }
        if b.Binary? {
          PrioritiesAre(b.op);
        }
      case _ =>
    }
    forall op: BinOp
      ensures Left(op) <= RightMin(t) <==> Left(op) <= OnTheRight(t)
    {
      PrioritiesAre(op);
    }
  }

  /** One production each. */
  lemma Productions(t: Tree)
    ensures OrExp(t) <==> (t.Binary? && t.op == OrOp && OrExp(t.a) && AndExp(t.b)) || AndExp(t)
    ensures AndExp(t) <==> (t.Binary? && t.op == AndOp && AndExp(t.a) && ComparisonExp(t.b)) || ComparisonExp(t)
    ensures ComparisonExp(t) <==> (t.Binary? && IsComparison(t.op) && ComparisonExp(t.a) && ConcatExp(t.b)) || ConcatExp(t)
    ensures ConcatExp(t) <==> (t.Binary? && t.op == Concat && AdditiveExp(t.a) && ConcatExp(t.b)) || AdditiveExp(t)
    ensures AdditiveExp(t) <==> (t.Binary? && IsAdditive(t.op) && AdditiveExp(t.a) && MultiplicativeExp(t.b)) || MultiplicativeExp(t)
    ensures MultiplicativeExp(t) <==> (t.Binary? && IsMultiplicative(t.op) && MultiplicativeExp(t.a) && UnaryExp(t.b)) || UnaryExp(t)
    ensures UnaryExp(t) <==> (t.Unary? && UnaryExp(t.e)) || PowerExp(t)
    ensures PowerExp(t) <==> (t.Binary? && t.op == Pow && PrimaryExp(t.a) && UnaryExp(t.b)) || PrimaryExp(t)
    ensures PrimaryExp(t) <==> t.Leaf? || (t.Paren? && OrExp(t.e))
  {
  }

  /** The kinds of expressions, by the priority of the outermost operator. */
  lemma {:induction false} Levels(t: Tree)
    ensures OrExp(t) <==> Respects(t)
    ensures AndExp(t) <==> Respects(t) && Outermost(t) >= 2
    ensures ComparisonExp(t) <==> Respects(t) && Outermost(t) >= 3
    ensures ConcatExp(t) <==> Respects(t) && Outermost(t) >= 5
    ensures AdditiveExp(t) <==> Respects(t) && Outermost(t) >= 6
    ensures MultiplicativeExp(t) <==> Respects(t) && Outermost(t) >= 7
    ensures UnaryExp(t) <==> Respects(t) && Outermost(t) >= 8
    ensures PowerExp(t) <==> Respects(t) && Outermost(t) >= 9
    ensures PrimaryExp(t) <==> Respects(t) && Outermost(t) >= 11
    decreases t
  {
    hide Left, Right, IsComparison, IsAdditive, IsMultiplicative;
    hide OrExp, AndExp, ComparisonExp, ConcatExp, AdditiveExp, MultiplicativeExp, UnaryExp, PowerExp, PrimaryExp;
    Productions(t);
    match t {
      case Leaf(_) =>
      case Paren(e) => Levels(e);
      case Unary(_, e) =>
        Levels(e);
        if Respects(e) {
          EdgesOf(e);
        }
        if e.Binary? {
          PrioritiesAre(e.op);
        }
      case Binary(op, a, b) =>
        Levels(a);
        Levels(b);
        PrioritiesAre(op);
        Exclusive(op);
        OperandsFit(op, a, b);
        if a.Binary? {
          PrioritiesAre(a.op);
        }
    }
  }

  lemma Exclusive(op: BinOp)
    ensures IsComparison(op) ==> op != OrOp && op != AndOp && op != Concat && op != Pow && !IsAdditive(op) && !IsMultiplicative(op)
    ensures IsAdditive(op) ==> op != OrOp && op != AndOp && op != Concat && op != Pow && !IsMultiplicative(op)
    ensures IsMultiplicative(op) ==> op != OrOp && op != AndOp && op != Concat && op != Pow
  {
  }

  /** What an operator may have on its sides. */
  lemma OperandsFit(op: BinOp, a: Tree, b: Tree)
    ensures Respects(Binary(op, a, b)) <==>
              && Respects(a) && Respects(b)
              && Outermost(a) >= (if op == Concat then 6 else if op == Pow then 11 else Left(op))
              && Outermost(b) >= (if op == Concat then 5 else if op == Pow then 8 else if IsComparison(op) then 5 else Left(op) + 1)
  {
    hide Left, Right, IsComparison, IsAdditive, IsMultiplicative;
    PrioritiesAre(op);
    Exclusive(op);
    if Respects(a) && Respects(b) {
      EdgesOf(a);
      EdgesOf(b);
      if a.Binary? {
        PrioritiesAre(a.op);
        Exclusive(a.op);
      }
      if b.Binary? {
        PrioritiesAre(b.op);
        Exclusive(b.op);
      }
    }
  }

  // ------------------------------------------------------------- what the parser does

  /** The priorities of the parser are the precedence of the manual: what it reads back from its own
      tokens are exactly the trees of the grammar. */
  lemma ReadsTheGrammar(t: Tree)
    ensures SubExpr(Flatten(t), 0) == Parsed(t, []) <==> OrExp(t)
  {
    ReadBackIff(t);
    Levels(t);
  }

  /** And all that it reads is of the grammar, with exactly the tokens it has read. */
  lemma ReadsOnlyTheGrammar(toks: seq<Token>)
    requires SubExpr(toks, 0).Parsed?
    ensures OrExp(SubExpr(toks, 0).t) && Flatten(SubExpr(toks, 0).t) + SubExpr(toks, 0).rest == toks
  {
    SubExprSound(toks, 0);
    Levels(SubExpr(toks, 0).t);
  }

  /** The rank of an operator in the table of the manual, from lower to higher priority. */
  function Rank(op: BinOp): nat {
    if op == OrOp then 1 else if op == AndOp then 2 else if IsComparison(op) then 3 else if op == Concat then 4
    else if IsAdditive(op) then 5 else if IsMultiplicative(op) then 6 else 8
  }

  predicate RightAssociative(op: BinOp) {
    op == Concat || op == Pow
  }

  /** Does `x op1 y op2 z` mean `(x op1 y) op2 z`? */
  predicate GroupsLeft(op1: BinOp, op2: BinOp) {
    Rank(op1) > Rank(op2) || (Rank(op1) == Rank(op2) && !RightAssociative(op1))
  }

  /** Two binary operators, whichever they are. */
  lemma TwoOperators(x: int, op1: BinOp, y: int, op2: BinOp, z: int)
    ensures var toks := [Simple(x), BinToken(op1), Simple(y), BinToken(op2), Simple(z)];
            SubExpr(toks, 0) == Parsed(if GroupsLeft(op1, op2) then Binary(op2, Binary(op1, Leaf(x), Leaf(y)), Leaf(z))
                                       else Binary(op1, Leaf(x), Binary(op2, Leaf(y), Leaf(z))), [])
  {
    hide Left, Right, IsComparison, IsAdditive, IsMultiplicative, SubExpr, BinToken, Respects;
    var t := if GroupsLeft(op1, op2) then Binary(op2, Binary(op1, Leaf(x), Leaf(y)), Leaf(z))
             else Binary(op1, Leaf(x), Binary(op2, Leaf(y), Leaf(z)));
    PrioritiesAre(op1);
    PrioritiesAre(op2);
    Exclusive(op1);
    Exclusive(op2);
    LeafRespects(x);
    LeafRespects(y);
    LeafRespects(z);
    OperandsFit(t.op, t.a, t.b);
    OperandsFit(op1, Leaf(x), Leaf(y));
    OperandsFit(op2, Leaf(y), Leaf(z));
    ReadBackIff(t);
    FlatPair(op1, Leaf(x), Leaf(y));
    FlatPair(op2, Leaf(y), Leaf(z));
    FlatPair(t.op, t.a, t.b);
    assert Flatten(t) == [Simple(x), BinToken(op1), Simple(y), BinToken(op2), Simple(z)];
  }

  lemma LeafRespects(x: int)
    ensures Respects(Leaf(x)) && Outermost(Leaf(x)) == TOP
  {
  }

  lemma FlatPair(op: BinOp, a: Tree, b: Tree)
    ensures Flatten(Binary(op, a, b)) == Flatten(a) + [BinToken(op)] + Flatten(b)
    ensures a.Leaf? ==> Flatten(a) == [Simple(a.id)]
    ensures b.Leaf? ==> Flatten(b) == [Simple(b.id)]
    ensures a.Unary? && a.e.Leaf? ==> Flatten(a) == [UnToken(a.u), Simple(a.e.id)]
    ensures b.Unary? && b.e.Leaf? ==> Flatten(b) == [UnToken(b.u), Simple(b.e.id)]
  {
    hide BinToken, UnToken;
  }

  /** An operator in front of one between: only `^` binds tighter. */
  lemma UnaryAndBinary(u: UnOp, x: int, op: BinOp, y: int)
    ensures var toks := [UnToken(u), Simple(x), BinToken(op), Simple(y)];
            SubExpr(toks, 0) == Parsed(if op == Pow then Unary(u, Binary(op, Leaf(x), Leaf(y)))
                                       else Binary(op, Unary(u, Leaf(x)), Leaf(y)), [])
  {
    hide Left, Right, IsComparison, IsAdditive, IsMultiplicative, SubExpr, BinToken, UnToken;
    var t := if op == Pow then Unary(u, Binary(op, Leaf(x), Leaf(y))) else Binary(op, Unary(u, Leaf(x)), Leaf(y));
    PrioritiesAre(op);
    Exclusive(op);
    OperandsFit(op, Leaf(x), Leaf(y));
    OperandsFit(op, Unary(u, Leaf(x)), Leaf(y));
    ReadBackIff(t);
    FlatPair(op, Leaf(x), Leaf(y));
    FlatPair(op, Unary(u, Leaf(x)), Leaf(y));
    assert Flatten(t) == [UnToken(u), Simple(x), BinToken(op), Simple(y)];
  }

  /** The other way round: behind a binary operator, whichever it is, a unary one takes its operand. */
  lemma BinaryAndUnary(x: int, op: BinOp, u: UnOp, y: int)
    ensures SubExpr([Simple(x), BinToken(op), UnToken(u), Simple(y)], 0) == Parsed(Binary(op, Leaf(x), Unary(u, Leaf(y))), [])
  {
    hide Left, Right, IsComparison, IsAdditive, IsMultiplicative, SubExpr, BinToken, UnToken;
    var t := Binary(op, Leaf(x), Unary(u, Leaf(y)));
    PrioritiesAre(op);
    Exclusive(op);
    assert Respects(Unary(u, Leaf(y)));
    OperandsFit(op, Leaf(x), Unary(u, Leaf(y)));
    ReadBackIff(t);
    FlatPair(op, Leaf(x), Unary(u, Leaf(y)));
    assert Flatten(t) == [Simple(x), BinToken(op), UnToken(u), Simple(y)];
  }
}
