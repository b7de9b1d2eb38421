/**
 The expression parser as it is written: a position in the tokens, a loop and recursion.
 */
module ParserClass {
  import opened ParserExpr

  datatype Parsing = Ok(v: Tree, op: MaybeBin) | SyntaxError

  class Parser {
    const toks: seq<Token>
    var pos: nat

    ghost predicate Valid()
      reads this
    {
      pos <= |toks|
    }

    constructor (toks: seq<Token>)
      ensures Valid() && this.toks == toks && pos == 0
    {
      this.toks, pos := toks, 0;
    }

    /** The token to be read next, something that ends expressions behind the last one. */
    function Current(): Token
      reads this
    {
      if pos < |toks| then toks[pos] else Other(0)
    }

    /** `luaX_next` */
    method Next()
      requires pos < |toks|
      modifies this
      ensures pos == old(pos) + 1 && toks[old(pos)..][1..] == toks[pos..]
    {
      pos := pos + 1;
    }

    /** `simpleexp` */
    method SimpleExp() returns (r: Parsing)
      requires Valid() && pos < |toks|
      modifies this
      ensures Valid() && match ParserExpr.SimpleExp(toks[old(pos)..])
                         case Unexpected => r.SyntaxError?
                         case Parsed(t, rest) => r.Ok? && r.v == t && toks[pos..] == rest
      decreases |toks| - pos, 0
    {
      var t := Current();
      if t.Simple? {
        Next();
        return Ok(Leaf(t.id), NoBin);
      } else if t.Open? {
        Next();
        r := SubExpr(0);
        if r.SyntaxError? || Current() != Close {
          return SyntaxError;
        }
        Next();
        return Ok(Paren(r.v), NoBin);
      }
      r := SyntaxError;
    }

    /** `subexpr`: the tree, and the operator that was not treated. */
    method SubExpr(limit: nat) returns (r: Parsing)
      requires Valid()
      modifies this
      ensures Valid() && match ParserExpr.SubExpr(toks[old(pos)..], limit)
                         case Unexpected => r.SyntaxError?
                         case Parsed(t, rest) => r == Ok(t, NextBin(rest)) && toks[pos..] == rest
      decreases |toks| - pos, 1
    {
      if pos == |toks| {
        return SyntaxError;
      }
      ghost var start := pos;
      var u := GetUnOp(Current());
      if u.JustUn? {
        Next();
        r := SubExpr(UNARY_PRIORITY);
        if r.SyntaxError? {
          return;
        }
        r := Ok(Unary(u.u, r.v), NoBin);
      } else {
        r := SimpleExp();
        if r.SyntaxError? {
          return;
        }
      }
      var v := r.v;
      var op := GetBinOp(Current());
      while op.JustBin? && Left(op.op) > limit
        invariant Valid() && start < pos && op == NextBin(toks[pos..])
        invariant Loop(v, toks[pos..], limit) == ParserExpr.SubExpr(toks[start..], limit)
        decreases |toks| - pos
      {
        Next();
        var r2 := SubExpr(Right(op.op));
        if r2.SyntaxError? {
          return SyntaxError;
        }
        v := Binary(op.op, v, r2.v);
        op := r2.op;
      }
      r := Ok(v, op);
    }
  }
}
