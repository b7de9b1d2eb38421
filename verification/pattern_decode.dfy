/**
 Reading a pattern, and the patterns whose matching never raises an error.
 */
module PatternDecode {
  import opened Patterns

  // ------------------------------------------------------------- one item

  datatype End = Next(ep: int) | Bad(fault: Fault)

  /** The loop of `classend` behind `[` or `[^`: the place behind the closing bracket. */
  function BracketEnd(pat: string, q: int): (r: End)
    requires q >= 0
    ensures r.Next? ==> q + 1 < r.ep <= |pat|
    decreases |pat| - q
  {
    if At(pat, q) == ZERO then Bad(MissingBracket)
    else
      var q2 := if At(pat, q) == ESC && At(pat, q + 1) != ZERO then q + 2 else q + 1;
      if At(pat, q2) != ']' then BracketEnd(pat, q2) else Next(q2 + 1)
  }

  /** `classend` */
  function ClassEnd(pat: string, p: int): (r: End)
    requires 0 <= p < |pat|
    ensures r.Next? ==> p < r.ep <= |pat|
  {
    if pat[p] == ESC then (if At(pat, p + 1) == ZERO then Bad(EndsWithPercent) else Next(p + 2))
    else if pat[p] == '[' then BracketEnd(pat, if At(pat, p + 1) == '^' then p + 2 else p + 1)
    else Next(p + 1)
  }

  /** The members of a bracket class, as `matchbracketclass` goes through them. */
  function Members(pat: string, q: int, ec: int): seq<Member>
    decreases ec - q
  {
    if q >= ec then []
    else if At(pat, q) == ESC then [Class(At(pat, q + 1))] + Members(pat, q + 2, ec)
    else if At(pat, q + 1) == '-' && q + 2 < ec then [Range(At(pat, q), At(pat, q + 2))] + Members(pat, q + 3, ec)
    else [One(At(pat, q))] + Members(pat, q + 1, ec)
  }

  function BracketAt(pat: string, p: int, ec: int): Cls {
    if At(pat, p + 1) == '^' then Bracket(true, Members(pat, p + 2, ec)) else Bracket(false, Members(pat, p + 1, ec))
  }

  /** What the item from `p` to `ep` stands for. */
  function ClsAt(pat: string, p: int, ep: int): Cls
    requires 0 <= p < |pat|
  {
    if pat[p] == '.' then Any
    else if pat[p] == ESC then Esc(At(pat, p + 1))
    else if pat[p] == '[' then BracketAt(pat, p, ep - 1)
    else Lit(pat[p])
  }

  /** The items of a pattern from `p` on. */
  function Decode(pat: string, p: int): seq<Item>
    requires p >= 0
    decreases |pat| - p, 0
  {
    var c, d := At(pat, p), At(pat, p + 1);
    if c == ZERO then []
    else if c == '(' then (if d == ')' then [PositionCapture] + Decode(pat, p + 2) else [OpenCapture] + Decode(pat, p + 1))
    else if c == ')' then [CloseCapture] + Decode(pat, p + 1)
    else if c == ESC && d == 'b' then
      if At(pat, p + 2) == ZERO || At(pat, p + 3) == ZERO then [Malformed(Unbalanced)]
      else [Balance(At(pat, p + 2), At(pat, p + 3))] + Decode(pat, p + 4)
    else if c == ESC && d == 'f' then
      if At(pat, p + 2) != '[' then [Malformed(NoFrontierSet)]
      else
        match ClassEnd(pat, p + 2)
        case Bad(f) => [Malformed(f)]
        case Next(ep) => [Frontier(BracketAt(pat, p + 2, ep - 1))] + Decode(pat, ep)
    else if c == ESC && IsDigit(d) then [BackRef(d)] + Decode(pat, p + 2)
    else if c == '$' && d == ZERO then [AtEnd]
    else
      match ClassEnd(pat, p)
      case Bad(f) => [Malformed(f)]
      case Next(ep) => DecodeRep(pat, ClsAt(pat, p, ep), ep)
  }

  /** The suffix behind a class. */
  function DecodeRep(pat: string, x: Cls, ep: int): seq<Item>
    requires ep >= 0
    decreases |pat| - ep, 1
  {
    var c := At(pat, ep);
    if c == '?' then [Chars(x, Optional)] + Decode(pat, ep + 1)
    else if c == '*' then [Chars(x, Star)] + Decode(pat, ep + 1)
    else if c == '+' then [Chars(x, Plus)] + Decode(pat, ep + 1)
    else if c == '-' then [Chars(x, Lazy)] + Decode(pat, ep + 1)
    else [Chars(x, Once)] + Decode(pat, ep)
  }

  // ------------------------------------------------------------- well-formed patterns

  /** Which captures are still open: the pattern alone decides that. */
  function OpenOnes(caps: seq<Cap>): (o: seq<bool>)
    ensures |o| == |caps| && forall i :: 0 <= i < |caps| ==> o[i] == (caps[i].len == CAP_UNFINISHED)
  {
    if caps == [] then [] else OpenOnes(caps[..|caps| - 1]) + [caps[|caps| - 1].len == CAP_UNFINISHED]
  }

  function LastOpen(o: seq<bool>): (l: int)
    ensures -1 <= l < |o|
  {
    if o == [] then -1 else if o[|o| - 1] then |o| - 1 else LastOpen(o[..|o| - 1])
  }

  /** Captures are closed when something is open, and referred to when they are closed. */
  predicate WellFormed(items: seq<Item>, o: seq<bool>)
    decreases |items|
  {
    items == [] ||
    match items[0]
    case OpenCapture => |o| < MAXCAPTURES && WellFormed(items[1..], o + [true])
    case PositionCapture => |o| < MAXCAPTURES && WellFormed(items[1..], o + [false])
    case CloseCapture => LastOpen(o) >= 0 && WellFormed(items[1..], o[LastOpen(o) := false])
    case BackRef(d) =>
      var l := d as int - '1' as int;
      0 <= l < |o| && !o[l] && WellFormed(items[1..], o)
    case Malformed(_) => false
    case _ => WellFormed(items[1..], o)
  }

  lemma {:induction false} LastOpenIs(caps: seq<Cap>)
    ensures LastOpen(OpenOnes(caps)) == ToClose(caps)
    decreases |caps|
  {
    if caps != [] {
      LastOpenIs(caps[..|caps| - 1]);
      assert OpenOnes(caps)[..|caps| - 1] == OpenOnes(caps[..|caps| - 1]);
    }
  }

  ghost predicate NoError(os: seq<Out>) {
    forall i :: 0 <= i < |os| ==> os[i].Done?
  }

  /** Captures begin where the match has been already. */
  ghost predicate Begun(caps: seq<Cap>, s: int) {
    forall i :: 0 <= i < |caps| ==> caps[i].init <= s
  }

  lemma ClosedCaps(caps: seq<Cap>, s: int)
    requires Begun(caps, s) && LastOpen(OpenOnes(caps)) >= 0
    ensures var l := ToClose(caps);
            && l == LastOpen(OpenOnes(caps)) && l >= 0
            && OpenOnes(caps[l := Cap(caps[l].init, s - caps[l].init)]) == OpenOnes(caps)[l := false]
            && Begun(caps[l := Cap(caps[l].init, s - caps[l].init)], s)
  {
    LastOpenIs(caps);
  }

  lemma RefLength(src: string, s: int, caps: seq<Cap>, d: char)
    requires s >= 0 && Begun(caps, s)
    requires var l := d as int - '1' as int; 0 <= l < |caps| && !OpenOnes(caps)[l]
    ensures var l := RefIndex(caps, d); l >= 0 && (Again(src, s, caps[l]) ==> caps[l].len >= 0 && Begun(caps, s + caps[l].len))
  {
  }

  lemma AddedCaps(caps: seq<Cap>, s: int, len: int)
    requires Begun(caps, s)
    ensures Begun(caps + [Cap(s, len)], s) && OpenOnes(caps + [Cap(s, len)]) == OpenOnes(caps) + [len == CAP_UNFINISHED]
  {
  }

  lemma BegunLater(caps: seq<Cap>, s: int, s': int)
    requires Begun(caps, s) && s <= s'
    ensures Begun(caps, s')
  {
  }

  /** Matching a well-formed pattern raises no error, on any subject. */
  lemma {:induction false} WellFormedMatches(src: string, items: seq<Item>, s: int, caps: seq<Cap>)
    requires s >= 0 && WellFormed(items, OpenOnes(caps)) && Begun(caps, s)
    ensures NoError(Outs(src, items, s, caps))
    decreases |items|, 0, 0
  {
    hide In, MaxRun, BalanceOf, Again, Greedy, FewerFirst, Fits, Begun, OpenOnes, LastOpen, ToClose;
    if items != [] {
      var rest := items[1..];
      match items[0] {
        case Chars(x, rep) =>
          WellFormedChars(src, items, x, rep, s, caps);
        case OpenCapture =>
          AddedCaps(caps, s, CAP_UNFINISHED);
          WellFormedMatches(src, rest, s, caps + [Cap(s, CAP_UNFINISHED)]);
        case PositionCapture =>
          AddedCaps(caps, s, CAP_POSITION);
          WellFormedMatches(src, rest, s, caps + [Cap(s, CAP_POSITION)]);
        case CloseCapture =>
          ClosedCaps(caps, s);
          WellFormedMatches(src, rest, s, caps[ToClose(caps) := Cap(caps[ToClose(caps)].init, s - caps[ToClose(caps)].init)]);
        case BackRef(d) =>
          RefLength(src, s, caps, d);
          if Again(src, s, caps[RefIndex(caps, d)]) {
            WellFormedMatches(src, rest, s + caps[RefIndex(caps, d)].len, caps);
          }
        case Balance(b, c) =>
          if BalanceOf(src, s, b, c) >= 0 {
            BegunLater(caps, s, BalanceOf(src, s, b, c));
            WellFormedMatches(src, rest, BalanceOf(src, s, b, c), caps);
          }
        case Frontier(x) =>
          WellFormedMatches(src, rest, s, caps);
        case AtEnd =>
          WellFormedMatches(src, rest, s, caps);
      }
    }
  }

  lemma {:induction false} WellFormedChars(src: string, items: seq<Item>, x: Cls, rep: Rep, s: int, caps: seq<Cap>)
    requires s >= 0 && items != [] && items[0] == Chars(x, rep) && WellFormed(items, OpenOnes(caps)) && Begun(caps, s)
    ensures NoError(Outs(src, items, s, caps))
    decreases |items| - 1, 2, 0
  {
    hide Outs, Greedy, FewerFirst, MaxRun, Fits;
    var rest := items[1..];
    OutsChars(src, items, x, rep, s, caps);
    WellFormedRuns(src, rest, s, MaxRun(src, s, x), caps);
    WellFormedMatches(src, rest, s, caps);
    WellFormedMatches(src, rest, s + 1, caps);
    WellFormedRuns(src, rest, s + 1, MaxRun(src, s + 1, x), caps);
  }

  lemma RunsUnfold(src: string, rest: seq<Item>, s: int, n: nat, caps: seq<Cap>)
    ensures Greedy(src, rest, s, n, caps) == Outs(src, rest, s + n, caps) + (if n > 0 then Greedy(src, rest, s, n - 1, caps) else [])
    ensures FewerFirst(src, rest, s, n, caps) == Outs(src, rest, s, caps) + (if n > 0 then FewerFirst(src, rest, s + 1, n - 1, caps) else [])
  {
  }

  lemma NoErrorConcat(a: seq<Out>, b: seq<Out>)
    requires NoError(a) && NoError(b)
    ensures NoError(a + b) && NoError([])
  {
  }

  lemma {:induction false} WellFormedRuns(src: string, rest: seq<Item>, s: int, n: nat, caps: seq<Cap>)
    requires s >= 0 && WellFormed(rest, OpenOnes(caps)) && Begun(caps, s)
    ensures NoError(Greedy(src, rest, s, n, caps)) && NoError(FewerFirst(src, rest, s, n, caps))
    decreases |rest|, 1, n
  {
    hide *;
    RunsUnfold(src, rest, s, n, caps);
    BegunLater(caps, s, s + n);
    WellFormedMatches(src, rest, s + n, caps);
    WellFormedMatches(src, rest, s, caps);
    NoErrorConcat(Outs(src, rest, s, caps), Outs(src, rest, s, caps));
    if n > 0 {
      WellFormedRuns(src, rest, s, n - 1, caps);
      BegunLater(caps, s, s + 1);
      WellFormedRuns(src, rest, s + 1, n - 1, caps);
      NoErrorConcat(Outs(src, rest, s + n, caps), Greedy(src, rest, s, n - 1, caps));
      NoErrorConcat(Outs(src, rest, s, caps), FewerFirst(src, rest, s + 1, n - 1, caps));
    } else {
      NoErrorConcat(Outs(src, rest, s + n, caps), []);
      NoErrorConcat(Outs(src, rest, s, caps), []);
    }
  }

  // ------------------------------------------------------------- preference

  /** The greedy suffixes take the longest run after which the rest matches. */
  lemma {:induction false} GreedyTakesLongest(src: string, rest: seq<Item>, s: int, n: nat, caps: seq<Cap>) returns (q: int)
    requires s >= 0 && Greedy(src, rest, s, n, caps) != []
    ensures s <= q <= s + n && Outs(src, rest, q, caps) != [] && Greedy(src, rest, s, n, caps)[0] == Outs(src, rest, q, caps)[0]
    ensures forall j :: q < j <= s + n ==> Outs(src, rest, j, caps) == []
    decreases n
  {
    hide Outs;
    q := s + n;
    if Outs(src, rest, s + n, caps) == [] {
      assert Greedy(src, rest, s, n, caps) == if n > 0 then Greedy(src, rest, s, n - 1, caps) else [];
      q := GreedyTakesLongest(src, rest, s, n - 1, caps);
    }
  }

  /** The lazy one takes the shortest. */
  lemma {:induction false} LazyTakesShortest(src: string, rest: seq<Item>, s: int, n: nat, caps: seq<Cap>) returns (q: int)
    requires s >= 0 && FewerFirst(src, rest, s, n, caps) != []
    ensures s <= q <= s + n && Outs(src, rest, q, caps) != [] && FewerFirst(src, rest, s, n, caps)[0] == Outs(src, rest, q, caps)[0]
    ensures forall j :: s <= j < q ==> Outs(src, rest, j, caps) == []
    decreases n
  {
    hide Outs;
    q := s;
    if Outs(src, rest, s, caps) == [] {
      assert FewerFirst(src, rest, s, n, caps) == if n > 0 then FewerFirst(src, rest, s + 1, n - 1, caps) else [];
      q := LazyTakesShortest(src, rest, s + 1, n - 1, caps);
    }
  }
}
