/**
 Patterns (lstrlib.c, section 5.4.1 of the Lua 5.1 Reference Manual): what a pattern consists of,
 and which matches it has, the preferred ones first.
 */
module Patterns {

  const ESC := '%'
  const ZERO := '\0'
  const CAP_UNFINISHED := -1
  const CAP_POSITION := -2
  const MAXCAPTURES := 32

  // ------------------------------------------------------------- character classes

  predicate IsLower(c: char) { 'a' <= c <= 'z' }

  predicate IsUpper(c: char) { 'A' <= c <= 'Z' }

  predicate IsAlpha(c: char) { IsLower(c) || IsUpper(c) }

  predicate IsDigit(c: char) { '0' <= c <= '9' }

  predicate IsSpace(c: char) { c == ' ' || '\t' <= c <= '\r' }

  predicate IsControl(c: char) { c < ' ' || c == 127 as char }

  predicate IsPunct(c: char) { '!' <= c <= '~' && !IsAlpha(c) && !IsDigit(c) }

  predicate IsHex(c: char) { IsDigit(c) || 'a' <= c <= 'f' || 'A' <= c <= 'F' }

  function ToLower(c: char): char {
    if IsUpper(c) then (c as int - 'A' as int + 'a' as int) as char else c
  }

  /** `match_class`: a letter names a class, its capital the complement; anything else itself. */
  predicate InClass(c: char, cl: char) {
    match ToLower(cl)
    case 'a' => IsAlpha(c) == IsLower(cl)
    case 'c' => IsControl(c) == IsLower(cl)
    case 'd' => IsDigit(c) == IsLower(cl)
    case 'l' => IsLower(c) == IsLower(cl)
    case 'p' => IsPunct(c) == IsLower(cl)
    case 's' => IsSpace(c) == IsLower(cl)
    case 'u' => IsUpper(c) == IsLower(cl)
    case 'w' => (IsAlpha(c) || IsDigit(c)) == IsLower(cl)
    case 'x' => IsHex(c) == IsLower(cl)
    case 'z' => (c == ZERO) == IsLower(cl)
    case _ => cl == c
  }

  // ------------------------------------------------------------- what a pattern consists of

  datatype Member = Class(cl: char) | Range(lo: char, hi: char) | One(c: char)

  datatype Cls = Any | Lit(c: char) | Esc(cl: char) | Bracket(negated: bool, members: seq<Member>)

  predicate InMember(c: char, m: Member) {
    match m
    case Class(cl) => InClass(c, cl)
    case Range(lo, hi) => lo <= c <= hi
    case One(d) => c == d
  }

  /** A bracket class has what one of its members has, or, negated, everything else. */
  predicate In(c: char, x: Cls) {
    match x
    case Any => true
    case Lit(d) => d == c
    case Esc(cl) => InClass(c, cl)
    case Bracket(negated, ms) => (exists i :: 0 <= i < |ms| && InMember(c, ms[i])) != negated
  }

  datatype Rep = Once | Optional | Star | Plus | Lazy

  datatype Fault = EndsWithPercent | MissingBracket | Unbalanced | NoFrontierSet | BadCaptureIndex | BadCapture | TooManyCaptures

  datatype Item =
    | Chars(x: Cls, rep: Rep)
    | OpenCapture
    | PositionCapture
    | CloseCapture
    | BackRef(digit: char)
    | Balance(b: char, e: char)
    | Frontier(x: Cls)
    | AtEnd
    | Malformed(fault: Fault)

  // ------------------------------------------------------------- matches

  /** A capture: where it begins, and its length once it is closed. */
  datatype Cap = Cap(init: int, len: int)

  datatype Out = Done(e: int, caps: seq<Cap>) | Error(fault: Fault)

  /** `capture_to_close` */
  function ToClose(caps: seq<Cap>): (l: int)
    ensures -1 <= l < |caps| && (l >= 0 ==> caps[l].len == CAP_UNFINISHED)
  {
    if caps == [] then -1
    else if caps[|caps| - 1].len == CAP_UNFINISHED then |caps| - 1
    else ToClose(caps[..|caps| - 1])
  }

  /** The character at `s`, the terminating zero behind the end. */
  function At(t: string, s: int): char {
    if 0 <= s < |t| then t[s] else ZERO
  }

  predicate Fits(src: string, s: int, x: Cls) {
    0 <= s < |src| && In(src[s], x)
  }

  /** How often a class fits from `s` on. */
  function MaxRun(src: string, s: int, x: Cls): (n: nat)
    ensures s >= 0 ==> n == 0 || s + n <= |src|
    decreases |src| - s
  {
    if Fits(src, s, x) then 1 + MaxRun(src, s + 1, x) else 0
  }

  /** The end of a string that begins at `s` with `b` and is balanced with `e`, or -1. `depth` is the
      number of open ones. */
  function BalanceEnd(src: string, s: int, b: char, e: char, depth: nat): (r: int)
    ensures r == -1 || s < r <= |src|
    decreases |src| - s
  {
    if s < 0 || s >= |src| then -1
    else if src[s] == e then (if depth == 1 then s + 1 else BalanceEnd(src, s + 1, b, e, if depth > 0 then depth - 1 else 0))
    else if src[s] == b then BalanceEnd(src, s + 1, b, e, depth + 1)
    else BalanceEnd(src, s + 1, b, e, depth)
  }

  /** `matchbalance` */
  function BalanceOf(src: string, s: int, b: char, e: char): (r: int)
    ensures r == -1 || s < r <= |src|
  {
    if At(src, s) == b then BalanceEnd(src, s + 1, b, e, 1) else -1
  }

  /** `check_capture`: the index of a capture that can be referred to, or -1. */
  function RefIndex(caps: seq<Cap>, digit: char): (l: int)
    ensures -1 <= l < |caps|
  {
    var l := digit as int - '1' as int;
    if l < 0 || l >= |caps| || caps[l].len == CAP_UNFINISHED then -1 else l
  }

  /** The text of a capture comes again at `s`. A position capture has no text. */
  predicate Again(src: string, s: int, c: Cap) {
    c.len >= 0 && 0 <= c.init && c.init + c.len <= |src| && 0 <= s && s + c.len <= |src| &&
    src[s..s + c.len] == src[c.init..c.init + c.len]
  }

  /** All matches of the items from `s` on, in the order of preference: more repetitions first, for
      the lazy one fewer first. */
  function Outs(src: string, items: seq<Item>, s: int, caps: seq<Cap>): seq<Out>
    decreases |items|, 0, 0
  {
    if items == [] then [Done(s, caps)]
    else
      var rest := items[1..];
      match items[0]
      case Chars(x, Once) => if Fits(src, s, x) then Outs(src, rest, s + 1, caps) else []
      case Chars(x, Optional) => (if Fits(src, s, x) then Outs(src, rest, s + 1, caps) else []) + Outs(src, rest, s, caps)
      case Chars(x, Star) => Greedy(src, rest, s, MaxRun(src, s, x), caps)
      case Chars(x, Plus) => if Fits(src, s, x) then Greedy(src, rest, s + 1, MaxRun(src, s + 1, x), caps) else []
      case Chars(x, Lazy) => FewerFirst(src, rest, s, MaxRun(src, s, x), caps)
      case OpenCapture => if |caps| >= MAXCAPTURES then [Error(TooManyCaptures)] else Outs(src, rest, s, caps + [Cap(s, CAP_UNFINISHED)])
      case PositionCapture => if |caps| >= MAXCAPTURES then [Error(TooManyCaptures)] else Outs(src, rest, s, caps + [Cap(s, CAP_POSITION)])
      case CloseCapture =>
        var l := ToClose(caps);
        if l < 0 then [Error(BadCapture)] else Outs(src, rest, s, caps[l := Cap(caps[l].init, s - caps[l].init)])
      case BackRef(d) =>
        var l := RefIndex(caps, d);
        if l < 0 then [Error(BadCaptureIndex)]
        else if Again(src, s, caps[l]) then Outs(src, rest, s + caps[l].len, caps) else []
      case Balance(b, e) =>
        var r := BalanceOf(src, s, b, e);
        if r < 0 then [] else Outs(src, rest, r, caps)
      case Frontier(x) => if !In(At(src, s - 1), x) && In(At(src, s), x) then Outs(src, rest, s, caps) else []
      case AtEnd => if s == |src| then Outs(src, rest, s, caps) else []
      case Malformed(f) => [Error(f)]
  }

  /** After `n` repetitions, then after fewer. */
  function Greedy(src: string, rest: seq<Item>, s: int, n: nat, caps: seq<Cap>): seq<Out>
    decreases |rest|, 1, n
  {
    Outs(src, rest, s + n, caps) + (if n > 0 then Greedy(src, rest, s, n - 1, caps) else [])
  }

  /** At once, then after more repetitions, `n` at most. */
  function FewerFirst(src: string, rest: seq<Item>, s: int, n: nat, caps: seq<Cap>): seq<Out>
    decreases |rest|, 1, n
  {
    Outs(src, rest, s, caps) + (if n > 0 then FewerFirst(src, rest, s + 1, n - 1, caps) else [])
  }

  // ------------------------------------------------------------- matching as a relation

  /** `n` characters of the class from `s` on. */
  predicate Run(src: string, s: int, n: nat, x: Cls) {
    forall i :: s <= i < s + n ==> Fits(src, i, x)
  }

  /** The numbers of repetitions that a suffix allows. */
  predicate Allows(rep: Rep, n: nat) {
    match rep
    case Once => n == 1
    case Optional => n <= 1
    case Star => true
    case Plus => n >= 1
    case Lazy => true
  }

  /** How many times a character is in a stretch. */
  function Count(t: string, i: int, j: int, c: char): nat
    requires 0 <= i <= j <= |t|
    decreases j
  {
    if i == j then 0 else Count(t, i, j - 1, c) + if t[j - 1] == c then 1 else 0
  }

  /** From `s` on there are more `b` than `e` in every stretch up to `q`. */
  ghost predicate Unclosed(src: string, s: int, q: int, b: char, e: char) {
    0 <= s < q <= |src| && forall i :: s < i <= q ==> Count(src, s, i, b) > Count(src, s, i, e)
  }

  /** The stretch from `s` to `r` begins with `b`, ends with `e`, and has as many of one as of the
      other, while every shorter one has more `b`. If they are the same character, it is closed by
      the next one. */
  ghost predicate Balanced(src: string, s: int, r: int, b: char, e: char) {
    && 0 <= s < r - 1 && r <= |src| && src[s] == b && src[r - 1] == e
    && if b == e then forall i :: s < i < r - 1 ==> src[i] != e
       else Unclosed(src, s, r - 1, b, e) && Count(src, s, r, b) == Count(src, s, r, e)
  }

  /** The items match the subject from `s` to `e` and turn the captures `caps` into `caps'`. */
  ghost predicate Derives(src: string, items: seq<Item>, s: int, caps: seq<Cap>, e: int, caps': seq<Cap>)
    decreases |items|
  {
    if items == [] then e == s && caps' == caps
    else
      var rest := items[1..];
      match items[0]
      case Chars(x, rep) => exists n: nat :: Allows(rep, n) && Run(src, s, n, x) && Derives(src, rest, s + n, caps, e, caps')
      case OpenCapture => |caps| < MAXCAPTURES && Derives(src, rest, s, caps + [Cap(s, CAP_UNFINISHED)], e, caps')
      case PositionCapture => |caps| < MAXCAPTURES && Derives(src, rest, s, caps + [Cap(s, CAP_POSITION)], e, caps')
      case CloseCapture =>
        var l := ToClose(caps);
        l >= 0 && Derives(src, rest, s, caps[l := Cap(caps[l].init, s - caps[l].init)], e, caps')
      case BackRef(d) =>
        var l := RefIndex(caps, d);
        l >= 0 && Again(src, s, caps[l]) && Derives(src, rest, s + caps[l].len, caps, e, caps')
      case Balance(b, c) =>
        exists r :: Balanced(src, s, r, b, c) && Derives(src, rest, r, caps, e, caps')
      case Frontier(x) => !In(At(src, s - 1), x) && In(At(src, s), x) && Derives(src, rest, s, caps, e, caps')
      case AtEnd => s == |src| && Derives(src, rest, s, caps, e, caps')
      case Malformed(_) => false
  }

  lemma {:induction false} RunIs(src: string, s: int, x: Cls, n: nat)
    requires s >= 0
    ensures Run(src, s, n, x) <==> n <= MaxRun(src, s, x)
    decreases n
  {
    if n > 0 {
      if Fits(src, s, x) {
        RunIs(src, s + 1, x, n - 1);
        assert Run(src, s, n, x) <==> Run(src, s + 1, n - 1, x) by {
          if Run(src, s + 1, n - 1, x) {
            forall i | s <= i < s + n
              ensures Fits(src, i, x)
            {
              assert i == s || s + 1 <= i < s + 1 + (n - 1);
            }
          }
        }
      } else {
        assert !Run(src, s, n, x) by {
          assert s <= s < s + n;
        }
      }
    }
  }

  lemma {:induction false} BalanceFound(src: string, s: int, q: int, b: char, e: char, depth: nat)
    requires b != e && Unclosed(src, s, q, b, e) && src[s] == b && depth == Count(src, s, q, b) - Count(src, s, q, e)
    ensures forall r :: Balanced(src, s, r, b, e) <==> r == BalanceEnd(src, q, b, e, depth) && r >= 0
    decreases |src| - q
  {
    if q < |src| {
      assert Count(src, s, q + 1, b) == Count(src, s, q, b) + if src[q] == b then 1 else 0;
      assert Count(src, s, q + 1, e) == Count(src, s, q, e) + if src[q] == e then 1 else 0;
      if src[q] == e && depth == 1 {
        assert forall r :: Balanced(src, s, r, b, e) ==> r <= q + 1;
      } else {
        BalanceFound(src, s, q + 1, b, e, if src[q] == e then depth - 1 else if src[q] == b then depth + 1 else depth);
      }
    }
  }

  lemma {:induction false} NextFound(src: string, s: int, q: int, b: char)
    requires 0 <= s < q <= |src| && src[s] == b && forall i :: s < i < q ==> src[i] != b
    ensures forall r :: Balanced(src, s, r, b, b) <==> r == BalanceEnd(src, q, b, b, 1) && r >= 0
    decreases |src| - q
  {
    if q < |src| && src[q] != b {
      NextFound(src, s, q + 1, b);
    }
  }

  /** `matchbalance` finds the balanced stretch, and there is none where it finds none. */
  lemma BalanceIs(src: string, s: int, b: char, e: char)
    requires s >= 0
    ensures forall r :: Balanced(src, s, r, b, e) <==> r == BalanceOf(src, s, b, e) && r >= 0
  {
    if s < |src| && src[s] == b {
      if b == e {
        NextFound(src, s, s + 1, b);
      } else {
        assert Count(src, s, s, b) == 0 && Count(src, s, s, e) == 0;
        assert Count(src, s, s + 1, b) == 1 && Count(src, s, s + 1, e) == 0;
        BalanceFound(src, s, s + 1, b, e, 1);
      }
    }
  }

  /** No stretch that is shorter than the balanced one has as many of one as of the other. */
  lemma BalanceIsShortest(src: string, s: int, b: char, e: char, i: int)
    requires s >= 0 && b != e && BalanceOf(src, s, b, e) >= 0 && s < i < BalanceOf(src, s, b, e)
    ensures Count(src, s, i, b) != Count(src, s, i, e)
  {
    BalanceIs(src, s, b, e);
    assert Balanced(src, s, BalanceOf(src, s, b, e), b, e);
  }

  /** The list has exactly the matches. */
  lemma {:induction false} OutsAreMatches(src: string, items: seq<Item>, s: int, caps: seq<Cap>, e: int, caps': seq<Cap>)
    requires s >= 0
    ensures Done(e, caps') in Outs(src, items, s, caps) <==> Derives(src, items, s, caps, e, caps')
    decreases |items|, 0, 0
  {
    if items != [] {
      var rest := items[1..];
      match items[0] {
        case Chars(x, rep) =>
          CharsAreMatches(src, items, x, rep, s, caps, e, caps');
        case OpenCapture =>
          OutsAreMatches(src, rest, s, caps + [Cap(s, CAP_UNFINISHED)], e, caps');
        case PositionCapture =>
          OutsAreMatches(src, rest, s, caps + [Cap(s, CAP_POSITION)], e, caps');
        case CloseCapture =>
          var l := ToClose(caps);
          if l >= 0 {
            OutsAreMatches(src, rest, s, caps[l := Cap(caps[l].init, s - caps[l].init)], e, caps');
          }
        case BackRef(d) =>
          var l := RefIndex(caps, d);
          if l >= 0 && Again(src, s, caps[l]) {
            OutsAreMatches(src, rest, s + caps[l].len, caps, e, caps');
          }
        case Balance(b, c) =>
          BalanceIs(src, s, b, c);
          if BalanceOf(src, s, b, c) >= 0 {
            assert Balanced(src, s, BalanceOf(src, s, b, c), b, c);
            OutsAreMatches(src, rest, BalanceOf(src, s, b, c), caps, e, caps');
          }
        case Frontier(x) =>
          OutsAreMatches(src, rest, s, caps, e, caps');
        case AtEnd =>
          OutsAreMatches(src, rest, s, caps, e, caps');
        case Malformed(_) =>
      }
    }
  }

  /** Repeated characters: one derivation for each number of repetitions. */
  lemma {:induction false} CharsAreMatches(src: string, items: seq<Item>, x: Cls, rep: Rep, s: int, caps: seq<Cap>, e: int, caps': seq<Cap>)
    requires s >= 0 && items != [] && items[0] == Chars(x, rep)
    ensures Done(e, caps') in Outs(src, items, s, caps) <==> Derives(src, items, s, caps, e, caps')
    decreases |items| - 1, 2, 0
  {
    hide Outs, Derives, In, Greedy, FewerFirst;
    var rest := items[1..];
    var m := MaxRun(src, s, x);
    RunsAllowed(src, s, x);
    OutsChars(src, items, x, rep, s, caps);
    DerivesChars(src, items, x, rep, s, m, caps, e, caps');
    OutsAreMatches(src, rest, s, caps, e, caps');
    if Fits(src, s, x) {
      OutsAreMatches(src, rest, s + 1, caps, e, caps');
    }
    match rep {
      case Star => GreedyAre(src, rest, s, m, caps, e, caps');
      case Lazy => FewerAre(src, rest, s, m, caps, e, caps');
      case Plus =>
        if Fits(src, s, x) {
          GreedyAre(src, rest, s + 1, m - 1, caps, e, caps');
        }
      case _ =>
    }
  }

  lemma RunsAllowed(src: string, s: int, x: Cls)
    requires s >= 0
    ensures forall n: nat :: Run(src, s, n, x) <==> n <= MaxRun(src, s, x)
    ensures Fits(src, s, x) <==> MaxRun(src, s, x) >= 1
    ensures Fits(src, s, x) ==> MaxRun(src, s, x) == 1 + MaxRun(src, s + 1, x)
  {
    forall n: nat
      ensures Run(src, s, n, x) <==> n <= MaxRun(src, s, x)
    {
      RunIs(src, s, x, n);
    }
  }

  lemma OutsChars(src: string, items: seq<Item>, x: Cls, rep: Rep, s: int, caps: seq<Cap>)
    requires items != [] && items[0] == Chars(x, rep)
    ensures var rest := items[1..];
            var o := Outs(src, items, s, caps);
            match rep
            case Once => o == (if Fits(src, s, x) then Outs(src, rest, s + 1, caps) else [])
            case Optional => o == (if Fits(src, s, x) then Outs(src, rest, s + 1, caps) else []) + Outs(src, rest, s, caps)
            case Star => o == Greedy(src, rest, s, MaxRun(src, s, x), caps)
            case Plus => o == (if Fits(src, s, x) then Greedy(src, rest, s + 1, MaxRun(src, s + 1, x), caps) else [])
            case Lazy => o == FewerFirst(src, rest, s, MaxRun(src, s, x), caps)
  {
  }

  /** A derivation of the rest from some place between `from` and `last`. */
  ghost predicate AfterSome(src: string, rest: seq<Item>, from: int, last: int, caps: seq<Cap>, e: int, caps': seq<Cap>) {
    exists q :: from <= q <= last && Derives(src, rest, q, caps, e, caps')
  }

  lemma DerivesChars(src: string, items: seq<Item>, x: Cls, rep: Rep, s: int, m: nat, caps: seq<Cap>, e: int, caps': seq<Cap>)
    requires s >= 0 && items != [] && items[0] == Chars(x, rep)
    requires forall n: nat :: Run(src, s, n, x) <==> n <= m
    ensures Derives(src, items, s, caps, e, caps') <==>
              match rep
              case Once => m >= 1 && Derives(src, items[1..], s + 1, caps, e, caps')
              case Optional => (m >= 1 && Derives(src, items[1..], s + 1, caps, e, caps')) || Derives(src, items[1..], s, caps, e, caps')
              case Star => AfterSome(src, items[1..], s, s + m, caps, e, caps')
              case Plus => AfterSome(src, items[1..], s + 1, s + m, caps, e, caps')
              case Lazy => AfterSome(src, items[1..], s, s + m, caps, e, caps')
  {
    hide Run;
    var rest := items[1..];
    if Derives(src, items, s, caps, e, caps') {
      DerivesStep(src, items, x, rep, s, caps, e, caps');
      var n: nat :| Allows(rep, n) && Run(src, s, n, x) && Derives(src, rest, s + n, caps, e, caps');
      assert n == 0 ==> s + n == s;
      assert n == 1 ==> s + n == s + 1;
    }
    forall q | s <= q <= s + m && Allows(rep, q - s) && Derives(src, rest, q, caps, e, caps')
      ensures Derives(src, items, s, caps, e, caps')
    {
      var n: nat := q - s;
      assert Run(src, s, n, x) && s + n == q;
      DerivesStep(src, items, x, rep, s, caps, e, caps');
    }
  }

  lemma DerivesStep(src: string, items: seq<Item>, x: Cls, rep: Rep, s: int, caps: seq<Cap>, e: int, caps': seq<Cap>)
    requires items != [] && items[0] == Chars(x, rep)
    ensures Derives(src, items, s, caps, e, caps') <==>
              exists n: nat :: Allows(rep, n) && Run(src, s, n, x) && Derives(src, items[1..], s + n, caps, e, caps')
  {
    hide Run;
  }

  lemma {:induction false} GreedyAre(src: string, rest: seq<Item>, s: int, m: nat, caps: seq<Cap>, e: int, caps': seq<Cap>)
    requires s >= 0
    ensures Done(e, caps') in Greedy(src, rest, s, m, caps) <==> AfterSome(src, rest, s, s + m, caps, e, caps')
    decreases |rest|, 1, m
  {
    hide Outs, Derives;
    OutsAreMatches(src, rest, s + m, caps, e, caps');
    if m > 0 {
      GreedyAre(src, rest, s, m - 1, caps, e, caps');
    }
  }

  lemma {:induction false} FewerAre(src: string, rest: seq<Item>, s: int, m: nat, caps: seq<Cap>, e: int, caps': seq<Cap>)
    requires s >= 0
    ensures Done(e, caps') in FewerFirst(src, rest, s, m, caps) <==> AfterSome(src, rest, s, s + m, caps, e, caps')
    decreases |rest|, 1, m
  {
    hide Outs, Derives;
    OutsAreMatches(src, rest, s, caps, e, caps');
    if m > 0 {
      FewerAre(src, rest, s + 1, m - 1, caps, e, caps');
    }
  }
}
