/**
 The matcher as it is written: backtracking by mutual recursion, with captures that are changed
 in place and changed back when a try fails.
 */
module PatternMatcher {
  import opened Patterns
  import opened PatternDecode

  datatype Res = Fail | Matched(e: int) | Raise(fault: Fault)

  /** What the matcher owes for a list of matches: the first one, with its captures; nothing, and the
      captures as they were, if there is none; the error, if that comes first. */
  ghost predicate Gives(os: seq<Out>, before: seq<Cap>, r: Res, after: seq<Cap>) {
    if os == [] then r.Fail? && after == before
    else
      match os[0]
      case Done(e, caps) => r == Matched(e) && after == caps
      case Error(f) => r == Raise(f)
  }

  /** Captures lie inside the subject. */
  ghost predicate Inside(src: string, caps: seq<Cap>) {
    forall i :: 0 <= i < |caps| ==> 0 <= caps[i].init && caps[i].init + caps[i].len <= |src| && caps[i].init <= |src|
  }

  predicate AnyMember(c: char, ms: seq<Member>) {
    exists i :: 0 <= i < |ms| && InMember(c, ms[i])
  }

  lemma AnyMemberStep(c: char, m: Member, ms: seq<Member>)
    ensures AnyMember(c, [m] + ms) <==> InMember(c, m) || AnyMember(c, ms)
  {
    var all := [m] + ms;
    if AnyMember(c, ms) {
      var i :| 0 <= i < |ms| && InMember(c, ms[i]);
      assert all[i + 1] == ms[i];
    }
    if InMember(c, m) {
      assert all[0] == m;
    }
  }

  lemma BracketIs(c: char, pat: string, p: int, ec: int)
    ensures In(c, BracketAt(pat, p, ec)) ==
              if At(pat, p + 1) == '^' then !AnyMember(c, Members(pat, p + 2, ec)) else AnyMember(c, Members(pat, p + 1, ec))
    ensures !AnyMember(c, [])
  {
    hide InMember, Members;
  }

  lemma GreedyStep(src: string, rest: seq<Item>, s: int, n: nat, caps: seq<Cap>)
    ensures Outs(src, rest, s + n, caps) != [] ==> Greedy(src, rest, s, n, caps) != [] && Greedy(src, rest, s, n, caps)[0] == Outs(src, rest, s + n, caps)[0]
    ensures Outs(src, rest, s + n, caps) == [] ==> Greedy(src, rest, s, n, caps) == if n > 0 then Greedy(src, rest, s, n - 1, caps) else []
  {
    hide Outs;
  }

  lemma LazyStep(src: string, rest: seq<Item>, s: int, n: nat, caps: seq<Cap>)
    ensures Outs(src, rest, s, caps) != [] ==> FewerFirst(src, rest, s, n, caps) != [] && FewerFirst(src, rest, s, n, caps)[0] == Outs(src, rest, s, caps)[0]
    ensures Outs(src, rest, s, caps) == [] ==> FewerFirst(src, rest, s, n, caps) == if n > 0 then FewerFirst(src, rest, s + 1, n - 1, caps) else []
  {
    hide Outs;
  }

  lemma FirstOfTwo(a: seq<Out>, b: seq<Out>, before: seq<Cap>, r: Res, after: seq<Cap>)
    ensures a != [] && Gives(a, before, r, after) ==> Gives(a + b, before, r, after)
    ensures a == [] && Gives(b, before, r, after) ==> Gives(a + b, before, r, after)
  {
    if a == [] {
      assert a + b == b;
    }
  }

  class MatchState {
    const src: string
    const pat: string
    const capture: array<Cap>
    var level: nat

    ghost predicate Valid()
      reads this, capture
    {
      && capture.Length == MAXCAPTURES && level <= MAXCAPTURES && Inside(src, capture[..level])
    }

    ghost function Caps(): seq<Cap>
      requires Valid()
      reads this, capture
    {
      capture[..level]
    }

    constructor (src: string, pat: string)
      ensures Valid() && this.src == src && this.pat == pat && Caps() == [] && fresh(capture)
    {
      this.src, this.pat, level := src, pat, 0;
      capture := new Cap[MAXCAPTURES](_ => Cap(0, 0));
    }

    // ----------------------------------------------------------- classes

    /** `classend` */
    method ClassEnd(p: int) returns (r: End)
      requires 0 <= p < |pat|
      ensures r == PatternDecode.ClassEnd(pat, p)
    {
      if pat[p] == ESC {
        if At(pat, p + 1) == ZERO {
          return Bad(EndsWithPercent);
        }
        return Next(p + 2);
      } else if pat[p] == '[' {
        var q := p + 1;
        if At(pat, q) == '^' {
          q := q + 1;
        }
        ghost var goal := BracketEnd(pat, q);
        while true
          invariant q > p && BracketEnd(pat, q) == goal
          decreases |pat| - q
        {
          if At(pat, q) == ZERO {
            return Bad(MissingBracket);
          }
          q := q + 1;
          if At(pat, q - 1) == ESC && At(pat, q) != ZERO {
            q := q + 1;
          }
          if At(pat, q) == ']' {
            return Next(q + 1);
          }
        }
      }
      r := Next(p + 1);
    }

    /** `matchbracketclass` */
    method MatchBracketClass(c: char, p: int, ec: int) returns (res: bool)
      ensures res == In(c, BracketAt(pat, p, ec))
    {
      hide InClass, AnyMember;
      BracketIs(c, pat, p, ec);
      var sig := true;
      var q := p;
      if At(pat, p + 1) == '^' {
        sig := false;
        q := q + 1;
      }
      q := q + 1;
      ghost var ms := Members(pat, q, ec);
      while q < ec
        invariant q > p && AnyMember(c, ms) == AnyMember(c, Members(pat, q, ec))
        decreases ec - q
      {
        if At(pat, q) == ESC {
          AnyMemberStep(c, Class(At(pat, q + 1)), Members(pat, q + 2, ec));
          q := q + 1;
          if InClass(c, At(pat, q)) {
            return sig;
          }
        } else if At(pat, q + 1) == '-' && q + 2 < ec {
          AnyMemberStep(c, Range(At(pat, q), At(pat, q + 2)), Members(pat, q + 3, ec));
          q := q + 2;
          if At(pat, q - 2) <= c && c <= At(pat, q) {
            return sig;
          }
        } else {
          AnyMemberStep(c, One(At(pat, q)), Members(pat, q + 1, ec));
          if At(pat, q) == c {
            return sig;
          }
        }
        q := q + 1;
      }
      res := !sig;
    }

    /** `singlematch` */
    method SingleMatch(c: char, p: int, ep: int) returns (res: bool)
      requires 0 <= p < |pat|
      ensures res == In(c, ClsAt(pat, p, ep))
    {
      if pat[p] == '.' {
        res := true;
      } else if pat[p] == ESC {
        res := InClass(c, At(pat, p + 1));
      } else if pat[p] == '[' {
        res := MatchBracketClass(c, p, ep - 1);
      } else {
        res := pat[p] == c;
      }
    }

    // ----------------------------------------------------------- items without repetition

    /** `matchbalance`, once its two characters are known to be there */
    method MatchBalance(s: int, b: char, e: char) returns (r: int)
      requires 0 <= s <= |src| && b != ZERO
      ensures r == BalanceOf(src, s, b, e) && forall x :: Balanced(src, s, x, b, e) <==> x == r && x >= 0
    {
      BalanceIs(src, s, b, e);
      hide Balanced;
      if At(src, s) != b {
        return -1;
      }
      var depth := 1;
      var q := s + 1;
      while q < |src|
        invariant q > s && depth > 0 && BalanceEnd(src, q, b, e, depth) == BalanceEnd(src, s + 1, b, e, 1)
      {
        if src[q] == e {
          depth := depth - 1;
          if depth == 0 {
            return q + 1;
          }
        } else if src[q] == b {
          depth := depth + 1;
        }
        q := q + 1;
      }
      r := -1;
    }

    /** `capture_to_close` */
    method CaptureToClose() returns (l: int)
      requires Valid()
      ensures l == ToClose(Caps())
    {
      l := level - 1;
      assert capture[..level][..l + 1] == capture[..l + 1];
      while l >= 0
        invariant -1 <= l < level && ToClose(capture[..l + 1]) == ToClose(Caps())
      {
        if capture[l].len == CAP_UNFINISHED {
          return;
        }
        assert capture[..l + 1][..l] == capture[..l];
        l := l - 1;
      }
    }

    /** `check_capture` */
    method CheckCapture(digit: char) returns (l: int)
      requires Valid()
      ensures l == RefIndex(Caps(), digit)
    {
      l := digit as int - '1' as int;
      if l < 0 || l >= level || capture[l].len == CAP_UNFINISHED {
        l := -1;
      }
    }

    // ----------------------------------------------------------- repetition

    /** `max_expand` */
    method MaxExpand(s: int, p: int, ep: int) returns (r: Res)
      requires Valid() && 0 <= s <= |src| && 0 <= p < ep <= |pat|
      modifies this, capture
      ensures Valid()
      ensures Gives(Greedy(src, Decode(pat, ep + 1), s, MaxRun(src, s, ClsAt(pat, p, ep)), old(Caps())), old(Caps()), r, Caps())
      decreases |pat| - ep, 3
    {
      hide Outs, In, Decode, Greedy, ClsAt;
      ghost var x := ClsAt(pat, p, ep);
      var i := 0;
      var more := false;
      if s < |src| {
        more := SingleMatch(src[s], p, ep);
      }
      while more
        invariant i >= 0 && s + i <= |src| && i + MaxRun(src, s + i, x) == MaxRun(src, s, x)
        invariant Valid() && Caps() == old(Caps())
        invariant more == Fits(src, s + i, x)
        decreases |src| - i, more
      {
        i := i + 1;
        more := false;
        if s + i < |src| {
          more := SingleMatch(src[s + i], p, ep);
        }
      }
      ghost var rest := Decode(pat, ep + 1);
      ghost var goal := Greedy(src, rest, s, i, old(Caps()));
      while i >= 0
        invariant -1 <= i && s + i <= |src| && Valid() && Caps() == old(Caps())
        invariant goal == if i >= 0 then Greedy(src, rest, s, i, old(Caps())) else []
      {
        GreedyStep(src, rest, s, i, old(Caps()));
        r := Match(s + i, ep + 1);
        if !r.Fail? {
          return;
        }
        i := i - 1;
      }
      r := Fail;
    }

    /** `min_expand` */
    method MinExpand(from: int, p: int, ep: int) returns (r: Res)
      requires Valid() && 0 <= from <= |src| && 0 <= p < ep <= |pat|
      modifies this, capture
      ensures Valid()
      ensures Gives(FewerFirst(src, Decode(pat, ep + 1), from, MaxRun(src, from, ClsAt(pat, p, ep)), old(Caps())), old(Caps()), r, Caps())
      decreases |pat| - ep, 3
    {
      hide Outs, In, Decode, FewerFirst, ClsAt;
      ghost var x, rest := ClsAt(pat, p, ep), Decode(pat, ep + 1);
      ghost var goal := FewerFirst(src, rest, from, MaxRun(src, from, x), old(Caps()));
      var s := from;
      while true
        invariant from <= s <= |src| && Valid() && Caps() == old(Caps())
        invariant goal == FewerFirst(src, rest, s, MaxRun(src, s, x), old(Caps()))
        decreases |src| - s
      {
        LazyStep(src, rest, s, MaxRun(src, s, x), old(Caps()));
        r := Match(s, ep + 1);
        if !r.Fail? {
          return;
        }
        var more := false;
        if s < |src| {
          more := SingleMatch(src[s], p, ep);
        }
        if !more {
          return Fail;
        }
        s := s + 1;
      }
    }

    // ----------------------------------------------------------- captures

    /** `start_capture`: the capture is taken back if the rest does not match. */
    method StartCapture(s: int, p: int, what: int) returns (r: Res)
      requires Valid() && 0 <= s <= |src| && 0 <= p <= |pat| && (what == CAP_UNFINISHED || what == CAP_POSITION)
      modifies this, capture
      ensures Valid()
      ensures Gives(if |old(Caps())| >= MAXCAPTURES then [Error(TooManyCaptures)] else Outs(src, Decode(pat, p), s, old(Caps()) + [Cap(s, what)]),
                    old(Caps()), r, Caps())
      decreases |pat| - p, 3
    {
      hide Outs, Decode;
      if level >= MAXCAPTURES {
        return Raise(TooManyCaptures);
      }
      capture[level] := Cap(s, what);
      level := level + 1;
      assert capture[..level] == old(Caps()) + [Cap(s, what)];
      r := Match(s, p);
      if r.Fail? {
        level := level - 1;
        assert capture[..level] == capture[..level + 1][..level] == old(Caps());
      }
    }

    /** `end_capture`: the capture is open again if the rest does not match. */
    method EndCapture(s: int, p: int) returns (r: Res)
      requires Valid() && 0 <= s <= |src| && 0 <= p <= |pat|
      modifies this, capture
      ensures Valid()
      ensures var l := ToClose(old(Caps()));
              Gives(if l < 0 then [Error(BadCapture)]
                    else Outs(src, Decode(pat, p), s, old(Caps())[l := Cap(old(Caps())[l].init, s - old(Caps())[l].init)]),
                    old(Caps()), r, Caps())
      decreases |pat| - p, 3
    {
      hide Outs, Decode;
      var l := CaptureToClose();
      if l < 0 {
        return Raise(BadCapture);
      }
      ghost var caps := Caps();
      capture[l] := Cap(capture[l].init, s - capture[l].init);
      assert capture[..level] == caps[l := Cap(caps[l].init, s - caps[l].init)];
      r := Match(s, p);
      if r.Fail? {
        assert capture[l] == capture[..level][l];
        capture[l] := Cap(capture[l].init, CAP_UNFINISHED);
        assert capture[..level] == caps;
      }
    }

    /** `match_capture`: where the text of the capture ends if it comes again, or -1. */
    method MatchCapture(s: int, l: int) returns (e: int)
      requires Valid() && 0 <= s <= |src| && 0 <= l < level
      ensures e == if Again(src, s, Caps()[l]) then s + Caps()[l].len else -1
    {
      var c := capture[l];
      assert c == Caps()[l];
      if 0 <= c.len <= |src| - s && src[c.init..c.init + c.len] == src[s..s + c.len] {
        e := s + c.len;
      } else {
        e := -1;
      }
    }

    // ----------------------------------------------------------- match

    /** The cases `%b`, `%f` and `%0` to `%9` of `match`, which only look. */
    method StepEscape(s: int, p: int) returns (st: Step)
      requires Valid() && 0 <= s <= |src| && 0 <= p && At(pat, p) == ESC
      requires At(pat, p + 1) == 'b' || At(pat, p + 1) == 'f' || IsDigit(At(pat, p + 1))
      ensures Continues(src, pat, s, p, Caps(), st, Caps())
    {
      hide Outs, Decode, In, PatternDecode.ClassEnd, BalanceOf;
      DecodeCases(pat, p);
      OutsItem(src, Decode(pat, p), s, Caps());
      var d := At(pat, p + 1);
      if d == 'b' {
        if At(pat, p + 2) == ZERO || At(pat, p + 3) == ZERO {
          return Return(Raise(Unbalanced));
        }
        var e := MatchBalance(s, At(pat, p + 2), At(pat, p + 3));
        st := if e < 0 then Return(Fail) else Goto(e, p + 4);
      } else if d == 'f' {
        if At(pat, p + 2) != '[' {
          return Return(Raise(NoFrontierSet));
        }
        var end := ClassEnd(p + 2);
        if end.Bad? {
          return Return(Raise(end.fault));
        }
        var before := MatchBracketClass(At(src, s - 1), p + 2, end.ep - 1);
        var here := MatchBracketClass(At(src, s), p + 2, end.ep - 1);
        st := if before || !here then Return(Fail) else Goto(s, end.ep);
      } else {
        var l := CheckCapture(d);
        if l < 0 {
          return Return(Raise(BadCaptureIndex));
        }
        var e := MatchCapture(s, l);
        st := if e < 0 then Return(Fail) else Goto(e, p + 2);
      }
    }

    /** The case of `match` for a class and its suffix. */
    method StepClass(s: int, p: int) returns (st: Step)
      requires Valid() && 0 <= s <= |src| && 0 <= p && ClassCase(At(pat, p), At(pat, p + 1))
      modifies this, capture
      ensures Valid() && Continues(src, pat, s, p, old(Caps()), st, Caps())
      decreases |pat| - p, 1
    {
      hide Outs, Decode, In, ClsAt, PatternDecode.ClassEnd, Greedy, FewerFirst, MaxRun;
      DecodeCases(pat, p);
      var end := ClassEnd(p);
      if end.Bad? {
        OutsItem(src, Decode(pat, p), s, Caps());
        return Return(Raise(end.fault));
      }
      var ep := end.ep;
      var m := false;
      if s < |src| {
        m := SingleMatch(src[s], p, ep);
      }
      var suffix := At(pat, ep);
      RepCases(src, pat, ClsAt(pat, p, ep), ep, s, Caps());
      if suffix == '?' {
        if m {
          ghost var caps := Caps();
          var r := Match(s + 1, ep + 1);
          FirstOfTwo(Outs(src, Decode(pat, ep + 1), s + 1, caps), Outs(src, Decode(pat, ep + 1), s, caps), caps, r, Caps());
          if !r.Fail? {
            return Return(r);
          }
        }
        EmptyFirst(Outs(src, Decode(pat, ep + 1), s, Caps()));
        st := Goto(s, ep + 1);
      } else if suffix == '*' {
        var r := MaxExpand(s, p, ep);
        st := Return(r);
      } else if suffix == '+' {
        if !m {
          return Return(Fail);
        }
        var r := MaxExpand(s + 1, p, ep);
        st := Return(r);
      } else if suffix == '-' {
        var r := MinExpand(s, p, ep);
        st := Return(r);
      } else {
        st := if m then Goto(s + 1, ep) else Return(Fail);
      }
    }

    /** `match`: the first match in the order of preference, and a failed try leaves the captures as
        they were. */
    method Match(from: int, start: int) returns (r: Res)
      requires Valid() && 0 <= from <= |src| && 0 <= start
      modifies this, capture
      ensures Valid()
      ensures Gives(Outs(src, Decode(pat, start), from, old(Caps())), old(Caps()), r, Caps())
      decreases |pat| - start, 2
    {
      hide Outs, Decode;
      var s, p := from, start;
      while true
        invariant 0 <= s <= |src| && p >= start && Valid() && Caps() == old(Caps())
        invariant Outs(src, Decode(pat, start), from, old(Caps())) == Outs(src, Decode(pat, p), s, old(Caps()))
        decreases |pat| - p
      {
        DecodeCases(pat, p);
        var c, d := At(pat, p), At(pat, p + 1);
        if c == ZERO {
          OutsEnd(src, s, Caps());
          return Matched(s);
        } else if c == '(' {
          OutsItem(src, Decode(pat, p), s, Caps());
          if d == ')' {
            r := StartCapture(s, p + 2, CAP_POSITION);
          } else {
            r := StartCapture(s, p + 1, CAP_UNFINISHED);
          }
          return;
        } else if c == ')' {
          OutsItem(src, Decode(pat, p), s, Caps());
          r := EndCapture(s, p + 1);
          return;
        } else if c == '$' && d == ZERO {
          OutsItem(src, Decode(pat, p), s, Caps());
          assert Decode(pat, p)[1..] == [];
          OutsEnd(src, s, Caps());
          if s == |src| {
            return Matched(s);
          }
          return Fail;
        }
        var st;
        if c == ESC && (d == 'b' || d == 'f' || IsDigit(d)) {
          st := StepEscape(s, p);
        } else {
          st := StepClass(s, p);
        }
        match st {
          case Return(res) =>
            return res;
          case Goto(s', p') =>
            s, p := s', p';
        }
      }
    }

    /** The loop of `str_find_aux` over the places where a match may begin: the first place that has
        one, and the first match there. An anchored pattern is tried at `init` only. */
    method FindFrom(init: int) returns (s: int, r: Res)
      requires Valid() && 0 <= init <= |src|
      modifies this, capture
      ensures Valid() && init <= s
      ensures var items := Decode(pat, if At(pat, 0) == '^' then 1 else 0);
              && (r.Fail? ==> forall q :: init <= q <= (if At(pat, 0) == '^' then init else |src|) ==> Outs(src, items, q, []) == [])
              && (!r.Fail? ==> s <= |src| && Outs(src, items, s, []) != [] && Gives(Outs(src, items, s, []), [], r, Caps())
                               && (forall q :: init <= q < s ==> Outs(src, items, q, []) == [])
                               && (At(pat, 0) == '^' ==> s == init))
    {
      hide Outs, Decode;
      var anchor := At(pat, 0) == '^';
      var p := if anchor then 1 else 0;
      s := init;
      while true
        invariant init <= s <= |src| && Valid() && (anchor ==> s == init)
        invariant forall q :: init <= q < s ==> Outs(src, Decode(pat, p), q, []) == []
        decreases |src| - s
      {
        level := 0;
        r := Match(s, p);
        if !r.Fail? {
          return;
        }
        s := s + 1;
        if s > |src| || anchor {
          return;
        }
      }
    }
  }

  /** What one turn of `match` decides: the result, or where to go on. */
  datatype Step = Return(r: Res) | Goto(s: int, p: int)

  predicate ClassCase(c: char, d: char) {
    c != ZERO && c != '(' && c != ')' && !(c == ESC && (d == 'b' || d == 'f' || IsDigit(d))) && !(c == '$' && d == ZERO)
  }

  ghost predicate Continues(src: string, pat: string, s: int, p: int, before: seq<Cap>, st: Step, after: seq<Cap>)
    requires p >= 0
  {
    match st
    case Return(r) => Gives(Outs(src, Decode(pat, p), s, before), before, r, after)
    case Goto(s', p') =>
      && p < p' && p < |pat| && 0 <= s' <= |src| && after == before
      && Outs(src, Decode(pat, p), s, before) == Outs(src, Decode(pat, p'), s', before)
  }

  lemma EmptyFirst(a: seq<Out>)
    ensures [] + a == a
  {
  }

  // ------------------------------------------------------------- facts for the methods

  lemma OutsEnd(src: string, s: int, caps: seq<Cap>)
    ensures Outs(src, [], s, caps) == [Done(s, caps)]
  {
  }

  /** How an item without repetition is matched. */
  lemma OutsItem(src: string, items: seq<Item>, s: int, caps: seq<Cap>)
    requires items != [] && !items[0].Chars?
    ensures var o, rest := Outs(src, items, s, caps), items[1..];
            match items[0]
            case OpenCapture => o == (if |caps| >= MAXCAPTURES then [Error(TooManyCaptures)] else Outs(src, rest, s, caps + [Cap(s, CAP_UNFINISHED)]))
            case PositionCapture => o == (if |caps| >= MAXCAPTURES then [Error(TooManyCaptures)] else Outs(src, rest, s, caps + [Cap(s, CAP_POSITION)]))
            case CloseCapture =>
              var l := ToClose(caps);
              o == (if l < 0 then [Error(BadCapture)] else Outs(src, rest, s, caps[l := Cap(caps[l].init, s - caps[l].init)]))
            case BackRef(d) =>
              var l := RefIndex(caps, d);
              o == (if l < 0 then [Error(BadCaptureIndex)] else if Again(src, s, caps[l]) then Outs(src, rest, s + caps[l].len, caps) else [])
            case Balance(b, e) =>
              var r := BalanceOf(src, s, b, e);
              o == (if r < 0 then [] else Outs(src, rest, r, caps))
            case Frontier(x) => o == (if !In(At(src, s - 1), x) && In(At(src, s), x) then Outs(src, rest, s, caps) else [])
            case AtEnd => o == (if s == |src| then Outs(src, rest, s, caps) else [])
            case Malformed(f) => o == [Error(f)]
  {
    hide In;
  }

  lemma DecodeCases(pat: string, p: int)
    requires p >= 0
    ensures var c, d := At(pat, p), At(pat, p + 1);
            var l := Decode(pat, p);
            && (c == ZERO ==> l == [])
            && (c != ZERO ==> p < |pat|)
            && (c == '(' && d == ')' ==> l == [PositionCapture] + Decode(pat, p + 2) && p + 2 <= |pat|)
            && (c == '(' && d != ')' ==> l == [OpenCapture] + Decode(pat, p + 1))
            && (c == ')' ==> l == [CloseCapture] + Decode(pat, p + 1))
            && (c == ESC && d == 'b' && (At(pat, p + 2) == ZERO || At(pat, p + 3) == ZERO) ==> l == [Malformed(Unbalanced)])
            && (c == ESC && d == 'b' && At(pat, p + 2) != ZERO && At(pat, p + 3) != ZERO ==>
                  l == [Balance(At(pat, p + 2), At(pat, p + 3))] + Decode(pat, p + 4))
            && (c == ESC && d == 'f' && At(pat, p + 2) != '[' ==> l == [Malformed(NoFrontierSet)])
            && (c == ESC && d == 'f' && At(pat, p + 2) == '[' ==>
                  match PatternDecode.ClassEnd(pat, p + 2)
                  case Bad(f) => l == [Malformed(f)]
                  case Next(ep) => l == [Frontier(BracketAt(pat, p + 2, ep - 1))] + Decode(pat, ep))
            && (c == ESC && IsDigit(d) ==> l == [BackRef(d)] + Decode(pat, p + 2))
            && (c == '$' && d == ZERO ==> l == [AtEnd])
            && (c != ZERO && c != '(' && c != ')' && !(c == ESC && (d == 'b' || d == 'f' || IsDigit(d))) && !(c == '$' && d == ZERO) ==>
                  match PatternDecode.ClassEnd(pat, p)
                  case Bad(f) => l == [Malformed(f)]
                  case Next(ep) => l == DecodeRep(pat, ClsAt(pat, p, ep), ep))
  {
    hide BracketEnd, Members;
  }

  /** How a class with its suffix is matched. */
  lemma RepCases(src: string, pat: string, x: Cls, ep: int, s: int, caps: seq<Cap>)
    requires 0 <= ep && 0 <= s <= |src|
    ensures var o, c := Outs(src, DecodeRep(pat, x, ep), s, caps), At(pat, ep);
            var rest := Decode(pat, ep + 1);
            && (c == '?' ==> o == (if Fits(src, s, x) then Outs(src, rest, s + 1, caps) else []) + Outs(src, rest, s, caps))
            && (c == '*' ==> o == Greedy(src, rest, s, MaxRun(src, s, x), caps))
            && (c == '+' ==> o == if Fits(src, s, x) then Greedy(src, rest, s + 1, MaxRun(src, s + 1, x), caps) else [])
            && (c == '-' ==> o == FewerFirst(src, rest, s, MaxRun(src, s, x), caps))
            && (c != '?' && c != '*' && c != '+' && c != '-' ==> o == if Fits(src, s, x) then Outs(src, Decode(pat, ep), s + 1, caps) else [])
  {
    hide Outs, Decode, In;
    var items := DecodeRep(pat, x, ep);
    OutsChars(src, items, x, items[0].rep, s, caps);
    assert items[1..] == if At(pat, ep) in ['?', '*', '+', '-'] then Decode(pat, ep + 1) else Decode(pat, ep);
  }

  // ------------------------------------------------------------- soundness and completeness

  /** For a well-formed pattern the matcher raises no error, fails exactly if there is no match, and
      what it finds is a match with the captures it has made. */
  lemma MatcherIsSoundAndComplete(src: string, pat: string, p: int, s: int, caps: seq<Cap>, r: Res, after: seq<Cap>)
    requires p >= 0 && s >= 0 && WellFormed(Decode(pat, p), OpenOnes(caps)) && Begun(caps, s)
    requires Gives(Outs(src, Decode(pat, p), s, caps), caps, r, after)
    ensures !r.Raise?
    ensures r.Fail? <==> forall e, caps' :: !Derives(src, Decode(pat, p), s, caps, e, caps')
    ensures r.Matched? ==> Derives(src, Decode(pat, p), s, caps, r.e, after)
    ensures r.Fail? ==> after == caps
  {
    hide Outs, Decode, Derives, WellFormed;
    var items := Decode(pat, p);
    var os := Outs(src, items, s, caps);
    WellFormedMatches(src, items, s, caps);
    forall e, caps'
      ensures Done(e, caps') in os <==> Derives(src, items, s, caps, e, caps')
    {
      OutsAreMatches(src, items, s, caps, e, caps');
    }
    if os != [] {
      assert os[0] in os;
      assert Derives(src, items, s, caps, os[0].e, os[0].caps);
    }
  }
}
