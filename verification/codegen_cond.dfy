/**
 Conditions: luaK_goiftrue and luaK_goiffalse let control through on one truth value and send it
 off through a list on the other.
 */
module CodeGenCond {
  import opened Vm
  import opened CodeGen
  import opened CodeGenLists
  import opened CodeGenSem
  import opened CodeGenValues
  import opened CodeGenClose
  import opened CodeGenRegs
  import opened CodeGenYield
  import opened CodeGenForm
  import opened Sequences

  // ------------------------------------------------------------- three ways out

  /** Lists that have no jump in common. */
  ghost predicate Apart(ls: Ls, p: seq<int>, outer: set<int>) {
    && NoDup(ls.t) && NoDup(ls.f) && NoDup(ls.j) && NoDup(p)
    && SetOf(ls.t) !! SetOf(ls.f) && SetOf(ls.t) !! SetOf(ls.j) && SetOf(ls.f) !! SetOf(ls.j)
    && SetOf(p) !! SetOf(ls.t) && SetOf(p) !! SetOf(ls.f) && SetOf(p) !! SetOf(ls.j)
    && (SetOf(ls.t) + SetOf(ls.f) + SetOf(ls.j) + SetOf(p)) !! outer
  }

  /** The code goes on, or leaves through `p` or the list that is not for `side`, as `w` says. */
  ghost predicate Forks(c: Code, ls: Ls, p: seq<int>, b: Outcome, w: Way, side: bool, top: int, o: Outcome) {
    match b
    case Fall(r0) =>
      (match o
       case Fall(r) => SameBelow(r0, r, top) && w == Arrives(Bare)
       case Exit(j, r) => SameBelow(r0, r, top) && 0 <= j < |c| &&
         (|| ((j in ls.j || j in (if side then ls.t else ls.f)) && w == Arrives(CarryAt(c, j, r)))
          || ((j in p || j in (if side then ls.f else ls.t)) && w == Leaves(CarryAt(c, j, r))))
       case Stuck => false)
    case _ => o == b
  }

  /** Before the jumps `p` have joined a list. */
  ghost predicate Forked(fs: Fs, e: Exp, ls: Ls, pc: int, p: seq<int>, outer: set<int>, g: Env, r: Regs, b: Outcome, w: Way,
                         side: bool, top: int) {
    && IsList(fs.code, e.t, ls.t) && IsList(fs.code, e.f, ls.f) && IsList(fs.code, fs.jpc, ls.j) && IsList(fs.code, pc, p)
    && Apart(ls, p, outer)
    && CodeOk(fs.code, Open(ls, outer) + SetOf(p), fs.lasttarget, ls.j)
    && Forks(fs.code, ls, p, b, w, side, top, Exec(fs.code, Open(ls, outer) + SetOf(p), g, 0, r))
    && (b.Exit? ==> b.j in outer)
  }

  /** What a condition leaves behind: control arrives at the end, or goes through the one list that is
      left, as `w` says. */
  ghost predicate Branch(fs: Fs, e: Exp, ls: Ls, outer: set<int>, g: Env, r: Regs, b: Outcome, w: Way, side: bool, top: int) {
    && Listed(fs.code, e.t, e.f, fs.jpc, ls, outer)
    && CodeOk(fs.code, Open(ls, outer), fs.lasttarget, ls.j)
    && (if side then e.t == NO_JUMP && ls.t == [] else e.f == NO_JUMP && ls.f == [])
    && Forks(fs.code, ls, [], b, w, side, top, Exec(fs.code, Open(ls, outer), g, 0, r))
    && (b.Exit? ==> b.j in outer)
  }

  lemma RelinkedForks(c: Code, c': Code, l: set<int>, ls: Ls, p: seq<int>, b: Outcome, w: Way, side: bool, top: int, o: Outcome)
    requires Relinked(c, c', l) && Forks(c, ls, p, b, w, side, top, o)
    ensures Forks(c', ls, p, b, w, side, top, o)
  {
    if b.Fall? && o.Exit? && 0 <= o.j < |c| {
      RelinkedTests(c, c', l, o.j);
    }
  }

  lemma RelinkedMarks(c: Code, c': Code, l: set<int>, x: seq<int>)
    requires Relinked(c, c', l)
    ensures SetIn(c', x) <==> SetIn(c, x)
  {
    hide IsSet;
    if SetIn(c, x) {
      var j :| j in x && 0 <= j < |c| && IsSet(c, j);
      RelinkedTests(c, c', l, j);
    }
    if SetIn(c', x) {
      var j :| j in x && 0 <= j < |c'| && IsSet(c', j);
      RelinkedTests(c, c', l, j);
    }
  }

  lemma JoinedMarks(c: Code, x: seq<int>, y: seq<int>)
    ensures SetIn(c, x + y) <==> SetIn(c, x) || SetIn(c, y)
  {
    hide IsSet;
    assert forall j :: j in x + y <==> j in x || j in y;
  }

  /** `x` takes in `p`, and the pending jumps take in `y`. */
  lemma JoinLists(c: Code, hx: int, x: seq<int>, hp: int, p: seq<int>, hj: int, j: seq<int>, hy: int, y: seq<int>)
    requires IsList(c, hx, x) && IsList(c, hp, p) && IsList(c, hj, j) && IsList(c, hy, y)
    requires NoDup(x) && NoDup(p) && NoDup(j) && NoDup(y)
    requires SetOf(x) !! SetOf(p) && SetOf(x) !! SetOf(j) && SetOf(x) !! SetOf(y)
    requires SetOf(p) !! SetOf(j) && SetOf(p) !! SetOf(y) && SetOf(j) !! SetOf(y)
    ensures var (c1, h1) := Concat(c, hx, hp);
            var (c2, h2) := Concat(c1, hj, hy);
            && Relinked(c, c2, SetOf(x) + SetOf(j)) && IsList(c2, h1, x + p) && IsList(c2, h2, j + y)
            && NoDup(x + p) && NoDup(j + y) && SetOf(x + p) == SetOf(x) + SetOf(p) && SetOf(j + y) == SetOf(j) + SetOf(y)
  {
    hide *;
    var (c1, h1) := Concat(c, hx, hp);
    JoinOne(c, hx, x, hp, p, hj, j);
    JoinOne(c, hx, x, hp, p, hy, y);
    assert (SetOf(x) + SetOf(p)) !! SetOf(j);
    JoinOne(c1, hj, j, hy, y, h1, x + p);
    RelinkedTwice(c, c1, Concat(c1, hj, hy).0, SetOf(x), SetOf(j));
  }

  /** One list takes in another; a third is not touched. */
  lemma JoinOne(c: Code, hx: int, x: seq<int>, hp: int, p: seq<int>, hz: int, z: seq<int>)
    requires IsList(c, hx, x) && IsList(c, hp, p) && IsList(c, hz, z) && NoDup(x) && NoDup(p)
    requires SetOf(x) !! SetOf(p) && SetOf(x) !! SetOf(z)
    ensures var (c1, h1) := Concat(c, hx, hp);
            && Relinked(c, c1, SetOf(x)) && IsList(c1, h1, x + p) && IsList(c1, hz, z)
            && NoDup(x + p) && SetOf(x + p) == SetOf(x) + SetOf(p)
  {
    hide *;
    NoDupJoin(x, p);
    ConcatRelinks(c, hx, x, hp, p);
    RelinkedList(c, Concat(c, hx, hp).0, SetOf(x), hz, z);
  }

  lemma RelinkedTwice(c: Code, c1: Code, c2: Code, l1: set<int>, l2: set<int>)
    requires Relinked(c, c1, l1) && Relinked(c1, c2, l2)
    ensures Relinked(c, c2, l1 + l2)
  {
  }

  /** The jumps that wait for this place arrive here as well. */
  lemma ForksHere(c: Code, ls: Ls, p: seq<int>, b: Outcome, w: Way, side: bool, top: int, o: Outcome)
    requires Forks(c, ls, p, b, w, side, top, o)
    ensures Forks(c, if side then Ls([], ls.f + p, ls.j + ls.t) else Ls(ls.t + p, [], ls.j + ls.f), [], b, w, side, top, o)
  {
  }

  /** The marks when `p` has joined the list that is left, and the other list the jumps that wait. */
  function ForkedMarks(m: Marks, away: bool, side: bool): Marks {
    if side then Marks(false, m.f || away, m.j || m.t) else Marks(m.t || away, false, m.j || m.f)
  }

  lemma RelinkedForkMarks(c: Code, c': Code, l: set<int>, ls: Ls, p: seq<int>, side: bool)
    requires Relinked(c, c', l)
    ensures MarksIn(c', if side then Ls([], ls.f + p, ls.j + ls.t) else Ls(ls.t + p, [], ls.j + ls.f)) ==
              ForkedMarks(MarksIn(c, ls), SetIn(c, p), side)
  {
    hide Relinked, IsSet;
    RelinkedMarks(c, c', l, ls.t);
    RelinkedMarks(c, c', l, ls.f);
    RelinkedMarks(c, c', l, ls.j);
    RelinkedMarks(c, c', l, p);
    if side {
      JoinedMarks(c', ls.f, p);
      JoinedMarks(c', ls.j, ls.t);
    } else {
      JoinedMarks(c', ls.t, p);
      JoinedMarks(c', ls.j, ls.f);
    }
  }

  lemma JoinTrue(fs: Fs, e: Exp, ls: Ls, pc: int, p: seq<int>, outer: set<int>, g: Env, r: Regs, b: Outcome, w: Way,
                 top: int)
    requires Forked(fs, e, ls, pc, p, outer, g, r, b, w, true, top)
    ensures var (c, f) := Concat(fs.code, e.f, pc);
            var fs' := PatchToHere(fs.(code := c), e.t);
            var ls' := Ls([], ls.f + p, ls.j + ls.t);
            Branch(fs', Exp(e.k, NO_JUMP, f), ls', outer, g, r, b, w, true, top) && Kept(fs, fs', outer)
            && fs' == fs.(code := fs'.code, jpc := fs'.jpc, lasttarget := fs'.lasttarget)
            && MarksIn(fs'.code, ls') == ForkedMarks(MarksIn(fs.code, ls), SetIn(fs.code, p), true)
  {
    hide Concat, Relinked, Exec, Forks, Wf, Targets, SetIn;
    var (c, f) := Concat(fs.code, e.f, pc);
    var (c2, j2) := Concat(c, fs.jpc, e.t);
    var ls', l := Ls([], ls.f + p, ls.j + ls.t), SetOf(ls.f) + SetOf(ls.j);
    SameLength(fs.code, e.f, pc);
    JoinLists(fs.code, e.f, ls.f, pc, p, fs.jpc, ls.j, e.t, ls.t);
    ListedFrom(c2, NO_JUMP, f, j2, ls', outer);
    JoinedCode(fs, c2, l, ls, p, ls', outer, g, r, b, w, true, top);
    RelinkedForkMarks(fs.code, c2, l, ls, p, true);
  }

  lemma JoinFalse(fs: Fs, e: Exp, ls: Ls, pc: int, p: seq<int>, outer: set<int>, g: Env, r: Regs, b: Outcome, w: Way,
                  top: int)
    requires Forked(fs, e, ls, pc, p, outer, g, r, b, w, false, top)
    ensures var (c, t) := Concat(fs.code, e.t, pc);
            var fs' := PatchToHere(fs.(code := c), e.f);
            var ls' := Ls(ls.t + p, [], ls.j + ls.f);
            Branch(fs', Exp(e.k, t, NO_JUMP), ls', outer, g, r, b, w, false, top) && Kept(fs, fs', outer)
            && fs' == fs.(code := fs'.code, jpc := fs'.jpc, lasttarget := fs'.lasttarget)
            && MarksIn(fs'.code, ls') == ForkedMarks(MarksIn(fs.code, ls), SetIn(fs.code, p), false)
  {
    hide Concat, Relinked, Exec, Forks, Wf, Targets, SetIn;
    var (c, t) := Concat(fs.code, e.t, pc);
    var (c2, j2) := Concat(c, fs.jpc, e.f);
    var ls', l := Ls(ls.t + p, [], ls.j + ls.f), SetOf(ls.t) + SetOf(ls.j);
    SameLength(fs.code, e.t, pc);
    JoinLists(fs.code, e.t, ls.t, pc, p, fs.jpc, ls.j, e.f, ls.f);
    ListedFrom(c2, t, NO_JUMP, j2, ls', outer);
    JoinedCode(fs, c2, l, ls, p, ls', outer, g, r, b, w, false, top);
    RelinkedForkMarks(fs.code, c2, l, ls, p, false);
  }

  lemma JoinedCode(fs: Fs, c2: Code, l: set<int>, ls: Ls, p: seq<int>, ls': Ls, outer: set<int>, g: Env, r: Regs, b: Outcome,
                   w: Way, side: bool, top: int)
    requires Apart(ls, p, outer) && CodeOk(fs.code, Open(ls, outer) + SetOf(p), fs.lasttarget, ls.j)
    requires Forks(fs.code, ls, p, b, w, side, top, Exec(fs.code, Open(ls, outer) + SetOf(p), g, 0, r))
    requires b.Exit? ==> b.j in outer
    requires Relinked(fs.code, c2, l) && l <= SetOf(ls.t) + SetOf(ls.f) + SetOf(ls.j)
    requires ls' == if side then Ls([], ls.f + p, ls.j + ls.t) else Ls(ls.t + p, [], ls.j + ls.f)
    ensures |c2| == |fs.code| && CodeOk(c2, Open(ls', outer), |c2|, ls'.j) && OuterSame(fs.code, c2, outer)
    ensures Forks(c2, ls', [], b, w, side, top, Exec(c2, Open(ls', outer), g, 0, r))
  {
    hide Relinked, Exec, Forks, Wf;
    var open := Open(ls, outer) + SetOf(p);
    JoinedOpen(ls, p, ls', outer, side);
    RelinkedLength(fs.code, c2, l);
    RelinkedCode(fs.code, c2, l, open, fs.lasttarget, ls.j);
    TargetsMore(c2, open, fs.lasttarget, |c2|);
    RelinkedRuns(fs.code, c2, l, open, g, r);
    RelinkedOuter(fs.code, c2, l, outer);
    var o := Exec(fs.code, open, g, 0, r);
    RelinkedForks(fs.code, c2, l, ls, p, b, w, side, top, o);
    ForksHere(c2, ls, p, b, w, side, top, o);
  }

  lemma RelinkedLength(c: Code, c': Code, l: set<int>)
    requires Relinked(c, c', l)
    ensures |c'| == |c|
  {
  }

  lemma TargetsMore(c: Code, open: set<int>, last: int, last': int)
    requires Targets(c, open, last) && last <= last'
    ensures Targets(c, open, last')
  {
  }

  lemma JoinedOpen(ls: Ls, p: seq<int>, ls': Ls, outer: set<int>, side: bool)
    requires ls' == if side then Ls([], ls.f + p, ls.j + ls.t) else Ls(ls.t + p, [], ls.j + ls.f)
    ensures Open(ls', outer) == Open(ls, outer) + SetOf(p)
    ensures SetOf(ls.t) + SetOf(ls.f) + SetOf(ls.j) <= Open(ls, outer)
  {
    if side {
      assert SetOf(ls.f + p) == SetOf(ls.f) + SetOf(p) && SetOf(ls.j + ls.t) == SetOf(ls.j) + SetOf(ls.t);
    } else {
      assert SetOf(ls.t + p) == SetOf(ls.t) + SetOf(p) && SetOf(ls.j + ls.f) == SetOf(ls.j) + SetOf(ls.f);
    }
  }

  // ------------------------------------------------------------- constants

  lemma ConstantForks(fs: Fs, e: Exp, ls: Ls, outer: set<int>, g: Env, r: Regs, b: Outcome, y: Res, side: bool, top: int)
    requires Holds(fs, e, ls, outer, g, r, b, y, top) && Ends(fs.code, e.k).Stays(side)
    ensures Forked(fs, e, ls, NO_JUMP, [], outer, g, r, b, Go(Ends(fs.code, e.k), side, y), side, top)
  {
    hide CodeOk, Exec, CarryAt, SameBelow, CleanStart;
    ListedParts(fs.code, e.t, e.f, fs.jpc, ls, outer);
    assert Open(ls, outer) + SetOf([]) == Open(ls, outer);
  }

  // ------------------------------------------------------------- the jump that is always taken

  lemma AlwaysLists(fs: Fs, e: Exp, ls: Ls, outer: set<int>)
    requires Ok(fs, e, ls, outer) && !e.k.VReloc? && !e.k.VJmp?
    ensures var (fs', pc) := Jump(fs);
            var p := [|fs.code|] + ls.j;
            && IsList(fs'.code, e.t, ls.t) && IsList(fs'.code, e.f, ls.f) && IsList(fs'.code, NO_JUMP, []) && IsList(fs'.code, pc, p)
            && Apart(ls.(j := []), p, outer) && |fs.code| !in ls.j
            && Open(ls.(j := []), outer) + SetOf(p) == Open(ls, outer) + {|fs.code|}
  {
    hide Wf, Targets, Jump;
    var n, p, c := |fs.code|, [|fs.code|] + ls.j, fs.code;
    var (fs', pc) := Jump(fs);
    JumpIs(fs, e.t, e.f, ls, outer);
    ListedParts(c, e.t, e.f, fs.jpc, ls, outer);
    ListInCode(c, e.t, ls.t);
    ListInCode(c, e.f, ls.f);
    PrefixSame(c, fs'.code);
    ListFrame(c, fs'.code, e.t, ls.t);
    ListFrame(c, fs'.code, e.f, ls.f);
    OpenInCode(fs, e, ls, outer);
    AddedApart(ls, outer, n);
  }

  /** A literal of the other truth: whatever comes here leaves, the pending jumps and what they have
      in tow included. */
  lemma AlwaysForks(fs: Fs, e: Exp, ls: Ls, outer: set<int>, g: Env, r: Regs, b: Outcome, y: Res, side: bool, top: int)
    requires Holds(fs, e, ls, outer, g, r, b, y, top) && Ends(fs.code, e.k).Goes(side)
    ensures var (fs', pc) := Jump(fs);
            && Forked(fs', e, ls.(j := []), pc, [|fs.code|] + ls.j, outer, g, r, b, Go(Ends(fs.code, e.k), side, y), side, top)
            && Kept(fs, fs', outer) && fs' == fs.(code := fs'.code, jpc := NO_JUMP)
            && MarksIn(fs'.code, ls.(j := [])) == MarksIn(fs.code, ls).(j := false)
            && (SetIn(fs'.code, [|fs.code|] + ls.j) <==> SetIn(fs.code, ls.j))
  {
    hide Wf, Exec, SameBelow, CleanStart, Jump, Targets, IsList, Apart, Forks, Meets, Listed, SetIn;
    var n, c := |fs.code|, fs.code;
    var (fs', pc) := Jump(fs);
    JumpIs(fs, e.t, e.f, ls, outer);
    AlwaysLists(fs, e, ls, outer);
    JumpAppended(c, fs'.code, Open(ls, outer), fs.lasttarget, g, r);
    PrefixOuter(c, fs'.code, outer);
    OpenInCode(fs, e, ls, outer);
    BaseApart(fs, e.t, e.f, ls, outer, b);
    AlwaysMarks(c, fs'.code, ls);
    AlwaysOutcome(c, fs'.code, ls, g, b, y, side, top, Exec(c, Open(ls, outer), g, 0, r), e.k);
  }

  lemma PrefixSame(c: Code, c': Code)
    requires |c| <= |c'| && c'[..|c|] == c
    ensures forall i :: 0 <= i < |c| ==> c'[i] == c[i]
  {
    forall i | 0 <= i < |c|
      ensures c'[i] == c[i]
    {
      assert c'[..|c|][i] == c'[i];
    }
  }

  lemma PrefixOuter(c: Code, c': Code, outer: set<int>)
    requires |c| <= |c'| && c'[..|c|] == c
    ensures OuterSame(c, c', outer)
  {
    PrefixSame(c, c');
  }

  lemma OpenInCode(fs: Fs, e: Exp, ls: Ls, outer: set<int>)
    requires Ok(fs, e, ls, outer) && !e.k.VReloc? && !e.k.VJmp?
    ensures forall j :: j in Open(ls, outer) ==> 0 <= j < |fs.code|
  {
  }

  lemma AddedApart(ls: Ls, outer: set<int>, n: int)
    requires forall j :: j in Open(ls, outer) ==> 0 <= j < n
    ensures n !in SetOf(ls.t) && n !in SetOf(ls.f) && n !in SetOf(ls.j) && n !in outer && n !in ls.j
    ensures SetOf([n] + ls.j) == {n} + SetOf(ls.j)
    ensures NoDup(ls.j) ==> NoDup([n] + ls.j)
  {
    assert n !in Open(ls, outer);
    assert forall j :: j in ls.j ==> j in Open(ls, outer);
    if NoDup(ls.j) {
      forall a, b | 0 <= a < b < |[n] + ls.j|
        ensures ([n] + ls.j)[a] != ([n] + ls.j)[b]
      {
        assert ls.j[b - 1] in ls.j;
      }
    }
  }

  lemma JumpAppended(c: Code, c': Code, open: set<int>, last: int, g: Env, r: Regs)
    requires Wf(c, open) && Targets(c, open, last) && |c'| == |c| + 1 && c'[..|c|] == c && c'[|c|].Jmp?
    ensures Wf(c', open + {|c|}) && Targets(c', open + {|c|}, last) && !IsSet(c', |c|)
    ensures Exec(c', open + {|c|}, g, 0, r) ==
              match Exec(c, open, g, 0, r) case Fall(q) => Exit(|c|, q) case o => o
  {
    var d := [c'[|c|]];
    var open' := open + {|c|};
    assert c' == c + d;
    EntryAtEnd(c, open);
    ExecAppend(c, d, open, open', g, 0, r);
    forall pc | 0 <= pc < |c'|
      ensures WfAt(c', open', pc)
    {
      if pc < |c| {
        assert WfAt(c, open, pc);
        assert forall t :: Entry(c, t) ==> Entry(c', t);
      }
    }
  }

  lemma PrefixMarks(c: Code, c': Code, l: seq<int>)
    requires |c| <= |c'| && c'[..|c|] == c && forall j :: j in l ==> 0 <= j < |c|
    ensures SetIn(c', l) <==> SetIn(c, l)
  {
    PrefixSame(c, c');
    SameMarks(c, c', l);
  }

  lemma AlwaysMarks(c: Code, c': Code, ls: Ls)
    requires |c'| == |c| + 1 && c'[..|c|] == c && !IsSet(c', |c|)
    requires forall j :: j in ls.t || j in ls.f || j in ls.j ==> 0 <= j < |c|
    ensures MarksIn(c', ls.(j := [])) == MarksIn(c, ls).(j := false)
    ensures SetIn(c', [|c|] + ls.j) <==> SetIn(c, ls.j)
  {
    hide IsSet;
    PrefixMarks(c, c', ls.t);
    PrefixMarks(c, c', ls.f);
    PrefixMarks(c, c', ls.j);
    JoinedMarks(c', [|c|], ls.j);
  }

  lemma AlwaysOutcome(c: Code, c': Code, ls: Ls, g: Env, b: Outcome, y: Res, side: bool, top: int, o: Outcome, k: Kind)
    requires Meets(c, k, ls, g, b, y, top, o) && k == (if side then VFalse else VTrue)
    requires |c'| == |c| + 1 && c'[..|c|] == c && !IsSet(c', |c|)
    ensures Forks(c', ls.(j := []), [|c|] + ls.j, b, Go(Ends(c, k), side, y), side, top, match o case Fall(q) => Exit(|c|, q) case _ => o)
  {
    PrefixSame(c, c');
    if b.Fall? && o.Exit? && 0 <= o.j < |c| {
      assert IsSet(c', o.j) == IsSet(c, o.j) && Control(c', o.j) == Control(c, o.j);
    }
  }
}
