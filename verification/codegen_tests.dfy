/**
 Tests: a comparison or a TEST/TESTSET with its jump splits the runs that reach it
 (jumponcond, invertjump, condjump).
 */
module CodeGenTests {
  import opened Vm
  import opened CodeGen
  import opened CodeGenLists
  import opened CodeGenSem
  import opened CodeGenValues
  import opened CodeGenRegs
  import opened CodeGenOperands
  import opened CodeGenCond
  import opened CodeGenYield
  import opened Sequences

  function Tested(c: Code, i: Instr): Code {
    c + [i, Jmp(NO_JUMP)]
  }

  /** What a test with an open jump makes of the runs that reach it. */
  function Split(g: Env, i: Instr, n: int, o: Outcome): Outcome
    requires i.IsTest()
  {
    match o
    case Fall(q) => if Jumps(g, i, q) then Exit(n, q) else o
    case _ => o
  }

  lemma TestAppended(c: Code, i: Instr, open: set<int>, last: int, g: Env, r: Regs)
    requires CodeOk(c, open, last, []) && i.IsTest()
    ensures CodeOk(Tested(c, i), open + {|c| + 1}, last, [])
    ensures Exec(Tested(c, i), open + {|c| + 1}, g, 0, r) == Split(g, i, |c| + 1, Exec(c, open, g, 0, r))
  {
    var c', open' := Tested(c, i), open + {|c| + 1};
    EntryAtEnd(c, open);
    ExecAppend(c, [i, Jmp(NO_JUMP)], open, open', g, 0, r);
    forall pc | 0 <= pc < |c'|
      ensures WfAt(c', open', pc)
    {
      if pc < |c| {
        assert WfAt(c, open, pc);
        assert forall t :: Entry(c, t) ==> Entry(c', t);
      }
    }
  }

  /** Without its last test, behind which nothing jumps, the code is still well formed. */
  lemma CutTest(c: Code, i: Instr, open: set<int>, last: int)
    requires CodeOk(Tested(c, i), open + {|c| + 1}, last, []) && last <= |c| && i.IsTest() && |c| + 1 !in open
    ensures CodeOk(c, open, last, [])
  {
    var c' := Tested(c, i);
    assert c'[|c|] == i && c'[|c| + 1] == Jmp(NO_JUMP);
    forall j | j in open
      ensures 0 <= j < |c| && c[j].Jmp?
    {
      assert j in open + {|c| + 1};
    }
    forall pc | 0 <= pc < |c|
      ensures WfAt(c, open, pc)
    {
      assert WfAt(c', open + {|c| + 1}, pc) && c'[pc] == c[pc];
    }
  }

  /** A comparison taken apart. */
  lemma ComparisonIs(fs: Fs, e: Exp, ls: Ls, outer: set<int>, g: Env, r: Regs)
    requires Ok(fs, e, ls, outer) && e.k.VJmp?
    ensures var n := |fs.code|;
            var d, i := fs.code[..n - 2], fs.code[n - 2];
            && n >= 2 && i.Cmp? && fs.code == Tested(d, i) && e.k.info == n - 1 && |d| == n - 2
            && CodeOk(d, Open(ls, outer), fs.lasttarget, [])
            && Raw(fs, e.k, ls, outer, g, r) == Split(g, i, n - 1, Exec(d, Open(ls, outer), g, 0, r))
  {
    hide Listed, Wf, Targets;
    var n := |fs.code|;
    var d, i := fs.code[..n - 2], fs.code[n - 2];
    assert fs.code == Tested(d, i);
    assert AllOpen(e.k, ls, outer) == Open(ls, outer) + {|d| + 1};
    CutTest(d, i, Open(ls, outer), fs.lasttarget);
    TestAppended(d, i, Open(ls, outer), fs.lasttarget, g, r);
    NormNone(Exec(fs.code, AllOpen(e.k, ls, outer), g, 0, r));
  }

  function Inverted(i: Instr): Instr
    requires i.Cmp?
  {
    Cmp(i.op, !i.cond, i.rb, i.rc)
  }

  /** Before `codenot` exchanges the lists and takes their values: the end has the negated value, the
      lists are left on the truth that they are for. */
  ghost predicate Negates(g: Env, c: Code, k: Kind, ls: Ls, b: Outcome, y: Res, top: int, o: Outcome) {
    match b
    case Fall(r0) =>
      (match o
       case Fall(r) => SameBelow(r0, r, top) && y.Here? && y.c == Bare && HasValue(g, c, k, r, y.v)
       case Exit(j, r) => SameBelow(r0, r, top) &&
         (|| (j in ls.j && 0 <= j < |c| && y.Here? && y.c == CarryAt(c, j, r) && HasValue(g, c, k, r, y.v))
          || (j in ls.t && 0 <= j < |c| && y == Left(false, Bare))
          || (j in ls.f && 0 <= j < |c| && y == Left(true, Bare))
          || (k == VJmp(j) && y == Here(Bool(true), Bare)))
       case Stuck => false)
    case _ => o == b
  }

  /** A run that reaches the inverted comparison goes the other way. */
  lemma InvertedSplits(g: Env, c: Code, c': Code, i: Instr, k: Kind, ls: Ls, b: Outcome, y: Res, top: int, n: int, o: Outcome)
    requires i.Cmp? && k == VJmp(n) && Meets(c, k, ls, g, b, y, top, Split(g, i, n, o))
    requires n !in ls.t && n !in ls.f && (b.Exit? ==> b.j != n)
    requires 0 <= n < |c| && |c'| == |c| && !IsSet(c', n) && ls.j == []
    requires forall j :: 0 <= j < |c| ==> IsSet(c', j) == IsSet(c, j) && (IsSet(c, j) ==> c'[Control(c', j)] == c[Control(c, j)])
    requires o.Exit? ==> o.j != n
    ensures Forks(c', ls, [n], b, Go(EndsCompare, true, y), true, top, Split(g, Inverted(i), n, o))
    ensures Negates(g, c', k, ls, b, Negate(EndsCompare, y), top, Split(g, Inverted(i), n, o))
  {
  }

  lemma InvertedMarks(c: Code, c': Code, ls: Ls, p: int)
    requires |c'| == |c| && 0 <= p < |c| && !IsSet(c', p) && ls.j == []
    requires forall j :: 0 <= j < |c| ==> IsSet(c', j) == IsSet(c, j)
    ensures MarksIn(c', ls) == MarksIn(c, ls).(j := false) && !SetIn(c', [p])
  {
    hide IsSet;
  }

  lemma InvertIs(fs: Fs, e: Exp, ls: Ls, outer: set<int>)
    requires Ok(fs, e, ls, outer) && e.k.VJmp?
    ensures var n := |fs.code|;
            var c' := InvertJump(fs.code, e.k.info);
            && n >= 2 && c' == Tested(fs.code[..n - 2], Inverted(fs.code[n - 2])) && |c'| == n && !IsSet(c', n - 1)
            && (forall i :: 0 <= i < n && i != n - 2 ==> c'[i] == fs.code[i])
            && (forall j :: 0 <= j < n ==> IsSet(c', j) == IsSet(fs.code, j))
            && (forall j :: 0 <= j < n && IsSet(fs.code, j) ==> c'[Control(c', j)] == fs.code[Control(fs.code, j)])
  {
    hide Listed, Wf, Targets;
  }

  lemma InvertLists(fs: Fs, e: Exp, ls: Ls, outer: set<int>)
    requires Ok(fs, e, ls, outer) && e.k.VJmp?
    ensures var c' := InvertJump(fs.code, e.k.info);
            Listed(c', e.t, e.f, fs.jpc, ls, outer) && OuterSame(fs.code, c', outer) && |c'| == |fs.code|
  {
    hide Wf, Targets;
    var c, c', n := fs.code, InvertJump(fs.code, e.k.info), |fs.code|;
    InvertIs(fs, e, ls, outer);
    ListInCode(c, e.t, ls.t);
    ListInCode(c, e.f, ls.f);
    ListFrame(c, c', e.t, ls.t);
    ListFrame(c, c', e.f, ls.f);
    OuterInside(fs, e, ls, outer);
  }

  lemma OuterInside(fs: Fs, e: Exp, ls: Ls, outer: set<int>)
    requires Ok(fs, e, ls, outer) && e.k.VJmp?
    ensures forall j :: j in outer ==> 0 <= j < |fs.code| - 2
  {
    var n := |fs.code|;
    forall j | j in outer
      ensures 0 <= j < n - 2
    {
      assert j in Open(ls, outer) && j in AllOpen(e.k, ls, outer);
    }
  }

  lemma OneApart(fs: Fs, e: Exp, ls: Ls, outer: set<int>, p: int)
    requires Listed(fs.code, e.t, e.f, fs.jpc, ls, outer) && p !in Open(ls, outer)
    ensures Apart(ls, [p], outer) && SetOf([p]) == {p} && p !in ls.t && p !in ls.f && p !in ls.j
  {
    ListedParts(fs.code, e.t, e.f, fs.jpc, ls, outer);
    JumpApart(ls, outer, p);
  }

  /** A comparison as a condition that lets control through when it holds: it is inverted. */
  lemma InvertedForks(fs: Fs, e: Exp, ls: Ls, outer: set<int>, g: Env, r: Regs, b: Outcome, y: Res, top: int)
    requires Holds(fs, e, ls, outer, g, r, b, y, top) && e.k.VJmp?
    ensures var fs' := fs.(code := InvertJump(fs.code, e.k.info));
            Forked(fs', e, ls, e.k.info, [e.k.info], outer, g, r, b, Go(EndsCompare, true, y), true, top) && Kept(fs, fs', outer)
            && MarksIn(fs'.code, ls) == MarksIn(fs.code, ls).(j := false) && !SetIn(fs'.code, [e.k.info])
  {
    hide Wf, Targets, Exec, OuterSame, Meets, Forks, IsList, Listed, InvertJump, CleanStart, Apart;
    var n, p := |fs.code|, e.k.info;
    var d, i, open := fs.code[..n - 2], fs.code[n - 2], Open(ls, outer);
    var c' := InvertJump(fs.code, p);
    ComparisonIs(fs, e, ls, outer, g, r);
    InvertIs(fs, e, ls, outer);
    InvertLists(fs, e, ls, outer);
    OneApart(fs, e, ls, outer, p);
    TestAppended(d, Inverted(i), open, fs.lasttarget, g, r);
    ForkLists(fs, c', e, ls, outer, p);
    SplitBase(d, open, g, r, p);
    InvertedMarks(fs.code, c', ls, p);
    InvertedSplits(g, fs.code, c', i, e.k, ls, b, y, top, p, Exec(d, open, g, 0, r));
  }

  /** And one that lets it through when it fails. */
  lemma StraightForks(fs: Fs, e: Exp, ls: Ls, outer: set<int>, g: Env, r: Regs, b: Outcome, y: Res, top: int)
    requires Holds(fs, e, ls, outer, g, r, b, y, top) && e.k.VJmp?
    ensures Forked(fs, e, ls, e.k.info, [e.k.info], outer, g, r, b, Go(EndsCompare, false, y), false, top) && Kept(fs, fs, outer)
    ensures MarksIn(fs.code, ls) == MarksIn(fs.code, ls).(j := false) && !SetIn(fs.code, [e.k.info])
  {
    hide Wf, Targets, Exec, OuterSame, Meets, Forks, IsList, Listed, CleanStart, Apart;
    var p := e.k.info;
    OneApart(fs, e, ls, outer, p);
    OuterRefl(fs.code, outer);
    ForkLists(fs, fs.code, e, ls, outer, p);
    JumpForks(g, fs.code, p, ls, b, y, top, Raw(fs, e.k, ls, outer, g, r));
  }

  lemma OuterRefl(c: Code, outer: set<int>)
    ensures OuterSame(c, c, outer)
  {
  }

  lemma ForkLists(fs: Fs, c': Code, e: Exp, ls: Ls, outer: set<int>, p: int)
    requires Listed(c', e.t, e.f, fs.jpc, ls, outer) && 0 <= p < |c'| && c'[p] == Jmp(NO_JUMP)
    ensures IsList(c', e.t, ls.t) && IsList(c', e.f, ls.f) && IsList(c', fs.jpc, ls.j) && IsList(c', p, [p])
  {
    LastAlone(c', p);
  }

  /** An open jump is one that is in the code. */
  lemma SplitBase(d: Code, open: set<int>, g: Env, r: Regs, p: int)
    requires Wf(d, open) && p > |d|
    ensures Exec(d, open, g, 0, r).Exit? ==> Exec(d, open, g, 0, r).j != p
  {
    ExitInside(d, open, g, 0, r);
  }

  lemma {:induction false} ExitInside(c: Code, open: set<int>, g: Env, pc: int, r: Regs)
    requires Wf(c, open)
    ensures Exec(c, open, g, pc, r).Exit? ==> 0 <= Exec(c, open, g, pc, r).j < |c|
    decreases |c| - pc
  {
    if 0 <= pc < |c| {
      hide Plain;
      var i := c[pc];
      if IsPlain(i) {
        ExitInside(c, open, g, pc + 1, Plain(g, i, r));
      } else if i.LoadBool? {
        ExitInside(c, open, g, pc + 2, r[i.a := Bool(i.v)]);
      } else if i.Jmp? {
        if pc !in open && i.sbx >= 0 {
          ExitInside(c, open, g, pc + 1 + i.sbx, r);
        }
      } else if pc + 1 < |c| && c[pc + 1].Jmp? {
        if !Jumps(g, i, r) {
          ExitInside(c, open, g, pc + 2, r);
        } else if pc + 1 !in open && c[pc + 1].sbx >= 0 {
          ExitInside(c, open, g, pc + 2 + c[pc + 1].sbx, Taken(i, r));
        }
      }
    }
  }

  lemma JumpForks(g: Env, c: Code, p: int, ls: Ls, b: Outcome, y: Res, top: int, o: Outcome)
    requires Meets(c, VJmp(p), ls, g, b, y, top, o) && 0 <= p < |c| && !IsSet(c, p) && ls.j == []
    ensures Forks(c, ls, [p], b, Go(EndsCompare, false, y), false, top, o)
  {
  }
}
