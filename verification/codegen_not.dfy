/**
 codenot: the lists change places, and the jumps on them lose the values they would have brought.
 */
module CodeGenNot {
  import opened Vm
  import opened CodeGen
  import opened CodeGenLists
  import opened CodeGenSem
  import opened CodeGenValues
  import opened CodeGenClose
  import opened CodeGenRegs
  import opened CodeGenOperands
  import opened CodeGenCond
  import opened CodeGenTests
  import opened CodeGenBranch
  import opened CodeGenYield
  import opened CodeGenForm
  import opened Sequences

  /** The value is negated, the lists have not changed places yet. */
  ghost predicate Negated(fs: Fs, e: Exp, ls: Ls, outer: set<int>, g: Env, r: Regs, b: Outcome, y: Res, top: int) {
    && Ok(fs, e, ls, outer) && Negates(g, fs.code, e.k, ls, b, y, top, Raw(fs, e.k, ls, outer, g, r))
    && (b.Exit? ==> b.j in outer)
  }

  // ------------------------------------------------------------- removing the values

  /** `removevalues` on both lists. */
  function Removed(c: Code, t: int, f: int): Code {
    var c1 := RemoveAll(c, ListOf(c, t));
    RemoveAll(c1, ListOf(c1, f))
  }

  lemma RemovedIs(c: Code, t: int, f: int, jpc: int, ls: Ls, outer: set<int>)
    requires Listed(c, t, f, jpc, ls, outer) && Paired(c)
    ensures var c2 := Removed(c, t, f);
            var l := SetOf(ls.t) + SetOf(ls.f);
            && SameButOpen(c, c2, l)
            && (forall pc :: 0 <= pc < |c| && c[pc].Jmp? ==> c2[pc] == c[pc])
            && (forall pc :: 0 <= pc < |c| && pc + 1 !in l ==> c2[pc] == c[pc])
            && (forall j :: j in l && 0 <= j < |c| ==> !IsSet(c2, j))
  {
    hide RemoveAll, IsSet, Listed, NoDup, Paired;
    var open := SetOf(ls.t) + SetOf(ls.f);
    ListedParts(c, t, f, jpc, ls, outer);
    ListedHeads(c, t, f, jpc, ls, outer);
    ListOfIs(c, t, ls.t);
    RemoveAllIs(c, ls.t, open);
    var c1 := RemoveAll(c, ls.t);
    SameLists(c, c1, t, f, ls);
    ListOfIs(c1, f, ls.f);
    RemoveAllIs(c1, ls.f, open);
    var c2 := RemoveAll(c1, ls.f);
    SameTwice(c, c1, c2, open);
    forall j | j in open && 0 <= j < |c|
      ensures !IsSet(c2, j)
    {
      if j in ls.t {
        RemovedStays(c1, c2, open, j);
      }
    }
  }

  lemma ListedHeads(c: Code, t: int, f: int, jpc: int, ls: Ls, outer: set<int>)
    requires Listed(c, t, f, jpc, ls, outer)
    ensures IsList(c, t, ls.t) && IsList(c, f, ls.f) && IsList(c, jpc, ls.j)
  {
  }

  lemma SameLists(c: Code, c1: Code, t: int, f: int, ls: Ls)
    requires IsList(c, t, ls.t) && IsList(c, f, ls.f) && |c1| == |c|
    requires forall pc :: 0 <= pc < |c| && c[pc].Jmp? ==> c1[pc] == c[pc]
    ensures IsList(c1, t, ls.t) && IsList(c1, f, ls.f)
    ensures forall j :: j in SetOf(ls.t) + SetOf(ls.f) ==> 0 <= j < |c1| && c1[j].Jmp?
  {
    ListInCode(c, t, ls.t);
    ListInCode(c, f, ls.f);
    ListFrame(c, c1, t, ls.t);
    ListFrame(c, c1, f, ls.f);
  }

  lemma SameTwice(c: Code, c1: Code, c2: Code, open: set<int>)
    requires SameButOpen(c, c1, open) && SameButOpen(c1, c2, open)
    ensures SameButOpen(c, c2, open)
  {
    forall pc | 0 <= pc < |c|
      ensures AlikeAt(c, c2, open, pc)
    {
      assert AlikeAt(c, c1, open, pc) && AlikeAt(c1, c2, open, pc);
    }
  }

  lemma PairedWhole(fs: Fs, e: Exp, ls: Ls, outer: set<int>)
    requires Ok(fs, e, ls, outer)
    ensures Paired(fs.code)
  {
    hide Listed, Targets;
    WfPaired(Body(fs, e.k), AllOpen(e.k, ls, outer));
    if e.k.VReloc? {
      var c := Body(fs, e.k);
      EntryAtEnd(c, AllOpen(e.k, ls, outer));
      assert forall i :: 0 <= i < |c| ==> c[i] == fs.code[i];
    }
  }

  /** Code that has lost values runs as before. */
  lemma RemovedCode(fs: Fs, e: Exp, ls: Ls, outer: set<int>, c2: Code, g: Env, r: Regs)
    requires Ok(fs, e, ls, outer) && SameButOpen(fs.code, c2, SetOf(ls.t) + SetOf(ls.f))
    requires forall pc :: 0 <= pc < |fs.code| && fs.code[pc].Jmp? ==> c2[pc] == fs.code[pc]
    requires forall pc :: 0 <= pc < |fs.code| && pc + 1 !in SetOf(ls.t) + SetOf(ls.f) ==> c2[pc] == fs.code[pc]
    ensures var fs' := fs.(code := c2);
            && KindOk(fs', e.k, Ls(ls.f, ls.t, ls.j), outer)
            && CodeOk(Body(fs', e.k), AllOpen(e.k, ls, outer), fs.lasttarget, ls.j)
            && Raw(fs', e.k, ls, outer, g, r) == Raw(fs, e.k, ls, outer, g, r)
  {
    hide Wf, Targets, Listed;
    var fs', l, open := fs.(code := c2), SetOf(ls.t) + SetOf(ls.f), AllOpen(e.k, ls, outer);
    var d, d2 := Body(fs, e.k), Body(fs', e.k);
    ListedParts(fs.code, e.t, e.f, fs.jpc, ls, outer);
    OpenAreJumps(d, open);
    forall pc | 0 <= pc < |d|
      ensures AlikeAt(d, d2, open, pc)
    {
      assert AlikeAt(fs.code, c2, l, pc);
    }
    SameButOpenWf(d, d2, open);
    ExecSameButOpen(d, d2, open, g, 0, r);
    RemovedTargets(d, d2, open, fs.lasttarget);
    assert Open(Ls(ls.f, ls.t, ls.j), outer) == Open(ls, outer);
    if e.k.VJmp? {
      OneApart(fs, e, ls, outer, e.k.info);
    }
  }

  lemma OpenAreJumps(c: Code, open: set<int>)
    requires Wf(c, open)
    ensures AreJumps(c, open)
  {
  }

  lemma RemovedTargets(d: Code, d2: Code, open: set<int>, last: int)
    requires SameButOpen(d, d2, open) && Targets(d, open, last)
    ensures Targets(d2, open, last)
  {
    forall pc | 0 <= pc < |d2|
      ensures (d2[pc].Jmp? && pc !in open ==> pc + 1 + d2[pc].sbx <= last) && (d2[pc].LoadBool? && d2[pc].skip ==> pc + 2 <= last)
    {
      assert AlikeAt(d, d2, open, pc);
    }
  }

  lemma SwappedLists(c: Code, c2: Code, t: int, f: int, jpc: int, ls: Ls, outer: set<int>)
    requires Listed(c, t, f, jpc, ls, outer) && |c2| == |c|
    requires forall pc :: 0 <= pc < |c| && c[pc].Jmp? ==> c2[pc] == c[pc]
    ensures Listed(c2, f, t, jpc, Ls(ls.f, ls.t, ls.j), outer)
  {
    ListedParts(c, t, f, jpc, ls, outer);
    ListInCode(c, t, ls.t);
    ListInCode(c, f, ls.f);
    ListInCode(c, jpc, ls.j);
    ListFrame(c, c2, t, ls.t);
    ListFrame(c, c2, f, ls.f);
    ListFrame(c, c2, jpc, ls.j);
    ListedFrom(c2, f, t, jpc, Ls(ls.f, ls.t, ls.j), outer);
  }

  lemma RemovedOuter(c: Code, c2: Code, ls: Ls, outer: set<int>, t: int, f: int, jpc: int, open: set<int>)
    requires Listed(c, t, f, jpc, ls, outer) && |c2| == |c| && SameButOpen(c, c2, SetOf(ls.t) + SetOf(ls.f))
    requires forall pc :: 0 <= pc < |c| && pc + 1 !in SetOf(ls.t) + SetOf(ls.f) ==> c2[pc] == c[pc]
    requires forall pc :: 0 <= pc < |c| && c[pc].Jmp? ==> c2[pc] == c[pc]
    requires forall j :: j in outer && 0 <= j < |c| ==> c[j].Jmp?
    ensures OuterSame(c, c2, outer)
  {
    ListedParts(c, t, f, jpc, ls, outer);
    forall j | j in outer && 0 <= j < |c|
      ensures SameJump(c, c2, j)
    {
      assert j !in SetOf(ls.t) + SetOf(ls.f);
    }
  }

  lemma NegatesMeets(g: Env, c: Code, c2: Code, k: Kind, ls: Ls, b: Outcome, y: Res, top: int, o: Outcome)
    requires Negates(g, c, k, ls, b, y, top, o) && |c2| == |c|
    requires forall j :: (j in ls.t || j in ls.f) && 0 <= j < |c| ==> !IsSet(c2, j)
    requires forall j, q :: j in ls.j ==> CarryAt(c2, j, q) == CarryAt(c, j, q)
    requires k.VReloc? && 0 <= k.info < |c| ==> c2[k.info] == c[k.info]
    ensures Meets(c2, k, Ls(ls.f, ls.t, ls.j), g, b, y, top, o)
  {
  }

  /** The jumps that wait keep their values. */
  lemma RemovedWaits(c: Code, c2: Code, t: int, f: int, jpc: int, ls: Ls, outer: set<int>)
    requires Listed(c, t, f, jpc, ls, outer) && |c2| == |c| && SameButOpen(c, c2, SetOf(ls.t) + SetOf(ls.f))
    requires forall pc :: 0 <= pc < |c| && c[pc].Jmp? ==> c2[pc] == c[pc]
    requires forall pc :: 0 <= pc < |c| && pc + 1 !in SetOf(ls.t) + SetOf(ls.f) ==> c2[pc] == c[pc]
    ensures forall j, q :: j in ls.j ==> CarryAt(c2, j, q) == CarryAt(c, j, q)
  {
    ListedParts(c, t, f, jpc, ls, outer);
    forall j, q | j in ls.j
      ensures CarryAt(c2, j, q) == CarryAt(c, j, q)
    {
      assert j in SetOf(ls.j);
      assert SameJump(c, c2, j);
      CarrySame(c, c2, j, q);
    }
  }

  lemma OuterAreJumps(fs: Fs, e: Exp, ls: Ls, outer: set<int>)
    requires Ok(fs, e, ls, outer)
    ensures forall j :: j in outer && 0 <= j < |fs.code| ==> fs.code[j].Jmp?
  {
    forall j | j in outer && 0 <= j < |fs.code|
      ensures fs.code[j].Jmp?
    {
      assert j in AllOpen(e.k, ls, outer);
    }
  }

  /** The second half of `codenot`. */
  lemma SwapGood(fs: Fs, e: Exp, ls: Ls, outer: set<int>, g: Env, r: Regs, b: Outcome, y: Res, top: int)
    requires Negated(fs, e, ls, outer, g, r, b, y, top) && CleanStart(fs, r)
    ensures var fs' := fs.(code := Removed(fs.code, e.t, e.f));
            && Holds(fs', Exp(e.k, e.f, e.t), Ls(ls.f, ls.t, ls.j), outer, g, r, b, y, top)
            && Kept(fs, fs', outer) && MarksIn(fs'.code, Ls(ls.f, ls.t, ls.j)) == Marks(false, false, SetIn(fs.code, ls.j))
  {
    hide SetIn, Wf, Targets, Listed, Exec, Meets, Negates, Removed, IsSet, OuterSame, SameButOpen, KindOk, Paired, CodeOk;
    var c, c2, ls' := fs.code, Removed(fs.code, e.t, e.f), Ls(ls.f, ls.t, ls.j);
    PairedWhole(fs, e, ls, outer);
    RemovedIs(c, e.t, e.f, fs.jpc, ls, outer);
    RemovedLength(c, c2, SetOf(ls.t) + SetOf(ls.f));
    RemovedCode(fs, e, ls, outer, c2, g, r);
    SwappedLists(c, c2, e.t, e.f, fs.jpc, ls, outer);
    OuterAreJumps(fs, e, ls, outer);
    RemovedOuter(c, c2, ls, outer, e.t, e.f, fs.jpc, {});
    SwapOpen(e.k, ls, outer);
    RelocSame(fs, e, ls, outer, c2);
    RemovedWaits(c, c2, e.t, e.f, fs.jpc, ls, outer);
    RemovedMarks(fs, e, ls, outer, c2);
    NegatesMeets(g, c, c2, e.k, ls, b, y, top, Raw(fs, e.k, ls, outer, g, r));
    SwapRaw(fs.(code := c2), e.k, ls, outer, g, r);
  }

  lemma RemovedMarks(fs: Fs, e: Exp, ls: Ls, outer: set<int>, c2: Code)
    requires Ok(fs, e, ls, outer) && |c2| == |fs.code|
    requires forall j :: j in SetOf(ls.t) + SetOf(ls.f) && 0 <= j < |c2| ==> !IsSet(c2, j)
    requires forall j, q :: j in ls.j ==> CarryAt(c2, j, q) == CarryAt(fs.code, j, q)
    ensures MarksIn(c2, Ls(ls.f, ls.t, ls.j)) == Marks(false, false, SetIn(fs.code, ls.j))
  {
    hide IsSet, KindOk, CodeOk;
    ListInCode(fs.code, fs.jpc, ls.j);
    forall j | j in ls.j
      ensures IsSet(c2, j) == IsSet(fs.code, j)
    {
      assert CarryAt(c2, j, map[]) == CarryAt(fs.code, j, map[]);
    }
    SameMarks(fs.code, c2, ls.j);
    assert forall j :: j in ls.t || j in ls.f ==> j in SetOf(ls.t) + SetOf(ls.f);
  }

  lemma RemovedLength(c: Code, c2: Code, l: set<int>)
    requires SameButOpen(c, c2, l)
    ensures |c2| == |c|
  {
  }

  lemma SwapOpen(k: Kind, ls: Ls, outer: set<int>)
    ensures AllOpen(k, Ls(ls.f, ls.t, ls.j), outer) == AllOpen(k, ls, outer)
  {
    assert Open(Ls(ls.f, ls.t, ls.j), outer) == Open(ls, outer);
  }

  lemma SwapRaw(fs: Fs, k: Kind, ls: Ls, outer: set<int>, g: Env, r: Regs)
    ensures Raw(fs, k, Ls(ls.f, ls.t, ls.j), outer, g, r) == Raw(fs, k, ls, outer, g, r)
  {
    SwapOpen(k, ls, outer);
  }

  lemma RelocSame(fs: Fs, e: Exp, ls: Ls, outer: set<int>, c2: Code)
    requires Ok(fs, e, ls, outer) && |c2| == |fs.code|
    requires forall pc :: 0 <= pc < |fs.code| && pc + 1 !in SetOf(ls.t) + SetOf(ls.f) ==> c2[pc] == fs.code[pc]
    ensures e.k.VReloc? && 0 <= e.k.info < |fs.code| ==> c2[e.k.info] == fs.code[e.k.info]
  {
    ListedParts(fs.code, e.t, e.f, fs.jpc, ls, outer);
  }

  // ------------------------------------------------------------- the first half

  /** A literal or a string becomes the literal of the other truth. */
  lemma NegateConstant(fs: Fs, e: Exp, ls: Ls, outer: set<int>, g: Env, r: Regs, b: Outcome, y: Res, top: int, k: Kind)
    requires Holds(fs, e, ls, outer, g, r, b, y, top) && TrueConstant(g, e.k)
    requires if k == VTrue then e.k.VNil? || e.k.VFalse? else k == VFalse && (e.k.VK? || e.k.VKNum? || e.k.VTrue?)
    ensures Negated(fs, e.(k := k), ls, outer, g, r, b, Negate(Ends(fs.code, e.k), y), top)
  {
    hide CodeOk, Listed, Exec, SameBelow, CleanStart;
    BaseApart(fs, e.t, e.f, ls, outer, b);
  }

  lemma NegateComparison(fs: Fs, e: Exp, ls: Ls, outer: set<int>, g: Env, r: Regs, b: Outcome, y: Res, top: int)
    requires Holds(fs, e, ls, outer, g, r, b, y, top) && e.k.VJmp?
    ensures var fs' := fs.(code := InvertJump(fs.code, e.k.info));
            Negated(fs', e, ls, outer, g, r, b, Negate(EndsCompare, y), top) && Kept(fs, fs', outer)
  {
    hide Wf, Targets, Exec, OuterSame, Meets, Negates, IsList, Listed, InvertJump, CleanStart, Forks;
    var n, p := |fs.code|, e.k.info;
    var d, i, open := fs.code[..n - 2], fs.code[n - 2], Open(ls, outer);
    var c' := InvertJump(fs.code, p);
    ComparisonIs(fs, e, ls, outer, g, r);
    InvertIs(fs, e, ls, outer);
    InvertLists(fs, e, ls, outer);
    OneApart(fs, e, ls, outer, p);
    TestAppended(d, Inverted(i), open, fs.lasttarget, g, r);
    SplitBase(d, open, g, r, p);
    InvertedSplits(g, fs.code, c', i, e.k, ls, b, y, top, p, Exec(d, open, g, 0, r));
  }

  lemma NegateRegister(fs: Fs, e: Exp, ls: Ls, outer: set<int>, g: Env, r: Regs, b: Outcome, y: Res, top: int)
    requires Holds(fs, e, ls, outer, g, r, b, y, top) && e.k.VNonReloc?
    ensures var fs' := Emit(fs, Not(0, e.k.info));
            var e' := e.(k := VReloc(|fs.code|));
            Negated(fs', e', ls.(j := []), outer, g, r, b, Negate(EndsRegister, y), top) && Kept(fs, fs', outer)
  {
    hide Ok, Raw, Meets, Negates, OuterSame, AreJumps, Emit, Kept, CleanStart;
    var i := Not(0, e.k.info);
    EmitReloc(fs, e, ls, outer, i, g, r);
    MeetsNegates(g, fs.code, Emit(fs, i).code, e.k, VReloc(|fs.code|), ls, b, y, top, Raw(fs, e.k, ls, outer, g, r));
  }

  lemma MeetsNegates(g: Env, c: Code, c': Code, k: Kind, k': Kind, ls: Ls, b: Outcome, y: Res, top: int, o: Outcome)
    requires Meets(c, k, ls, g, b, y, top, o) && k.VNonReloc? && |c| <= |c'| && (b.Exit? ==> b.j !in SetOf(ls.j))
    requires k'.VReloc? && 0 <= k'.info < |c'| && c'[k'.info] == Not(0, k.info) && SetOf(ls.j) !! SetOf(ls.t) + SetOf(ls.f)
    ensures Negates(g, c', k', ls.(j := []), b, Negate(EndsRegister, y), top, Norm(o, ls.j))
  {
    if b.Fall? && o.Exit? && (o.j in ls.t || o.j in ls.f) {
      assert o.j in SetOf(ls.t) + SetOf(ls.f);
      assert o.j !in SetOf(ls.j);
    }
  }

  /** The first half of `codenot`, on what has been discharged. */
  lemma NegateGood(fs: Fs, e: Exp, ls: Ls, outer: set<int>, g: Env, r: Regs, b: Outcome, y: Res, top: int)
    returns (fs2: Fs, k: Kind, ls2: Ls)
    requires Holds(fs, e, ls, outer, g, r, b, y, top) && Sized(fs, e.k, top) && TrueConstant(g, e.k) && Discharged(e.k)
    requires CodeNot(fs, e).0.k <= g.k
    ensures CodeNot(fs, e) == (fs2.(code := Removed(fs2.code, e.t, e.f)), Exp(k, e.f, e.t))
    ensures Negated(fs2, e.(k := k), ls2, outer, g, r, b, Negate(Ends(fs.code, e.k), y), top) && Kept(fs, fs2, outer)
    ensures Sized(fs2, k, top) && !k.VK? && Discharged(k)
    ensures SetIn(fs2.code, ls2.j) <==> Ends(fs.code, e.k).Literal() && SetIn(fs.code, ls.j)
  {
    hide SetIn, MarksIn, Ok, Good, Kept, CleanStart, Negated, Discharge2AnyReg, RemoveAll, Emit;
    fs2, k, ls2 := fs, e.k, ls;
    if e.k.VNil? || e.k.VFalse? {
      k := VTrue;
      NegateConstant(fs, e, ls, outer, g, r, b, y, top, k);
      KeptRefl(fs, outer);
    } else if e.k.VK? || e.k.VKNum? || e.k.VTrue? {
      k := VFalse;
      NegateConstant(fs, e, ls, outer, g, r, b, y, top, k);
      KeptRefl(fs, outer);
    } else if e.k.VJmp? {
      fs2 := fs.(code := InvertJump(fs.code, e.k.info));
      NegateComparison(fs, e, ls, outer, g, r, b, y, top);
    } else {
      var (fs3, e3) := Discharge2AnyReg(fs, e);
      var fs4 := FreeExp(fs3, e3);
      var y3 := if e.k.VNonReloc? then y else Drop(y);
      EmitKept(fs4, Not(0, if e3.k.VNonReloc? then e3.k.info else NO_REG), outer);
      var ls3 := Discharge2AnyRegGood(fs, e, ls, outer, g, r, b, y, top);
      HoldsRegs(fs3, fs4, e3, ls3, outer, g, r, b, y3, top);
      NegateRegister(fs4, e3, ls3, outer, g, r, b, y3, top);
      fs2, k, ls2 := Emit(fs4, Not(0, e3.k.info)), VReloc(|fs4.code|), ls3.(j := []);
      EmitKept(fs4, Not(0, e3.k.info), outer);
      KeptTrans(fs, fs3, fs4, outer);
      KeptTrans(fs, fs4, fs2, outer);
    }
    NegatedMarks(fs, e, ls, outer, fs2, ls2);
  }

  /** `codenot`: the opposite of the truth of its operand, as a boolean. */
  lemma CodeNotGood(fs: Fs, e: Exp, ls: Ls, outer: set<int>, g: Env, r: Regs, b: Outcome, y: Res, top: int)
    returns (ls': Ls)
    requires Holds(fs, e, ls, outer, g, r, b, y, top) && Sized(fs, e.k, top) && TrueConstant(g, e.k)
    requires CodeNot(fs, e).0.k <= g.k
    ensures var (fs', e') := CodeNot(fs, e);
            && Holds(fs', e', ls', outer, g, r, b, Negate(Ends(fs.code, e.k), y), top) && Sized(fs', e'.k, top)
            && Kept(fs, fs', outer) && !e'.k.VK? && Discharged(e'.k)
            && MarksIn(fs'.code, ls') == Marks(false, false, Ends(fs.code, e.k).Literal() && SetIn(fs.code, ls.j))
  {
    hide SetIn, Ok, Good, Kept, CleanStart, Negated, DischargeVars, CodeNot, Removed;
    var (fs1, e1) := DischargeVars(fs, e);
    var z := Negate(Ends(fs.code, e.k), y);
    var ls1 := DischargeVarsGood(fs, e, ls, outer, g, r, b, y, top);
    DischargedConstant(fs, e);
    DischargedNot(fs, e);
    FetchedNegate(fs, e, y);
    var fs2, k, ls2 := NegateGood(fs1, e1, ls1, outer, g, r, b, Fetch(Ends(fs.code, e.k), y), top);
    KeptTrans(fs, fs1, fs2, outer);
    CleanKept(fs, fs2, outer, r);
    SwapGood(fs2, e1.(k := k), ls2, outer, g, r, b, z, top);
    ls' := Ls(ls2.f, ls2.t, ls2.j);
    KeptTrans(fs, fs2, fs2.(code := Removed(fs2.code, e1.t, e1.f)), outer);
  }

  /** What is discharged stays as it is. */
  lemma DischargedNot(fs: Fs, e: Exp)
    ensures var (fs1, e1) := DischargeVars(fs, e);
            && CodeNot(fs1, e1) == CodeNot(fs, e)
            && (Ends(fs1.code, e1.k).Literal() <==> Ends(fs.code, e.k).Literal())
            && (Ends(fs.code, e.k).Literal() ==> !Ends(fs.code, e.k).EndsGlobal?)
  {
    hide RemoveAll, Discharge2AnyReg, PatchList;
  }

  lemma NegatedMarks(fs: Fs, e: Exp, ls: Ls, outer: set<int>, fs': Fs, ls': Ls)
    requires Ok(fs, e, ls, outer) && (if Ends(fs.code, e.k).Literal() then fs' == fs && ls' == ls else if e.k.VJmp? then ls' == ls else ls'.j == [])
    ensures SetIn(fs'.code, ls'.j) <==> Ends(fs.code, e.k).Literal() && SetIn(fs.code, ls.j)
  {
    hide IsSet, Listed, CodeOk;
  }

  lemma FetchedNegate(fs: Fs, e: Exp, y: Res)
    ensures Negate(Ends(DischargeVars(fs, e).0.code, DischargeVars(fs, e).1.k), Fetch(Ends(fs.code, e.k), y)) == Negate(Ends(fs.code, e.k), y)
  {
    hide Emit;
    EmitLast(fs, GetGlobal(0, if e.k.VGlobal? then e.k.info else 0));
  }

  lemma DischargedConstant(fs: Fs, e: Exp)
    ensures var (fs1, e1) := DischargeVars(fs, e); e1.k.VK? ==> e1.k == e.k
  {
  }
}
