/**
 The second half of exp2reg: the jumps of the lists are given targets where the value they
 stand for is in the register.
 */
module CodeGenClose {
  import opened Vm
  import opened CodeGen
  import opened CodeGenLists
  import opened CodeGenSem
  import opened CodeGenValues
  import opened CodeGenYield
  import opened Sequences

  /** The two loads, and the jump that leads around them. */
  function Loads2(reg: int): Code {
    [LoadBool(reg, false, true), LoadBool(reg, true, false)]
  }

  lemma NothingPending(fs: Fs)
    requires fs.jpc == NO_JUMP
    ensures DischargeJpc(fs) == fs
  {
    assert ListOf(fs.code, NO_JUMP) == [];
  }

  /** Without a value that falls in, the two loads are appended. */
  lemma LoadBoolsBare(fs: Fs, reg: int)
    requires fs.jpc == NO_JUMP
    ensures LoadBools(fs, false, reg) == fs.(code := fs.code + Loads2(reg), lasttarget := |fs.code| + 2)
  {
    NothingPending(fs);
    var fs2 := Emit(GetLabel(fs), LoadBool(reg, false, true));
    NothingPending(GetLabel(fs));
    NothingPending(GetLabel(fs2));
    var fs3 := Emit(GetLabel(fs2), LoadBool(reg, true, false));
    assert fs3.code == fs.code + Loads2(reg);
    assert Concat(fs3.code, NO_JUMP, NO_JUMP) == (fs3.code, NO_JUMP);
  }

  /** Otherwise a jump leads around them, and takes the pending jumps along. */
  lemma LoadBoolsAround(fs: Fs, reg: int, j: seq<int>, t: int, f: int, ls: Ls, outer: set<int>)
    requires Listed(fs.code, t, f, fs.jpc, ls, outer)
    ensures var fs' := LoadBools(fs, true, reg);
            var n := |fs.code|;
            && |fs'.code| == n + 3 && fs'.code[..n] == fs.code && fs'.code[n].Jmp? && fs'.code[n + 1..] == Loads2(reg)
            && fs'.jpc == n && IsList(fs'.code, n, [n] + ls.j)
            && fs' == fs.(code := fs'.code, jpc := n, lasttarget := n + 3)
  {
    var n := |fs.code|;
    JumpIs(fs, t, f, ls, outer);
    var (fs1, fj) := Jump(fs);
    var fs2 := Emit(GetLabel(fs1), LoadBool(reg, false, true));
    NothingPending(GetLabel(fs1));
    NothingPending(GetLabel(fs2));
    var fs3 := Emit(GetLabel(fs2), LoadBool(reg, true, false));
    assert fs3.code == fs1.code + Loads2(reg);
    ListInCode(fs1.code, fj, [n] + ls.j);
    ListFrame(fs1.code, fs3.code, fj, [n] + ls.j);
    assert ListOf(fs3.code, NO_JUMP) == [];
  }

  /** `luaK_jump` puts a jump in front of the pending ones. */
  lemma JumpIs(fs: Fs, t: int, f: int, ls: Ls, outer: set<int>)
    requires Listed(fs.code, t, f, fs.jpc, ls, outer)
    ensures var (fs', j) := Jump(fs);
            var n := |fs.code|;
            && j == n && |fs'.code| == n + 1 && fs'.code[..n] == fs.code && fs'.code[n].Jmp?
            && IsList(fs'.code, n, [n] + ls.j)
            && fs' == fs.(code := fs'.code, jpc := NO_JUMP)
  {
    var n := |fs.code|;
    var c := fs.code + [Jmp(NO_JUMP)];
    ListedParts(fs.code, t, f, fs.jpc, ls, outer);
    ListInCode(fs.code, fs.jpc, ls.j);
    ListFrame(fs.code, c, fs.jpc, ls.j);
    assert IsList(c, n, [n]) by {
      assert IsList(c, NO_JUMP, []);
      assert [n][1..] == [];
    }
    assert NoDup([n] + ls.j) by {
      forall a, b | 0 <= a < b < |[n] + ls.j|
        ensures ([n] + ls.j)[a] != ([n] + ls.j)[b]
      {
        assert ls.j[b - 1] in ls.j;
        if a > 0 {
          assert ls.j[a - 1] != ls.j[b - 1];
        }
      }
    }
    ConcatLists(c, n, [n], fs.jpc, ls.j);
  }

  // ------------------------------------------------------------- the code before the jumps are patched

  /** `c1` is `c` with what `exp2reg` adds: nothing if every jump brings its value, the two loads
      otherwise, and a jump around them if the code falls in with a value. */
  ghost predicate Tail(c: Code, c1: Code, need: bool, fallsIn: bool, reg: int) {
    var n := |c|;
    if !need then c1 == c
    else if fallsIn then |c1| == n + 3 && c1[..n] == c && c1[n].Jmp? && c1[n + 1..] == Loads2(reg)
    else c1 == c + Loads2(reg)
  }

  function PendingAfter(c: Code, need: bool, fallsIn: bool, j: seq<int>): seq<int> {
    if !need then j else if fallsIn then [|c|] + j else []
  }

  lemma TailOk(c: Code, c1: Code, need: bool, fallsIn: bool, reg: int, open: set<int>, open1: set<int>, last: int, j: seq<int>)
    requires CodeOk(c, open, last, j) && Tail(c, c1, need, fallsIn, reg)
    requires open1 == if need && fallsIn then open + {|c|} else open
    ensures Wf(c1, open1) && Targets(c1, open1, |c1|) && Entry(c1, |c1|)
    ensures need ==> Entry(c1, |c1| - 1) && Entry(c1, |c1| - 2)
  {
    var n := |c|;
    EntryAtEnd(c, open);
    TailPrefix(c, c1, need, fallsIn, reg);
    EntryStays(c, c1);
    forall pc | 0 <= pc < |c1|
      ensures WfAt(c1, open1, pc)
      ensures (c1[pc].Jmp? && pc !in open1 ==> pc + 1 + c1[pc].sbx <= |c1|) && (c1[pc].LoadBool? && c1[pc].skip ==> pc + 2 <= |c1|)
    {
      if pc < n {
        assert WfAt(c, open, pc);
      }
    }
  }

  /** Where execution may come in `c` it may come in a longer code. */
  lemma EntryStays(c: Code, c1: Code)
    requires |c| <= |c1| && (forall p :: 0 <= p < |c| ==> c1[p] == c[p])
    ensures forall t :: Entry(c, t) ==> Entry(c1, t)
  {
  }

  /** What arrives at the end of the old code. */
  function Added(c: Code, need: bool, fallsIn: bool, reg: int, o: Outcome): Outcome {
    if !o.Fall? || !need then o
    else if fallsIn then Exit(|c|, o.r)
    else Fall(o.r[reg := Bool(false)])
  }

  lemma LoadsRun(c: Code, open: set<int>, reg: int, g: Env, r: Regs)
    requires |c| >= 2 && c[|c| - 2] == LoadBool(reg, false, true) && c[|c| - 1] == LoadBool(reg, true, false)
    ensures Exec(c, open, g, |c| - 2, r) == Fall(r[reg := Bool(false)])
    ensures Exec(c, open, g, |c| - 1, r) == Fall(r[reg := Bool(true)])
  {
  }

  lemma TailRuns(c: Code, c1: Code, need: bool, fallsIn: bool, reg: int, open: set<int>, open1: set<int>, g: Env, r: Regs)
    requires Wf(c, open) && Tail(c, c1, need, fallsIn, reg)
    requires open1 == if need && fallsIn then open + {|c|} else open
    ensures Exec(c1, open1, g, 0, r) == Added(c, need, fallsIn, reg, Exec(c, open, g, 0, r))
  {
    var n := |c|;
    if need {
      var d := c1[n..];
      assert c1 == c + d;
      ExecAppend(c, d, open, open1, g, 0, r);
      var o := Exec(c, open, g, 0, r);
      if o.Fall? {
        if fallsIn {
          assert Exec(c1, open1, g, n, o.r) == Exit(n, o.r);
        } else {
          LoadsRun(c1, open1, reg, g, o.r);
        }
      }
    }
  }

  // ------------------------------------------------------------- patching the two lists

  /** Where a jump of a list goes once it is patched, and with which registers. */
  function Landed(c: Code, j: int, reg: int, side: bool, r: Regs): Regs
    requires 0 <= j < |c|
  {
    if IsSet(c, j) then AtTarget(c, j, reg, r) else r[reg := Bool(side)]
  }

  /** An outcome of the unpatched code, after a list has been patched. */
  function Closed(c: Code, l: seq<int>, side: bool, reg: int, o: Outcome): Outcome {
    if o.Exit? && o.j in l && 0 <= o.j < |c| then Fall(Landed(c, o.j, reg, side, o.r)) else o
  }

  /** Every jump of the list brings its value, or the two loads are there to make one. */
  ghost predicate Served(c: Code, l: seq<int>, need: bool, reg: int) {
    && (forall j :: j in l ==> 0 <= j < |c| && c[j].Jmp? && (need ==> j < |c| - 2) && (!need ==> IsSet(c, j)))
    && Entry(c, |c|)
    && (need ==> |c| >= 2 && c[|c| - 2] == LoadBool(reg, false, true) && c[|c| - 1] == LoadBool(reg, true, false) &&
                 Entry(c, |c| - 1) && Entry(c, |c| - 2))
  }

  /** One of the two lists. */
  lemma CloseOne(c: Code, c': Code, open: set<int>, l: seq<int>, reg: int, side: bool, need: bool, g: Env, r: Regs)
    requires Wf(c, open) && SetOf(l) <= open && Served(c, l, need, reg)
    requires Patched(c, c', SetOf(l), |c|, reg, if side then |c| - 1 else |c| - 2)
    ensures Wf(c', open - SetOf(l))
    ensures Exec(c', open - SetOf(l), g, 0, r) == Closed(c, l, side, reg, Exec(c, open, g, 0, r))
  {
    var dt := if side then |c| - 1 else |c| - 2;
    assert AreJumps(c, SetOf(l));
    PatchedKinds(c, c', SetOf(l), |c|, reg, dt);
    PatchedWf(c, c', open, SetOf(l), |c|, reg, dt);
    ExecPatched(c, c', open, SetOf(l), |c|, reg, dt, g, 0, r);
    var o := Exec(c, open, g, 0, r);
    if need && o.Exit? && o.j in l {
      LoadsRun(c', open - SetOf(l), reg, g, o.r);
    }
  }

  /** Closing a list does not touch the jumps of another one, nor the tests in front of them. */
  lemma OtherJumps(c: Code, c': Code, l: seq<int>, l2: seq<int>, reg: int, dt: int)
    requires Paired(c) && AreJumps(c, SetOf(l)) && AreJumps(c, SetOf(l2)) && SetOf(l) !! SetOf(l2)
    requires Patched(c, c', SetOf(l), |c|, reg, dt)
    ensures |c'| == |c|
    ensures forall j :: j in l2 ==> 0 <= j < |c| && c'[j] == c[j] && IsSet(c', j) == IsSet(c, j)
    ensures forall j, side, r :: j in l2 ==> 0 <= j < |c| && Landed(c', j, reg, side, r) == Landed(c, j, reg, side, r)
  {
    hide Paired, Patched, PatchedTest;
    PatchedLength(c, c', SetOf(l), |c|, reg, dt);
    forall j | j in l2
      ensures 0 <= j < |c| && c'[j] == c[j] && IsSet(c', j) == IsSet(c, j)
      ensures forall side, r :: Landed(c', j, reg, side, r) == Landed(c, j, reg, side, r)
    {
      assert j in SetOf(l2);
      PatchedSets(c, c', SetOf(l), |c|, reg, dt, j);
    }
  }

  lemma ServedJumps(c: Code, l: seq<int>, need: bool, reg: int)
    requires Served(c, l, need, reg)
    ensures AreJumps(c, SetOf(l))
  {
  }

  lemma ServedAgain(c: Code, c': Code, l: seq<int>, l2: seq<int>, reg: int, dt: int, need: bool)
    requires Served(c, l, need, reg) && Served(c, l2, need, reg) && Patched(c, c', SetOf(l), |c|, reg, dt) && |c'| == |c|
    requires forall j :: j in l2 ==> 0 <= j < |c| && c'[j] == c[j] && IsSet(c', j) == IsSet(c, j)
    ensures Served(c', l2, need, reg)
  {
    hide IsSet, PatchedTest, Patched, Entry;
    ServedJumps(c, l, need, reg);
    PatchedKinds(c, c', SetOf(l), |c|, reg, dt);
    EntrySame(c, c');
  }

  /** Closing a list does not disturb another one. */
  lemma OtherListServed(c: Code, c': Code, l: seq<int>, l2: seq<int>, reg: int, dt: int, need: bool, head2: int)
    requires Paired(c) && Served(c, l, need, reg) && Served(c, l2, need, reg) && SetOf(l) !! SetOf(l2)
    requires Patched(c, c', SetOf(l), |c|, reg, dt) && IsList(c, head2, l2)
    ensures Served(c', l2, need, reg) && IsList(c', head2, l2) && Paired(c')
    ensures forall j, side, r :: j in l2 ==> 0 <= j < |c| && 0 <= j < |c'| && Landed(c', j, reg, side, r) == Landed(c, j, reg, side, r)
  {
    hide *;
    ServedJumps(c, l, need, reg);
    ServedJumps(c, l2, need, reg);
    OtherJumps(c, c', l, l2, reg, dt);
    PatchedPaired(c, c', SetOf(l), |c|, reg, dt);
    ServedAgain(c, c', l, l2, reg, dt, need);
    ListFrame(c, c', head2, l2);
  }

  /** Both lists, the false one first. */
  lemma CloseBoth(c: Code, open: set<int>, t: int, f: int, ls: Ls, reg: int, need: bool, g: Env, r: Regs)
    requires Wf(c, open) && SetOf(ls.t) + SetOf(ls.f) <= open && SetOf(ls.t) !! SetOf(ls.f) && NoDup(ls.t) && NoDup(ls.f)
    requires IsList(c, t, ls.t) && IsList(c, f, ls.f) && Served(c, ls.t, need, reg) && Served(c, ls.f, need, reg)
    ensures var c2 := PatchList(c, f, |c|, reg, |c| - 2);
            var c3 := PatchList(c2, t, |c|, reg, |c| - 1);
            && Patched(c, c2, SetOf(ls.f), |c|, reg, |c| - 2) && Patched(c2, c3, SetOf(ls.t), |c|, reg, |c| - 1)
            && Wf(c2, open - SetOf(ls.f)) && Wf(c3, open - SetOf(ls.f) - SetOf(ls.t)) && Paired(c2)
            && Exec(c3, open - SetOf(ls.f) - SetOf(ls.t), g, 0, r) ==
                 Closed(c, ls.t, true, reg, Closed(c, ls.f, false, reg, Exec(c, open, g, 0, r)))
  {
    hide Patched, Wf, Exec, Served, PatchList, IsList, Landed, Paired;
    WfPaired(c, open);
    var c2 := PatchList(c, f, |c|, reg, |c| - 2);
    PatchListIs(c, f, ls.f, |c|, reg, |c| - 2);
    CloseOne(c, c2, open, ls.f, reg, false, need, g, r);
    OtherListServed(c, c2, ls.f, ls.t, reg, |c| - 2, need, t);
    var c3 := PatchList(c2, t, |c|, reg, |c| - 1);
    PatchedLength(c, c2, SetOf(ls.f), |c|, reg, |c| - 2);
    PatchListIs(c2, t, ls.t, |c|, reg, |c| - 1);
    CloseOne(c2, c3, open - SetOf(ls.f), ls.t, reg, true, need, g, r);
  }

  lemma PatchedLength(c: Code, c': Code, l: set<int>, vt: int, reg: int, dt: int)
    requires Patched(c, c', l, vt, reg, dt)
    ensures |c'| == |c|
  {
  }

  // ------------------------------------------------------------- the value is in the register

  /** A jump of a list arrives with its value in the register. */
  lemma LandedValue(c: Code, c1: Code, j: int, reg: int, side: bool, r: Regs, top: int)
    requires 0 <= j < |c| && 0 <= j < |c1| && reg >= top && reg != NO_REG
    requires IsSet(c1, j) == IsSet(c, j) && c1[Control(c1, j)] == c[Control(c, j)]
    ensures Get(Landed(c1, j, reg, side, r), reg) == Delivered(Left(side, CarryAt(c, j, r)))
    ensures SameBelow(r, Landed(c1, j, reg, side, r), top)
  {
  }

  /** The arithmetic of outcomes: whatever way the expression is left, its value is in the register. */
  lemma ClosedMeets(c: Code, c1: Code, c3: Code, k: Kind, ls: Ls, need: bool, fallsIn: bool, reg: int, g: Env, b: Outcome,
                    y: Res, top: int, o: Outcome)
    requires Meets(c, k, ls, g, b, y, top, o) && reg >= top && reg != NO_REG
    requires if fallsIn then k == VNonReloc(reg) else k == VFalse && need && ls.j == []
    requires Tail(c, c1, need, fallsIn, reg)
    requires forall j :: j in ls.t || j in ls.f || j in ls.j ==> 0 <= j < |c|
    requires SetOf(ls.j) !! SetOf(ls.t) + SetOf(ls.f) && SetOf(ls.t) !! SetOf(ls.f)
    requires forall j :: (j in ls.t || j in ls.f) && 0 <= j < |c| && 0 <= j < |c1| ==>
               IsSet(c1, j) == IsSet(c, j) && c1[Control(c1, j)] == c[Control(c, j)]
    requires forall j, q :: j in ls.j ==> CarryAt(c3, j, q) == CarryAt(c, j, q)
    requires need && fallsIn ==> |c| < |c3| && !IsSet(c3, |c|)
    requires |c| <= |c3|
    requires b.Exit? ==> 0 <= b.j < |c| && b.j !in ls.t && b.j !in ls.f && b.j !in ls.j
    ensures var o3 := Closed(c1, ls.t, true, reg, Closed(c1, ls.f, false, reg, Added(c, need, fallsIn, reg, o)));
            var j' := PendingAfter(c, need, fallsIn, ls.j);
            Meets(c3, VNonReloc(reg), Ls([], [], j'), g, b, Brought(y), top, o3)
  {
    hide Landed, IsSet, Control, CarryAt;
    var o3 := Closed(c1, ls.t, true, reg, Closed(c1, ls.f, false, reg, Added(c, need, fallsIn, reg, o)));
    var j' := PendingAfter(c, need, fallsIn, ls.j);
    if b.Fall? {
      if o.Exit? && o.j in ls.j {
        assert o.j in SetOf(ls.j);
        assert o.j in j';
        assert o3 == o;
        assert CarryAt(c3, o.j, o.r) == CarryAt(c, o.j, o.r);
      } else if o.Exit? {
        assert o.j in SetOf(ls.t) || o.j in SetOf(ls.f);
        assert o3 == Fall(Landed(c1, o.j, reg, o.j in ls.t, o.r));
        LandedValue(c, c1, o.j, reg, o.j in ls.t, o.r, top);
      } else if need && fallsIn {
        assert o3 == Exit(|c|, o.r) && |c| in j';
        BareCarry(c3, |c|, o.r);
      }
    }
  }

  lemma BareCarry(c: Code, j: int, r: Regs)
    requires 0 <= j < |c| ==> !IsSet(c, j)
    ensures CarryAt(c, j, r) == Bare
  {
  }

  // ------------------------------------------------------------- exp2reg

  lemma NeedsIs(fs: Fs, t: int, f: int, ls: Ls, outer: set<int>)
    requires Listed(fs.code, t, f, fs.jpc, ls, outer)
    ensures Needs(fs, t, f) <==> exists j :: (j in ls.t || j in ls.f) && 0 <= j < |fs.code| && !IsSet(fs.code, j)
  {
    ListedParts(fs.code, t, f, fs.jpc, ls, outer);
    ListOfIs(fs.code, t, ls.t);
    ListOfIs(fs.code, f, ls.f);
    NeedValueIs(fs.code, ls.t);
    NeedValueIs(fs.code, ls.f);
  }

  lemma WidenedTail(fs: Fs, t: int, f: int, fallsIn: bool, reg: int, ls: Ls, outer: set<int>)
    requires Listed(fs.code, t, f, fs.jpc, ls, outer) && (!fallsIn ==> ls.j == [])
    ensures var fs1 := Widened(fs, t, f, fallsIn, reg);
            var need := Needs(fs, t, f);
            && Tail(fs.code, fs1.code, need, fallsIn, reg)
            && fs1 == fs.(code := fs1.code, jpc := fs1.jpc, lasttarget := |fs1.code|)
            && (need && !fallsIn ==> fs1.jpc == NO_JUMP)
            && (need && fallsIn ==> fs1.jpc == |fs.code| && IsList(fs1.code, |fs.code|, [|fs.code|] + ls.j))
            && (!need ==> fs1.jpc == fs.jpc)
  {
    var need := Needs(fs, t, f);
    if need && fallsIn {
      LoadBoolsAround(fs, reg, ls.j, t, f, ls, outer);
    } else if need {
      LoadBoolsBare(fs, reg);
    }
  }

  lemma TailPrefix(c: Code, c1: Code, need: bool, fallsIn: bool, reg: int)
    requires Tail(c, c1, need, fallsIn, reg)
    ensures |c| <= |c1| && forall pc :: 0 <= pc < |c| ==> c1[pc] == c[pc]
    ensures need ==> |c1| >= |c| + 2 && c1[|c1| - 2] == LoadBool(reg, false, true) && c1[|c1| - 1] == LoadBool(reg, true, false)
  {
    forall pc | 0 <= pc < |c|
      ensures c1[pc] == c[pc]
    {
      assert c1[..|c|][pc] == c1[pc];
    }
    if need && fallsIn {
      assert c1[|c| + 1..][0] == c1[|c| + 1] && c1[|c| + 1..][1] == c1[|c| + 2];
    }
  }

  lemma WidenedServes(fs: Fs, t: int, f: int, fallsIn: bool, reg: int, ls: Ls, outer: set<int>, open1: set<int>)
    requires Listed(fs.code, t, f, fs.jpc, ls, outer) && (!fallsIn ==> ls.j == [])
    requires var c1 := Widened(fs, t, f, fallsIn, reg).code;
             Wf(c1, open1) && Entry(c1, |c1|) && (Needs(fs, t, f) ==> Entry(c1, |c1| - 1) && Entry(c1, |c1| - 2))
    ensures var fs1 := Widened(fs, t, f, fallsIn, reg);
            var need := Needs(fs, t, f);
            && Served(fs1.code, ls.t, need, reg) && Served(fs1.code, ls.f, need, reg)
            && IsList(fs1.code, t, ls.t) && IsList(fs1.code, f, ls.f)
            && IsList(fs1.code, fs1.jpc, PendingAfter(fs.code, need, fallsIn, ls.j))
            && (forall j :: 0 <= j < |fs.code| ==>
                  IsSet(fs1.code, j) == IsSet(fs.code, j) && Control(fs1.code, j) == Control(fs.code, j) &&
                  fs1.code[Control(fs1.code, j)] == fs.code[Control(fs.code, j)])
  {
    hide NeedValue, ListOf, LoadBools;
    var fs1, need, c := Widened(fs, t, f, fallsIn, reg), Needs(fs, t, f), fs.code;
    WidenedTail(fs, t, f, fallsIn, reg, ls, outer);
    TailPrefix(c, fs1.code, need, fallsIn, reg);
    NeedsIs(fs, t, f, ls, outer);
    ListInCode(c, t, ls.t);
    ListInCode(c, f, ls.f);
    ListInCode(c, fs.jpc, ls.j);
    ListFrame(c, fs1.code, t, ls.t);
    ListFrame(c, fs1.code, f, ls.f);
    if !need {
      ListFrame(c, fs1.code, fs.jpc, ls.j);
    }
  }

  /** Patching a list keeps a list that has no jump in common with it. */
  lemma PatchedKeepsList(c: Code, c': Code, open: set<int>, l: seq<int>, vt: int, reg: int, dt: int, head: int, l2: seq<int>)
    requires Wf(c, open) && SetOf(l) <= open && Patched(c, c', SetOf(l), vt, reg, dt)
    requires IsList(c, head, l2) && SetOf(l) !! SetOf(l2)
    ensures IsList(c', head, l2)
  {
    PatchedKinds(c, c', SetOf(l), vt, reg, dt);
    ListInCode(c, head, l2);
    forall j | j in l2
      ensures 0 <= j < |c'| && c'[j] == c[j]
    {
      assert j in SetOf(l2);
    }
    ListFrame(c, c', head, l2);
  }

  lemma PatchedTargets(c: Code, c': Code, open: set<int>, l: set<int>, vt: int, reg: int, dt: int, last: int)
    requires Targets(c, open, last) && Patched(c, c', l, vt, reg, dt) && vt <= last && dt <= last
    requires forall j :: j in l ==> 0 <= j < |c| && c[j].Jmp?
    ensures Targets(c', open - l, last)
  {
    PatchedKinds(c, c', l, vt, reg, dt);
    forall pc | 0 <= pc < |c|
      ensures (c'[pc].Jmp? && pc !in open - l ==> pc + 1 + c'[pc].sbx <= last) && (c'[pc].LoadBool? && c'[pc].skip ==> pc + 2 <= last)
    {
      assert c'[pc] == PatchedInstr(c, l, vt, reg, dt, pc);
    }
  }

  function OpenWide(fs: Fs, need: bool, fallsIn: bool, ls: Ls, outer: set<int>): set<int> {
    if need && fallsIn then Open(ls, outer) + {|fs.code|} else Open(ls, outer)
  }

  /** The pending jumps, and the tests in front of them, are as they were; the jump around the loads
      is preceded by no test. */
  lemma PendingTests(c: Code, c1: Code, c3: Code, open: set<int>, need: bool, fallsIn: bool, reg: int, j: seq<int>)
    requires Wf(c, open) && SetOf(j) <= open && Tail(c, c1, need, fallsIn, reg) && |c3| == |c1|
    requires OuterSame(c1, c3, SetOf(PendingAfter(c, need, fallsIn, j))) && (!fallsIn ==> j == [])
    ensures forall i, q :: i in j ==> CarryAt(c3, i, q) == CarryAt(c, i, q)
    ensures need && fallsIn ==> |c| < |c3| && !IsSet(c3, |c|)
  {
    TailPrefix(c, c1, need, fallsIn, reg);
    EntryAtEnd(c, open);
    forall i, q | i in j
      ensures CarryAt(c3, i, q) == CarryAt(c, i, q)
    {
      assert i in SetOf(j) && i in SetOf(PendingAfter(c, need, fallsIn, j));
      assert SameJump(c1, c3, i);
      CarrySame(c1, c3, i, q);
    }
    if need && fallsIn {
      assert |c| in SetOf(PendingAfter(c, need, fallsIn, j));
      assert SameJump(c1, c3, |c|);
    }
  }

  /** `exp2reg` on the lists, as code: the lists are gone, the enclosing jumps are untouched. */
  lemma CloseListsOk(fs: Fs, k: Kind, t: int, f: int, fallsIn: bool, reg: int, ls: Ls, outer: set<int>)
    requires Listed(fs.code, t, f, fs.jpc, ls, outer) && CodeOk(fs.code, Open(ls, outer), fs.lasttarget, ls.j)
    requires t != f && (!fallsIn ==> ls.j == [])
    ensures var fs' := CloseLists(fs, t, f, fallsIn, reg);
            var ls' := Ls([], [], PendingAfter(fs.code, Needs(fs, t, f), fallsIn, ls.j));
            && Listed(fs'.code, NO_JUMP, NO_JUMP, fs'.jpc, ls', outer)
            && CodeOk(fs'.code, Open(ls', outer), fs'.lasttarget, ls'.j)
            && fs' == fs.(code := fs'.code, jpc := fs'.jpc, lasttarget := |fs'.code|)
            && OuterSame(fs.code, fs'.code, outer) && |fs.code| <= |fs'.code|
            && (forall j, q :: j in ls.j ==> CarryAt(fs'.code, j, q) == CarryAt(fs.code, j, q))
            && (Needs(fs, t, f) && fallsIn ==> |fs.code| < |fs'.code| && !IsSet(fs'.code, |fs.code|))
  {
    hide NeedValue, ListOf, LoadBools, PatchList, Wf, Targets, Patched, Served, Tail, Needs, Entry, OuterSame, Exec, Widened, IsList;
    var need, fs1, n := Needs(fs, t, f), Widened(fs, t, f, fallsIn, reg), |fs.code|;
    var c1 := fs1.code;
    var open1 := OpenWide(fs, need, fallsIn, ls, outer);
    var j' := PendingAfter(fs.code, need, fallsIn, ls.j);
    WidenedTail(fs, t, f, fallsIn, reg, ls, outer);
    ListedParts(fs.code, t, f, fs.jpc, ls, outer);
    TailOk(fs.code, c1, need, fallsIn, reg, Open(ls, outer), open1, fs.lasttarget, ls.j);
    WidenedServes(fs, t, f, fallsIn, reg, ls, outer, open1);
    CloseBoth(c1, open1, t, f, ls, reg, need, Env([], (x: int) => Nil, (x, y) => false, (x, y) => false), map[]);
    var c2 := PatchList(c1, f, |c1|, reg, |c1| - 2);
    var c3 := PatchList(c2, t, |c1|, reg, |c1| - 1);
    OpenNotNew(fs, t, f, ls, outer);
    OpenParts(fs, need, fallsIn, ls, outer);
    TailOuter(fs.code, c1, need, fallsIn, reg, outer);
    TailPrefix(fs.code, c1, need, fallsIn, reg);
    CloseKeeps(c1, c2, c3, open1, fs1.jpc, j', ls, outer, reg);
    OuterSameTrans(fs.code, c1, c3, outer);
    CloseKeeps(c1, c2, c3, open1, fs1.jpc, j', ls, SetOf(j'), reg);
    PendingTests(fs.code, c1, c3, Open(ls, outer), need, fallsIn, reg, ls.j);
    PendingNoDup(fs, t, f, need, fallsIn, ls, outer);
    OnlyPending(c3, fs1.jpc, j', outer);
  }

  lemma OnlyPending(c: Code, jpc: int, j: seq<int>, outer: set<int>)
    requires IsList(c, jpc, j) && NoDup([] + [] + j) && SetOf(j) !! outer
    ensures Listed(c, NO_JUMP, NO_JUMP, jpc, Ls([], [], j), outer)
  {
    forall x | x in [] + [] + j
      ensures x !in outer
    {
      assert x in SetOf(j);
    }
  }

  lemma OpenNotNew(fs: Fs, t: int, f: int, ls: Ls, outer: set<int>)
    requires Listed(fs.code, t, f, fs.jpc, ls, outer) && CodeOk(fs.code, Open(ls, outer), fs.lasttarget, ls.j)
    ensures |fs.code| !in Open(ls, outer)
  {
  }

  /** Once both lists are closed, the pending jumps and the enclosing ones are left. */
  lemma OpenParts(fs: Fs, need: bool, fallsIn: bool, ls: Ls, outer: set<int>)
    requires |fs.code| !in Open(ls, outer) && (!fallsIn ==> ls.j == [])
    requires SetOf(ls.t) !! SetOf(ls.f) && SetOf(ls.t) !! SetOf(ls.j) && SetOf(ls.f) !! SetOf(ls.j)
    requires (SetOf(ls.t) + SetOf(ls.f) + SetOf(ls.j)) !! outer
    ensures var j' := PendingAfter(fs.code, need, fallsIn, ls.j);
            var open1 := OpenWide(fs, need, fallsIn, ls, outer);
            && open1 - SetOf(ls.f) - SetOf(ls.t) == Open(Ls([], [], j'), outer)
            && SetOf(ls.f) <= open1 && SetOf(ls.t) <= open1 && SetOf(j') <= open1 && outer <= open1
            && SetOf(j') !! SetOf(ls.t) && SetOf(j') !! SetOf(ls.f) && SetOf(j') !! outer
  {
    var j' := PendingAfter(fs.code, need, fallsIn, ls.j);
    if need && fallsIn {
      assert SetOf(j') == {|fs.code|} + SetOf(ls.j);
    }
  }

  lemma TailOuter(c: Code, c1: Code, need: bool, fallsIn: bool, reg: int, outer: set<int>)
    requires Tail(c, c1, need, fallsIn, reg)
    ensures OuterSame(c, c1, outer)
  {
    TailPrefix(c, c1, need, fallsIn, reg);
  }

  /** Patching one list leaves the pending jumps, the enclosing ones and the targets as they are. */
  lemma CloseOneKeeps(c: Code, c': Code, open: set<int>, l: seq<int>, reg: int, dt: int, jpc: int, j': seq<int>, outer: set<int>)
    requires Wf(c, open) && Targets(c, open, |c|) && IsList(c, jpc, j') && dt <= |c|
    requires Patched(c, c', SetOf(l), |c|, reg, dt) && SetOf(l) <= open && outer <= open
    requires SetOf(l) !! SetOf(j') && SetOf(l) !! outer
    ensures IsList(c', jpc, j') && Targets(c', open - SetOf(l), |c|) && OuterSame(c, c', outer) && |c'| == |c|
  {
    hide *;
    PatchedLength(c, c', SetOf(l), |c|, reg, dt);
    PatchedKeepsList(c, c', open, l, |c|, reg, dt, jpc, j');
    OpenIsJumps(c, open);
    PatchedTargets(c, c', open, SetOf(l), |c|, reg, dt, |c|);
    PatchedOuter(c, c', open, SetOf(l), |c|, reg, dt, outer);
  }

  lemma OpenIsJumps(c: Code, open: set<int>)
    requires Wf(c, open)
    ensures forall j :: j in open ==> 0 <= j < |c| && c[j].Jmp?
  {
  }

  lemma CloseKeeps(c1: Code, c2: Code, c3: Code, open1: set<int>, jpc: int, j': seq<int>, ls: Ls, outer: set<int>, reg: int)
    requires Wf(c1, open1) && Targets(c1, open1, |c1|) && IsList(c1, jpc, j')
    requires Patched(c1, c2, SetOf(ls.f), |c1|, reg, |c1| - 2) && Patched(c2, c3, SetOf(ls.t), |c1|, reg, |c1| - 1)
    requires SetOf(ls.f) <= open1 && SetOf(ls.t) <= open1 && outer <= open1
    requires SetOf(ls.t) !! SetOf(ls.f) && SetOf(j') !! SetOf(ls.t) && SetOf(j') !! SetOf(ls.f)
    requires outer !! SetOf(ls.t) && outer !! SetOf(ls.f)
    requires Wf(c2, open1 - SetOf(ls.f))
    ensures IsList(c3, jpc, j') && Targets(c3, open1 - SetOf(ls.f) - SetOf(ls.t), |c1|) && OuterSame(c1, c3, outer)
    ensures |c3| == |c1|
  {
    hide *;
    CloseOneKeeps(c1, c2, open1, ls.f, reg, |c1| - 2, jpc, j', outer);
    CloseOneKeeps(c2, c3, open1 - SetOf(ls.f), ls.t, reg, |c1| - 1, jpc, j', outer);
    OuterSameTrans(c1, c2, c3, outer);
  }

  lemma PendingNoDup(fs: Fs, t: int, f: int, need: bool, fallsIn: bool, ls: Ls, outer: set<int>)
    requires Listed(fs.code, t, f, fs.jpc, ls, outer)
    ensures var j' := PendingAfter(fs.code, need, fallsIn, ls.j); NoDup([] + [] + j')
  {
    ListedParts(fs.code, t, f, fs.jpc, ls, outer);
    ListInCode(fs.code, fs.jpc, ls.j);
    var j' := PendingAfter(fs.code, need, fallsIn, ls.j);
    assert [] + [] + j' == j';
    if need && fallsIn {
      forall a, b | 0 <= a < b < |j'|
        ensures j'[a] != j'[b]
      {
        assert ls.j[b - 1] in ls.j;
      }
    }
  }

  /** The list of pending jumps afterwards. */
  function CloseLs(fs: Fs, t: int, f: int, fallsIn: bool, ls: Ls): Ls {
    Ls([], [], PendingAfter(fs.code, Needs(fs, t, f), fallsIn, ls.j))
  }

  /** `exp2reg` on the lists, as a computation: whichever way the expression was left, its value
      ends up in the register. */
  lemma CloseListsGood(fs: Fs, k: Kind, t: int, f: int, fallsIn: bool, reg: int, ls: Ls, outer: set<int>, g: Env, r: Regs,
                       b: Outcome, y: Res, top: int)
    requires Listed(fs.code, t, f, fs.jpc, ls, outer) && CodeOk(fs.code, Open(ls, outer), fs.lasttarget, ls.j)
    requires t != f && reg >= top && reg != NO_REG && (b.Exit? ==> b.j in outer)
    requires if fallsIn then k == VNonReloc(reg) else k == VFalse && Needs(fs, t, f) && ls.j == []
    requires Meets(fs.code, k, ls, g, b, y, top, Exec(fs.code, Open(ls, outer), g, 0, r))
    ensures var fs' := CloseLists(fs, t, f, fallsIn, reg);
            var ls' := CloseLs(fs, t, f, fallsIn, ls);
            Meets(fs'.code, VNonReloc(reg), ls', g, b, Brought(y), top, Exec(fs'.code, Open(ls', outer), g, 0, r))
  {
    hide NeedValue, ListOf, LoadBools, PatchList, Wf, Targets, Patched, Served, Tail, Needs, Entry, OuterSame, Exec, Widened,
         IsList, Closed, Added, PendingAfter, Meets, Norm;
    var need, fs1, n := Needs(fs, t, f), Widened(fs, t, f, fallsIn, reg), |fs.code|;
    var c1 := fs1.code;
    var open1 := OpenWide(fs, need, fallsIn, ls, outer);
    WidenedTail(fs, t, f, fallsIn, reg, ls, outer);
    ListedParts(fs.code, t, f, fs.jpc, ls, outer);
    TailOk(fs.code, c1, need, fallsIn, reg, Open(ls, outer), open1, fs.lasttarget, ls.j);
    WidenedServes(fs, t, f, fallsIn, reg, ls, outer, open1);
    CloseBoth(c1, open1, t, f, ls, reg, need, g, r);
    OpenNotNew(fs, t, f, ls, outer);
    OpenParts(fs, need, fallsIn, ls, outer);
    TailRuns(fs.code, c1, need, fallsIn, reg, Open(ls, outer), open1, g, r);
    BaseApart(fs, t, f, ls, outer, b);
    CloseListsOk(fs, k, t, f, fallsIn, reg, ls, outer);
    ClosedMeets(fs.code, c1, CloseLists(fs, t, f, fallsIn, reg).code, k, ls, need, fallsIn, reg, g, b, y, top,
                Exec(fs.code, Open(ls, outer), g, 0, r));
  }

  /** The exits of what came before are not on the lists. */
  lemma BaseApart(fs: Fs, t: int, f: int, ls: Ls, outer: set<int>, b: Outcome)
    requires Listed(fs.code, t, f, fs.jpc, ls, outer) && CodeOk(fs.code, Open(ls, outer), fs.lasttarget, ls.j)
    requires b.Exit? ==> b.j in outer
    ensures b.Exit? ==> 0 <= b.j < |fs.code| && b.j !in ls.t && b.j !in ls.f && b.j !in ls.j
    ensures forall j :: j in ls.t || j in ls.f || j in ls.j ==> 0 <= j < |fs.code|
  {
    ListInCode(fs.code, t, ls.t);
    ListInCode(fs.code, f, ls.f);
    ListInCode(fs.code, fs.jpc, ls.j);
    if b.Exit? {
      assert b.j in Open(ls, outer);
      assert forall j :: j in ls.t + ls.f + ls.j <==> j in ls.t || j in ls.f || j in ls.j;
    }
  }
}
