/**
 The shape that the jump lists of an expression keep: threaded through the code, apart from each
 other, every test with its jump. The code generator relies on it whenever it walks a list.
 */
module CodeGenShape {
  import opened Vm
  import opened CodeGen
  import opened CodeGenLists
  import opened CodeGenSem
  import opened CodeGenClose
  import opened CodeGenRegs
  import opened CodeGenCond
  import opened CodeGenBranch
  import opened CodeGenNot
  import opened Sequences

  ghost predicate Shape(fs: Fs, e: Exp, ls: Ls) {
    Listed(fs.code, e.t, e.f, fs.jpc, ls, {}) && Paired(fs.code)
  }

  lemma ShapeLists(fs: Fs, e: Exp, ls: Ls)
    requires Shape(fs, e, ls)
    ensures IsList(fs.code, e.t, ls.t) && IsList(fs.code, e.f, ls.f) && IsList(fs.code, fs.jpc, ls.j)
    ensures NoDup(ls.t) && NoDup(ls.f) && NoDup(ls.j) && Paired(fs.code)
    ensures SetOf(ls.t) !! SetOf(ls.f) && SetOf(ls.t) !! SetOf(ls.j) && SetOf(ls.f) !! SetOf(ls.j)
    ensures AreJumps(fs.code, SetOf(ls.t)) && AreJumps(fs.code, SetOf(ls.f)) && AreJumps(fs.code, SetOf(ls.j))
  {
    ListedParts(fs.code, e.t, e.f, fs.jpc, ls, {});
  }

  lemma NoJumpEnds(c: Code, l: seq<int>)
    requires IsList(c, NO_JUMP, l)
    ensures l == []
  {
  }

  /** Patching one list keeps another. */
  lemma PatchedOther(c: Code, c': Code, l: seq<int>, vt: int, reg: int, dt: int, h: int, l2: seq<int>)
    requires Patched(c, c', SetOf(l), vt, reg, dt) && AreJumps(c, SetOf(l)) && IsList(c, h, l2) && SetOf(l) !! SetOf(l2)
    ensures IsList(c', h, l2)
  {
    PatchedKinds(c, c', SetOf(l), vt, reg, dt);
    ListInCode(c, h, l2);
    forall j | j in l2
      ensures 0 <= j < |c'| && c'[j] == c[j]
    {
      assert j in SetOf(l2);
    }
    ListFrame(c, c', h, l2);
  }

  lemma PatchKeeps(c: Code, head: int, l: seq<int>, vt: int, reg: int, dt: int)
    requires Paired(c) && IsList(c, head, l) && NoDup(l)
    ensures Paired(PatchList(c, head, vt, reg, dt)) && |PatchList(c, head, vt, reg, dt)| == |c|
    ensures forall h, l2 :: IsList(c, h, l2) && SetOf(l) !! SetOf(l2) ==> IsList(PatchList(c, head, vt, reg, dt), h, l2)
  {
    hide PatchList;
    var c' := PatchList(c, head, vt, reg, dt);
    PatchListIs(c, head, l, vt, reg, dt);
    ListInCode(c, head, l);
    PatchedPaired(c, c', SetOf(l), vt, reg, dt);
    forall h, l2 | IsList(c, h, l2) && SetOf(l) !! SetOf(l2)
      ensures IsList(c', h, l2)
    {
      PatchedOther(c, c', l, vt, reg, dt, h, l2);
    }
  }

  /** One turn of the loop over a list keeps the rest of the list. */
  lemma PatchOneKeeps(c: Code, l: seq<int>, vt: int, reg: int, dt: int)
    requires Paired(c) && l != [] && IsList(c, l[0], l) && NoDup(l)
    ensures var c' := PatchOne(c, l[0], vt, reg, dt);
            && Paired(c') && IsList(c', GetJump(c, l[0]), l[1..]) && NoDup(l[1..])
  {
    var c' := PatchOne(c, l[0], vt, reg, dt);
    PatchOneIs(c, l[0], vt, reg, dt);
    assert SetOf([l[0]]) == {l[0]};
    assert l == [l[0]] + l[1..];
    PatchedPaired(c, c', {l[0]}, vt, reg, dt);
    PatchedOther(c, c', [l[0]], vt, reg, dt, GetJump(c, l[0]), l[1..]);
  }

  lemma RemoveOneKeeps(c: Code, l: seq<int>)
    requires Paired(c) && l != [] && IsList(c, l[0], l) && NoDup(l)
    ensures var c' := c[Control(c, l[0]) := PatchedTest(c[Control(c, l[0])], NO_REG)];
            && Paired(c') && IsList(c', GetJump(c, l[0]), l[1..]) && NoDup(l[1..])
            && RemoveAll(c, l) == RemoveAll(c', l[1..])
  {
    var c' := c[Control(c, l[0]) := PatchedTest(c[Control(c, l[0])], NO_REG)];
    ListInCode(c, GetJump(c, l[0]), l[1..]);
    ListFrame(c, c', GetJump(c, l[0]), l[1..]);
  }

  // ------------------------------------------------------------- emitting

  lemma AppendedShape(fs: Fs, fs': Fs, e: Exp, ls: Ls, d: Code)
    requires Shape(fs, e, ls) && fs'.code == fs.code + d && fs'.jpc == fs.jpc && Paired(fs'.code)
    ensures Shape(fs', e, ls)
  {
    ShapeLists(fs, e, ls);
    ListInCode(fs.code, e.t, ls.t);
    ListInCode(fs.code, e.f, ls.f);
    ListInCode(fs.code, fs.jpc, ls.j);
    ListFrame(fs.code, fs'.code, e.t, ls.t);
    ListFrame(fs.code, fs'.code, e.f, ls.f);
    ListFrame(fs.code, fs'.code, fs.jpc, ls.j);
    ListedFrom(fs'.code, e.t, e.f, fs'.jpc, ls, {});
  }

  lemma SettledShape(fs: Fs, e: Exp, ls: Ls)
    requires Shape(fs, e, ls)
    ensures Shape(DischargeJpc(fs), e, ls.(j := [])) && |Settled(fs)| == |fs.code|
  {
    hide PatchList;
    ShapeLists(fs, e, ls);
    PatchKeeps(fs.code, fs.jpc, ls.j, |fs.code|, NO_REG, |fs.code|);
    ListedFrom(Settled(fs), e.t, e.f, NO_JUMP, ls.(j := []), {});
  }

  lemma EmitShape(fs: Fs, e: Exp, ls: Ls, i: Instr)
    requires Shape(fs, e, ls) && !i.IsTest()
    ensures Shape(Emit(fs, i), e, ls.(j := [])) && |Emit(fs, i).code| == |fs.code| + 1
  {
    SettledShape(fs, e, ls);
    PairedLast(Settled(fs));
    AppendedShape(DischargeJpc(fs), Emit(fs, i), e, ls.(j := []), [i]);
  }

  lemma PairedLast(c: Code)
    requires Paired(c)
    ensures |c| > 0 ==> !c[|c| - 1].IsTest()
  {
  }

  /** A test and its jump; the jump is a list of its own. */
  lemma CondJumpShape(fs: Fs, e: Exp, ls: Ls, i: Instr)
    requires Shape(fs, e, ls) && i.IsTest()
    ensures var (fs', j) := CondJump(fs, i);
            && Shape(fs', e, ls.(j := [])) && IsList(fs'.code, j, [j]) && NoDup([j])
            && j !in SetOf(ls.t) && j !in SetOf(ls.f)
  {
    hide PatchList;
    SettledShape(fs, e, ls);
    CondJumpIs(fs, i);
    var (fs', j) := CondJump(fs, i);
    PairedLast(Settled(fs));
    AppendedShape(DischargeJpc(fs), fs', e, ls.(j := []), [i, Jmp(NO_JUMP)]);
    LastAlone(fs'.code, j);
    ShapeLists(DischargeJpc(fs), e, ls.(j := []));
  }

  /** A jump, with the pending ones behind it. */
  lemma JumpShape(fs: Fs, e: Exp, ls: Ls)
    requires Shape(fs, e, ls)
    ensures var (fs', j) := Jump(fs);
            var l := [|fs.code|] + ls.j;
            && Shape(fs', e, ls.(j := [])) && IsList(fs'.code, j, l) && NoDup(l)
            && SetOf(l) !! SetOf(ls.t) && SetOf(l) !! SetOf(ls.f)
  {
    var n, l := |fs.code|, [|fs.code|] + ls.j;
    hide Jump, Listed;
    ShapeLists(fs, e, ls);
    JumpIs(fs, e.t, e.f, ls, {});
    var fs' := Jump(fs).0;
    PrefixSame(fs.code, fs'.code);
    ListInCode(fs.code, e.t, ls.t);
    ListInCode(fs.code, e.f, ls.f);
    ListFrame(fs.code, fs'.code, e.t, ls.t);
    ListFrame(fs.code, fs'.code, e.f, ls.f);
    ListedFrom(fs'.code, e.t, e.f, NO_JUMP, ls.(j := []), {});
    JumpSet(fs.code, ls, l);
    PairedLast(fs.code);
  }

  lemma JumpSet(c: Code, ls: Ls, l: seq<int>)
    requires AreJumps(c, SetOf(ls.t)) && AreJumps(c, SetOf(ls.f)) && AreJumps(c, SetOf(ls.j)) && NoDup(ls.j) && l == [|c|] + ls.j
    ensures SetOf(l) == {|c|} + SetOf(ls.j) && NoDup(l) && |c| !in SetOf(ls.t) && |c| !in SetOf(ls.f)
  {
    forall a, b | 0 <= a < b < |l|
      ensures l[a] != l[b]
    {
      assert ls.j[b - 1] in SetOf(ls.j);
    }
  }

  // ------------------------------------------------------------- lists

  /** `luaK_patchtohere` */
  lemma PatchToHereShape(fs: Fs, e: Exp, ls: Ls, h: int, l: seq<int>)
    requires Shape(fs, e, ls) && IsList(fs.code, h, l) && NoDup(l)
    requires SetOf(l) !! SetOf(ls.t) && SetOf(l) !! SetOf(ls.f) && SetOf(l) !! SetOf(ls.j)
    ensures Shape(PatchToHere(fs, h), e, ls.(j := ls.j + l))
  {
    hide Concat;
    ShapeLists(fs, e, ls);
    NoDupJoin(ls.j, l);
    ConcatRelinks(fs.code, fs.jpc, ls.j, h, l);
    var (c, jpc) := Concat(fs.code, fs.jpc, h);
    RelinkedList(fs.code, c, SetOf(ls.j), e.t, ls.t);
    RelinkedList(fs.code, c, SetOf(ls.j), e.f, ls.f);
    ListedFrom(c, e.t, e.f, jpc, ls.(j := ls.j + l), {});
    RelinkedPaired(fs.code, c, SetOf(ls.j));
  }

  lemma RelinkedPaired(c: Code, c': Code, l: set<int>)
    requires Relinked(c, c', l) && Paired(c)
    ensures Paired(c')
  {
  }

  /** A jump joins the true list or the false list. */
  lemma JoinTrueShape(fs: Fs, e: Exp, ls: Ls, h: int, l: seq<int>)
    requires Shape(fs, e, ls) && IsList(fs.code, h, l) && NoDup(l)
    requires SetOf(l) !! SetOf(ls.t) && SetOf(l) !! SetOf(ls.f) && SetOf(l) !! SetOf(ls.j)
    ensures var (c, t) := Concat(fs.code, e.t, h); Shape(fs.(code := c), e.(t := t), ls.(t := ls.t + l))
  {
    hide Concat;
    ShapeLists(fs, e, ls);
    NoDupJoin(ls.t, l);
    ConcatRelinks(fs.code, e.t, ls.t, h, l);
    var (c, t) := Concat(fs.code, e.t, h);
    RelinkedList(fs.code, c, SetOf(ls.t), e.f, ls.f);
    RelinkedList(fs.code, c, SetOf(ls.t), fs.jpc, ls.j);
    ListedFrom(c, t, e.f, fs.jpc, ls.(t := ls.t + l), {});
    RelinkedPaired(fs.code, c, SetOf(ls.t));
  }

  lemma JoinFalseShape(fs: Fs, e: Exp, ls: Ls, h: int, l: seq<int>)
    requires Shape(fs, e, ls) && IsList(fs.code, h, l) && NoDup(l)
    requires SetOf(l) !! SetOf(ls.t) && SetOf(l) !! SetOf(ls.f) && SetOf(l) !! SetOf(ls.j)
    ensures var (c, f) := Concat(fs.code, e.f, h); Shape(fs.(code := c), e.(f := f), ls.(f := ls.f + l))
  {
    hide Concat;
    ShapeLists(fs, e, ls);
    NoDupJoin(ls.f, l);
    ConcatRelinks(fs.code, e.f, ls.f, h, l);
    var (c, f) := Concat(fs.code, e.f, h);
    RelinkedList(fs.code, c, SetOf(ls.f), e.t, ls.t);
    RelinkedList(fs.code, c, SetOf(ls.f), fs.jpc, ls.j);
    ListedFrom(c, e.t, f, fs.jpc, ls.(f := ls.f + l), {});
    RelinkedPaired(fs.code, c, SetOf(ls.f));
  }

  /** The last instruction changes, or goes, if it is neither a jump nor a test. */
  lemma LastShape(fs: Fs, fs': Fs, e: Exp, ls: Ls)
    requires Shape(fs, e, ls) && |fs.code| > 0 && !fs.code[|fs.code| - 1].Jmp? && !fs.code[|fs.code| - 1].IsTest()
    requires fs'.jpc == fs.jpc && |fs.code| - 1 <= |fs'.code| <= |fs.code|
    requires forall i :: 0 <= i < |fs.code| - 1 ==> fs'.code[i] == fs.code[i]
    requires |fs'.code| == |fs.code| ==> !fs'.code[|fs.code| - 1].IsTest()
    ensures Shape(fs', e, ls)
  {
    ShapeLists(fs, e, ls);
    ListInCode(fs.code, e.t, ls.t);
    ListInCode(fs.code, e.f, ls.f);
    ListInCode(fs.code, fs.jpc, ls.j);
    ListFrame(fs.code, fs'.code, e.t, ls.t);
    ListFrame(fs.code, fs'.code, e.f, ls.f);
    ListFrame(fs.code, fs'.code, fs.jpc, ls.j);
    ListedFrom(fs'.code, e.t, e.f, fs'.jpc, ls, {});
  }

  /** An instruction that is neither changes into another. */
  lemma ChangedShape(fs: Fs, fs': Fs, e: Exp, ls: Ls, pc: int)
    requires Shape(fs, e, ls) && |fs'.code| == |fs.code| && 0 <= pc < |fs.code| && !fs.code[pc].Jmp? && !fs'.code[pc].Jmp?
    requires fs.code[pc].IsTest() == fs'.code[pc].IsTest()
    requires fs'.jpc == fs.jpc && forall i :: 0 <= i < |fs.code| && i != pc ==> fs'.code[i] == fs.code[i]
    ensures Shape(fs', e, ls)
  {
    ShapeLists(fs, e, ls);
    ListInCode(fs.code, e.t, ls.t);
    ListInCode(fs.code, e.f, ls.f);
    ListInCode(fs.code, fs.jpc, ls.j);
    ListFrame(fs.code, fs'.code, e.t, ls.t);
    ListFrame(fs.code, fs'.code, e.f, ls.f);
    ListFrame(fs.code, fs'.code, fs.jpc, ls.j);
    ListedFrom(fs'.code, e.t, e.f, fs'.jpc, ls, {});
  }

  // ------------------------------------------------------------- expressions

  /** The shape, with an instruction or a comparison at the end that is not finished. */
  ghost predicate Shaped(fs: Fs, e: Exp, ls: Ls) {
    Shape(fs, e, ls) && KindOk(fs, e.k, ls, {})
  }

  lemma DischargeVarsShape(fs: Fs, e: Exp, ls: Ls) returns (ls': Ls)
    requires Shaped(fs, e, ls)
    ensures var (fs', e') := DischargeVars(fs, e);
            Shaped(fs', e', ls') && e'.t == e.t && e'.f == e.f && Discharged(e'.k)
  {
    hide Listed, Paired, PatchList;
    ls' := ls;
    if e.k.VGlobal? {
      ls' := ls.(j := []);
      EmitShape(fs, e, ls, GetGlobal(0, e.k.info));
      SettledShape(fs, e, ls);
    }
  }

  /** `luaK_nil` */
  lemma NilShape(fs: Fs, e: Exp, ls: Ls, reg: int) returns (ls': Ls)
    requires Shape(fs, e, ls)
    ensures Shape(CodeNil(fs, reg), e, ls')
  {
    hide Shape, Emit;
    ls' := ls;
    var n := |fs.code|;
    if n > fs.lasttarget && n == 0 && reg >= fs.nactvar {
    } else if n > fs.lasttarget && n > 0 && fs.code[n - 1].LoadNil? && fs.code[n - 1].a <= reg <= fs.code[n - 1].b + 1 {
      LastShape(fs, CodeNil(fs, reg), e, ls);
    } else {
      EmitShape(fs, e, ls, LoadNil(reg, reg));
      ls' := ls.(j := []);
    }
  }

  /** `discharge2reg` */
  lemma LoadShape(fs: Fs, e: Exp, ls: Ls, reg: int) returns (ls': Ls)
    requires Shaped(fs, e, ls) && !e.k.VJmp?
    ensures Shape(Load(fs, e.k, reg), e, ls')
  {
    hide Shape, Emit, CodeNil, FindK;
    ls' := ls;
    match e.k {
      case VNil =>
        ls' := NilShape(fs, e, ls, reg);
      case VKNum(n) =>
        var (fs1, i) := AddK(fs, Number(n));
        ConstantShape(fs, fs1, e, ls);
        EmitShape(fs1, e, ls, LoadK(reg, i));
        ls' := ls.(j := []);
      case VReloc(pc) =>
        LastShape(fs, Load(fs, e.k, reg), e, ls);
      case VNonReloc(r) =>
        if r != reg {
          EmitShape(fs, e, ls, Move(reg, r));
          ls' := ls.(j := []);
        }
      case VFalse =>
        EmitShape(fs, e, ls, LoadBool(reg, false, false));
        ls' := ls.(j := []);
      case VTrue =>
        EmitShape(fs, e, ls, LoadBool(reg, true, false));
        ls' := ls.(j := []);
      case VK(i) =>
        EmitShape(fs, e, ls, LoadK(reg, i));
        ls' := ls.(j := []);
      case _ =>
    }
  }

  /** Constants and registers do not matter. */
  lemma ConstantShape(fs: Fs, fs': Fs, e: Exp, ls: Ls)
    requires Shape(fs, e, ls) && fs'.code == fs.code && fs'.jpc == fs.jpc
    ensures Shape(fs', e, ls)
  {
  }

  lemma KindShape(fs: Fs, e: Exp, ls: Ls, k: Kind)
    requires Shape(fs, e, ls)
    ensures Shape(fs, e.(k := k), ls)
  {
  }

  // ------------------------------------------------------------- exp2reg

  lemma PendingApart(c: Code, need: bool, fallsIn: bool, ls: Ls)
    requires AreJumps(c, SetOf(ls.t)) && AreJumps(c, SetOf(ls.f)) && AreJumps(c, SetOf(ls.j)) && NoDup(ls.j)
    requires SetOf(ls.t) !! SetOf(ls.j) && SetOf(ls.f) !! SetOf(ls.j)
    ensures var j' := PendingAfter(c, need, fallsIn, ls.j); NoDup(j') && SetOf(ls.t) !! SetOf(j') && SetOf(ls.f) !! SetOf(j')
  {
    if need && fallsIn {
      JumpSet(c, ls, [|c|] + ls.j);
    }
  }

  lemma WidenedShape(fs: Fs, e: Exp, fallsIn: bool, reg: int, ls: Ls)
    requires Shape(fs, e, ls) && (!fallsIn ==> ls.j == [])
    ensures Shape(Widened(fs, e.t, e.f, fallsIn, reg), e, ls.(j := PendingAfter(fs.code, Needs(fs, e.t, e.f), fallsIn, ls.j)))
  {
    hide Needs, Widened, Listed;
    var need, fs1 := Needs(fs, e.t, e.f), Widened(fs, e.t, e.f, fallsIn, reg);
    ShapeLists(fs, e, ls);
    WidenedTail(fs, e.t, e.f, fallsIn, reg, ls, {});
    TailPrefix(fs.code, fs1.code, need, fallsIn, reg);
    PendingApart(fs.code, need, fallsIn, ls);
    TailPaired(fs.code, fs1.code, need, fallsIn, reg);
    ListInCode(fs.code, e.t, ls.t);
    ListInCode(fs.code, e.f, ls.f);
    ListInCode(fs.code, fs.jpc, ls.j);
    ListFrame(fs.code, fs1.code, e.t, ls.t);
    ListFrame(fs.code, fs1.code, e.f, ls.f);
    ListFrame(fs.code, fs1.code, fs.jpc, ls.j);
    ListedFrom(fs1.code, e.t, e.f, fs1.jpc, ls.(j := PendingAfter(fs.code, need, fallsIn, ls.j)), {});
  }

  lemma TailPaired(c: Code, c1: Code, need: bool, fallsIn: bool, reg: int)
    requires Tail(c, c1, need, fallsIn, reg) && Paired(c)
    ensures Paired(c1)
  {
    TailPrefix(c, c1, need, fallsIn, reg);
    forall pc | 0 <= pc < |c1| && c1[pc].IsTest()
      ensures pc + 1 < |c1| && c1[pc + 1].Jmp?
    {
      assert pc < |c|;
    }
  }

  lemma ClosedShape(fs: Fs, e: Exp, reg: int, ls: Ls, df: int, dt: int)
    requires Shape(fs, e, ls)
    ensures var c := PatchList(PatchList(fs.code, e.f, |fs.code|, reg, df), e.t, |fs.code|, reg, dt);
            && Shape(fs.(code := c), Leaf(e.k), Ls([], [], ls.j))
            && IsList(PatchList(fs.code, e.f, |fs.code|, reg, df), e.t, ls.t) && Paired(PatchList(fs.code, e.f, |fs.code|, reg, df))
  {
    hide PatchList, Listed;
    ShapeLists(fs, e, ls);
    var n := |fs.code|;
    PatchKeeps(fs.code, e.f, ls.f, n, reg, df);
    var c := PatchList(fs.code, e.f, n, reg, df);
    PatchKeeps(c, e.t, ls.t, n, reg, dt);
    EmptyList(PatchList(c, e.t, n, reg, dt));
    ListedFrom(PatchList(c, e.t, n, reg, dt), NO_JUMP, NO_JUMP, fs.jpc, Ls([], [], ls.j), {});
  }

  lemma EmptyList(c: Code)
    ensures IsList(c, NO_JUMP, [])
  {
  }

  /** Where every jump brings its value the other target does not matter. */
  lemma TargetUnused(c: Code, head: int, l: seq<int>, vt: int, reg: int, dt: int, dt': int)
    requires Paired(c) && IsList(c, head, l) && NoDup(l)
    requires forall j :: j in l && 0 <= j < |c| ==> IsSet(c, j)
    ensures PatchList(c, head, vt, reg, dt) == PatchList(c, head, vt, reg, dt')
  {
    hide PatchList;
    PatchListIs(c, head, l, vt, reg, dt);
    PatchListIs(c, head, l, vt, reg, dt');
    var c1, c2 := PatchList(c, head, vt, reg, dt), PatchList(c, head, vt, reg, dt');
    forall pc | 0 <= pc < |c|
      ensures c1[pc] == c2[pc]
    {
      assert c1[pc] == PatchedInstr(c, SetOf(l), vt, reg, dt, pc);
      assert c2[pc] == PatchedInstr(c, SetOf(l), vt, reg, dt', pc);
    }
  }

  /** Without need of the two loads, they are not used as targets. */
  lemma LoadsUnused(fs: Fs, e: Exp, reg: int, ls: Ls, df: int, dt: int)
    requires Shape(fs, e, ls) && !Needs(fs, e.t, e.f)
    ensures var n := |fs.code|;
            PatchList(PatchList(fs.code, e.f, n, reg, df), e.t, n, reg, dt) ==
              PatchList(PatchList(fs.code, e.f, n, reg, n - 2), e.t, n, reg, n - 1)
  {
    hide PatchList, Needs, Listed;
    var n := |fs.code|;
    ShapeLists(fs, e, ls);
    NeedsIs(fs, e.t, e.f, ls, {});
    TargetUnused(fs.code, e.f, ls.f, n, reg, df, n - 2);
    var c := PatchList(fs.code, e.f, n, reg, df);
    PatchKeeps(fs.code, e.f, ls.f, n, reg, df);
    PatchListIs(fs.code, e.f, ls.f, n, reg, df);
    forall j | j in ls.t && 0 <= j < |c|
      ensures IsSet(c, j)
    {
      assert j in SetOf(ls.t);
      PatchedSets(fs.code, c, SetOf(ls.f), n, reg, df, j);
    }
    TargetUnused(c, e.t, ls.t, n, reg, dt, n - 1);
  }

  /** The jump of a comparison joins the true list. */
  lemma JumpJoinsShape(fs: Fs, e: Exp, ls: Ls)
    requires Shaped(fs, e, ls) && e.k.VJmp?
    ensures var (c, t) := Concat(fs.code, e.t, e.k.info);
            && Shape(fs.(code := c), e.(t := t), ls.(t := ls.t + [e.k.info])) && ls.j == []
            && t != e.f && Needs(fs.(code := c), t, e.f)
  {
    hide Concat, Needs;
    var p := e.k.info;
    ShapeLists(fs, e, ls);
    LastAlone(fs.code, p);
    JumpApart(ls, {}, p);
    JoinTrueShape(fs, e, ls, p, [p]);
    var (c, t) := Concat(fs.code, e.t, p);
    NoDupJoin(ls.t, [p]);
    ConcatRelinks(fs.code, e.t, ls.t, p, [p]);
    ComparisonTests(c, fs.code, SetOf(ls.t), p);
    NeedsThis(fs.(code := c), t, e.f, ls.(t := ls.t + [p]), {}, p);
    ShapeLists(fs.(code := c), e.(t := t), ls.(t := ls.t + [p]));
    HeadApart(c, t, e.f, ls.t + [p], ls.f);
  }

  lemma NothingWaits(fs: Fs, j: seq<int>)
    requires IsList(fs.code, fs.jpc, j)
    ensures j == [] ==> fs.jpc == NO_JUMP
  {
  }

  lemma DischargedTwice(fs: Fs, e: Exp)
    ensures var (fs1, e1) := DischargeVars(fs, e); DischargeVars(fs1, e1) == (fs1, e1)
  {
  }

  lemma DropTrueShape(fs: Fs, e: Exp, ls: Ls)
    requires Shape(fs, e, ls)
    ensures Shape(fs, e.(t := NO_JUMP), ls.(t := []))
  {
    ShapeLists(fs, e, ls);
    ListedFrom(fs.code, NO_JUMP, e.f, fs.jpc, ls.(t := []), {});
  }

  lemma DropFalseShape(fs: Fs, e: Exp, ls: Ls)
    requires Shape(fs, e, ls)
    ensures Shape(fs, e.(f := NO_JUMP), ls.(f := []))
  {
    ShapeLists(fs, e, ls);
    ListedFrom(fs.code, e.t, NO_JUMP, fs.jpc, ls.(f := []), {});
  }

  /** The comparison at the end, inverted. */
  lemma InvertedShape(fs: Fs, e: Exp, ls: Ls)
    requires Shaped(fs, e, ls) && e.k.VJmp?
    ensures var fs' := fs.(code := InvertJump(fs.code, e.k.info));
            && Shaped(fs', e, ls) && IsList(fs'.code, e.k.info, [e.k.info]) && NoDup([e.k.info])
            && SetOf([e.k.info]) !! SetOf(ls.t) && SetOf([e.k.info]) !! SetOf(ls.f) && SetOf([e.k.info]) !! SetOf(ls.j)
  {
    hide Listed, Paired;
    var fs' := fs.(code := InvertJump(fs.code, e.k.info));
    ChangedShape(fs, fs', e, ls, e.k.info - 1);
    LastAlone(fs'.code, e.k.info);
    JumpApart(ls, {}, e.k.info);
  }

  lemma LastJumpShape(fs: Fs, e: Exp, ls: Ls)
    requires Shaped(fs, e, ls) && e.k.VJmp?
    ensures IsList(fs.code, e.k.info, [e.k.info]) && NoDup([e.k.info])
    ensures SetOf([e.k.info]) !! SetOf(ls.t) && SetOf([e.k.info]) !! SetOf(ls.f) && SetOf([e.k.info]) !! SetOf(ls.j)
  {
    LastAlone(fs.code, e.k.info);
    JumpApart(ls, {}, e.k.info);
  }

  /** `codenot` takes the values from both lists, one after the other. */
  lemma RemovedShape(fs: Fs, e: Exp, ls: Ls)
    requires Shape(fs, e, ls)
    ensures var c1 := RemoveAll(fs.code, ListOf(fs.code, e.t));
            && Paired(c1) && IsList(c1, e.f, ls.f)
            && Shape(fs.(code := RemoveAll(c1, ListOf(c1, e.f))), Exp(e.k, e.f, e.t), Ls(ls.f, ls.t, ls.j))
  {
    hide RemoveAll, Listed, Paired, IsSet;
    var c, open := fs.code, SetOf(ls.t) + SetOf(ls.f);
    ShapeLists(fs, e, ls);
    ListOfIs(c, e.t, ls.t);
    RemoveAllIs(c, ls.t, open);
    var c1 := RemoveAll(c, ls.t);
    SameLists(c, c1, e.t, e.f, ls);
    ListOfIs(c1, e.f, ls.f);
    RemoveAllIs(c1, ls.f, open);
    var c2 := RemoveAll(c1, ls.f);
    SameTwice(c, c1, c2, open);
    RemovedLength(c, c2, open);
    ShapeListed(fs, e, ls);
    JumpsSame(c, c1, c2);
    SwappedLists(c, c2, e.t, e.f, fs.jpc, ls, {});
  }

  lemma JumpsSame(c: Code, c1: Code, c2: Code)
    requires |c1| == |c| && |c2| == |c|
    requires forall pc :: 0 <= pc < |c| && c[pc].Jmp? ==> c1[pc] == c[pc]
    requires forall pc :: 0 <= pc < |c1| && c1[pc].Jmp? ==> c2[pc] == c1[pc]
    ensures forall pc :: 0 <= pc < |c| && c[pc].Jmp? ==> c2[pc] == c[pc]
  {
  }

  lemma ShapeListed(fs: Fs, e: Exp, ls: Ls)
    requires Shape(fs, e, ls)
    ensures Listed(fs.code, e.t, e.f, fs.jpc, ls, {})
  {
  }
}
