/**
 What it means that generated code computes an expression. Code for an expression is entered
 at its start and left at its end with a value, or left by one of the jumps of its true and
 false lists.
 */
module CodeGenSem {
  import opened Vm
  import opened CodeGen
  import opened CodeGenLists
  import opened CodeGenYield
  import opened Sequences

  /** The jumps on the lists of an expression and on the list of jumps to the current place. */
  datatype Ls = Ls(t: seq<int>, f: seq<int>, j: seq<int>)

  function Open(ls: Ls, outer: set<int>): set<int> {
    outer + SetOf(ls.t) + SetOf(ls.f) + SetOf(ls.j)
  }

  /** The three lists are threaded through the code, apart from each other and from the open
      jumps of the enclosing expressions. */
  ghost predicate Listed(c: Code, t: int, f: int, jpc: int, ls: Ls, outer: set<int>) {
    && IsList(c, t, ls.t) && IsList(c, f, ls.f) && IsList(c, jpc, ls.j)
    && NoDup(ls.t + ls.f + ls.j)
    && forall j :: j in ls.t + ls.f + ls.j ==> j !in outer
  }

  /** Jumps with a target only go to places marked as targets. */
  ghost predicate Targets(c: Code, open: set<int>, last: int) {
    forall pc :: 0 <= pc < |c| ==>
      (c[pc].Jmp? && pc !in open ==> pc + 1 + c[pc].sbx <= last) && (c[pc].LoadBool? && c[pc].skip ==> pc + 2 <= last)
  }

  ghost predicate CodeOk(c: Code, open: set<int>, last: int, j: seq<int>) {
    && Wf(c, open) && Targets(c, open, last) && last <= |c| && (j != [] ==> last == |c|)
  }

  /** The code before the instruction that still waits for its register. */
  function Body(fs: Fs, k: Kind): Code {
    if k.VReloc? && 0 <= k.info < |fs.code| then fs.code[..k.info] else fs.code
  }

  /** The jump of a comparison is open as well. */
  function AllOpen(k: Kind, ls: Ls, outer: set<int>): set<int> {
    if k.VJmp? then Open(ls, outer) + {k.info} else Open(ls, outer)
  }

  ghost predicate KindOk(fs: Fs, k: Kind, ls: Ls, outer: set<int>) {
    match k
    case VReloc(pc) =>
      pc == |fs.code| - 1 && pc >= 0 && (fs.code[pc].Not? || fs.code[pc].GetGlobal?) && ls.j == []
    case VJmp(pc) =>
      pc == |fs.code| - 1 && pc >= 1 && fs.code[pc] == Jmp(NO_JUMP) && fs.code[pc - 1].Cmp? && ls.j == [] &&
      fs.lasttarget <= |fs.code| - 2 && pc !in Open(ls, outer)
    case _ => true
  }

  ghost predicate Ok(fs: Fs, e: Exp, ls: Ls, outer: set<int>) {
    && Listed(fs.code, e.t, e.f, fs.jpc, ls, outer)
    && KindOk(fs, e.k, ls, outer)
    && CodeOk(Body(fs, e.k), AllOpen(e.k, ls, outer), fs.lasttarget, ls.j)
  }

  // ------------------------------------------------------------- outcomes

  /** Jumps to the current place arrive there. */
  function Norm(o: Outcome, j: seq<int>): Outcome {
    if o.Exit? && o.j in j then Fall(o.r) else o
  }

  /** Registers below `top` are as they were. */
  ghost predicate SameBelow(r0: Regs, r: Regs, top: int) {
    forall i :: i < top ==> Get(r, i) == Get(r0, i)
  }

  /** The value that an expression of this kind has. */
  ghost predicate HasValue(g: Env, c: Code, k: Kind, r: Regs, v: Value) {
    match k
    case VNil => v == Nil
    case VTrue => v == Bool(true)
    case VFalse => v == Bool(false)
    case VK(i) => v == Const(g, i)
    case VKNum(n) => v == Number(n)
    case VLocal(i) => v == Get(r, i)
    case VNonReloc(i) => v == Get(r, i)
    case VGlobal(n) => v == g.globals(n)
    case VReloc(pc) => 0 <= pc < |c| && v == Relocatable(g, c[pc], r)
    case VJmp(_) => v == Bool(false)
  }

  /** The result of an instruction that can go to any register. */
  function Relocatable(g: Env, i: Instr, r: Regs): Value {
    match i
    case Not(_, b) => Bool(!Truthy(Get(r, b)))
    case GetGlobal(_, n) => g.globals(n)
    case _ => Nil
  }

  /** What the open jump at `j` brings along: the tested register, if the test can hand it over. */
  function CarryAt(c: Code, j: int, r: Regs): Carry {
    if 0 <= j < |c| && IsSet(c, j) then Carried(Get(r, c[Control(c, j)].b)) else Bare
  }

  /** Some jump of the list has a value in tow. */
  ghost predicate SetIn(c: Code, l: seq<int>) {
    exists j :: j in l && 0 <= j < |c| && IsSet(c, j)
  }

  ghost function MarksIn(c: Code, ls: Ls): Marks {
    Marks(SetIn(c, ls.t), SetIn(c, ls.f), SetIn(c, ls.j))
  }

  /** The code of an expression that yields `y`, entered with `b`: what was an exit of the code before
      it stays one; otherwise it comes to its end, there or by a jump that waits for it, or leaves
      by a list. */
  ghost predicate Meets(c: Code, k: Kind, ls: Ls, g: Env, b: Outcome, y: Res, top: int, o: Outcome) {
    match b
    case Fall(r0) =>
      (match o
       case Fall(r) => SameBelow(r0, r, top) && y.Here? && y.c == Bare && HasValue(g, c, k, r, y.v)
       case Exit(j, r) => SameBelow(r0, r, top) && LeftBy(c, k, ls, g, y, j, r)
       case Stuck => false)
    case _ => o == b
  }

  ghost predicate LeftBy(c: Code, k: Kind, ls: Ls, g: Env, y: Res, j: int, r: Regs) {
    || (0 <= j < |c| && j in ls.j && y.Here? && y.c == CarryAt(c, j, r) && HasValue(g, c, k, r, y.v))
    || (0 <= j < |c| && j in ls.t && y == Left(true, CarryAt(c, j, r)))
    || (0 <= j < |c| && j in ls.f && y == Left(false, CarryAt(c, j, r)))
    || (k == VJmp(j) && y == Here(Bool(true), Bare))
  }

  /** The run of the code, with its pending jumps still open. */
  function Raw(fs: Fs, k: Kind, ls: Ls, outer: set<int>, g: Env, r: Regs): Outcome {
    Exec(Body(fs, k), AllOpen(k, ls, outer), g, 0, r)
  }

  function Run(fs: Fs, k: Kind, ls: Ls, outer: set<int>, g: Env, r: Regs): Outcome {
    Norm(Raw(fs, k, ls, outer, g, r), ls.j)
  }

  ghost predicate Good(fs: Fs, e: Exp, ls: Ls, outer: set<int>, g: Env, r: Regs, b: Outcome, y: Res, top: int) {
    Meets(fs.code, e.k, ls, g, b, y, top, Raw(fs, e.k, ls, outer, g, r)) && (b.Exit? ==> b.j in outer)
  }

  /** The open jumps of the enclosing expressions, and the tests in front of them, are untouched. */
  ghost predicate OuterSame(c: Code, c': Code, outer: set<int>) {
    forall j :: j in outer && 0 <= j < |c| ==> SameJump(c, c', j)
  }

  ghost predicate SameJump(c: Code, c': Code, j: int)
    requires 0 <= j < |c|
  {
    j < |c'| && c'[j] == c[j] && (j > 0 && (c[j - 1].IsTest() || c'[j - 1].IsTest()) ==> c'[j - 1] == c[j - 1])
  }

  lemma OuterSameTrans(c: Code, c1: Code, c2: Code, outer: set<int>)
    requires OuterSame(c, c1, outer) && OuterSame(c1, c2, outer)
    ensures OuterSame(c, c2, outer)
  {
    forall j | j in outer && 0 <= j < |c|
      ensures SameJump(c, c2, j)
    {
      assert SameJump(c, c1, j) && SameJump(c1, c2, j);
    }
  }

  // ------------------------------------------------------------- emitting

  lemma EntryAtEnd(c: Code, open: set<int>)
    requires Wf(c, open)
    ensures Entry(c, |c|)
  {
    if |c| > 0 {
      assert WfAt(c, open, |c| - 1);
    }
  }

  lemma ListedParts(c: Code, t: int, f: int, jpc: int, ls: Ls, outer: set<int>)
    requires Listed(c, t, f, jpc, ls, outer)
    ensures NoDup(ls.t) && NoDup(ls.f) && NoDup(ls.j) && NoDup(ls.t + ls.f)
    ensures SetOf(ls.t) !! SetOf(ls.f) && SetOf(ls.t) !! SetOf(ls.j) && SetOf(ls.f) !! SetOf(ls.j)
    ensures (SetOf(ls.t) + SetOf(ls.f) + SetOf(ls.j)) !! outer
    ensures AreJumps(c, SetOf(ls.t)) && AreJumps(c, SetOf(ls.f)) && AreJumps(c, SetOf(ls.j))
  {
    ListInCode(c, t, ls.t);
    ListInCode(c, f, ls.f);
    ListInCode(c, jpc, ls.j);
    NoDupParts(ls.t + ls.f, ls.j);
    NoDupParts(ls.t, ls.f);
  }

  lemma NoDupParts(a: seq<int>, b: seq<int>)
    requires NoDup(a + b)
    ensures NoDup(a) && NoDup(b) && SetOf(a) !! SetOf(b)
  {
    assert forall i :: 0 <= i < |a| ==> (a + b)[i] == a[i];
    assert forall i :: 0 <= i < |b| ==> (a + b)[|a| + i] == b[i];
    forall i, j | 0 <= i < |a| && 0 <= j < |b|
      ensures a[i] != b[j]
    {
      assert (a + b)[i] != (a + b)[|a| + j];
    }
  }

  /** The code after `dischargejpc`. */
  function Settled(fs: Fs): Code {
    PatchList(fs.code, fs.jpc, |fs.code|, NO_REG, |fs.code|)
  }

  lemma SettledPatched(fs: Fs, t: int, f: int, ls: Ls, outer: set<int>)
    requires Listed(fs.code, t, f, fs.jpc, ls, outer) && CodeOk(fs.code, Open(ls, outer), fs.lasttarget, ls.j)
    ensures Patched(fs.code, Settled(fs), SetOf(ls.j), |fs.code|, NO_REG, |fs.code|)
    ensures Wf(Settled(fs), Open(ls.(j := []), outer)) && |Settled(fs)| == |fs.code|
    ensures Open(ls.(j := []), outer) == Open(ls, outer) - SetOf(ls.j)
    ensures Targets(Settled(fs), Open(ls.(j := []), outer), fs.lasttarget)
  {
    var c, c', n := fs.code, Settled(fs), |fs.code|;
    var open := Open(ls, outer);
    ListedParts(c, t, f, fs.jpc, ls, outer);
    WfPaired(c, open);
    PatchListIs(c, fs.jpc, ls.j, n, NO_REG, n);
    EntryAtEnd(c, open);
    assert Open(ls.(j := []), outer) == open - SetOf(ls.j);
    PatchedWf(c, c', open, SetOf(ls.j), n, NO_REG, n);
    forall pc | 0 <= pc < n
      ensures (c'[pc].Jmp? && pc !in open - SetOf(ls.j) ==> pc + 1 + c'[pc].sbx <= fs.lasttarget) &&
              (c'[pc].LoadBool? && c'[pc].skip ==> pc + 2 <= fs.lasttarget)
    {
      assert c'[pc] == PatchedInstr(c, SetOf(ls.j), n, NO_REG, n, pc);
      assert pc in SetOf(ls.j) ==> ls.j != [];
    }
  }

  /** Settling the pending jumps leaves the other lists and the enclosing jumps alone. */
  lemma SettledLists(fs: Fs, t: int, f: int, ls: Ls, outer: set<int>)
    requires Listed(fs.code, t, f, fs.jpc, ls, outer) && CodeOk(fs.code, Open(ls, outer), fs.lasttarget, ls.j)
    ensures Listed(Settled(fs), t, f, NO_JUMP, ls.(j := []), outer)
    ensures OuterSame(fs.code, Settled(fs), outer + SetOf(ls.t) + SetOf(ls.f))
  {
    hide Wf, Targets, PatchedTest, PatchList, Patched;
    var c, c', n := fs.code, Settled(fs), |fs.code|;
    ListedParts(c, t, f, fs.jpc, ls, outer);
    SettledPatched(fs, t, f, ls, outer);
    PatchedKinds(c, c', SetOf(ls.j), n, NO_REG, n);
    forall j | j in ls.t || j in ls.f
      ensures 0 <= j < |c| && c'[j] == c[j]
    {
      assert j in SetOf(ls.t) || j in SetOf(ls.f);
    }
    ListFrame(c, c', t, ls.t);
    ListFrame(c, c', f, ls.f);
    assert ls.t + ls.f + [] == ls.t + ls.f;
    PatchedOuter(c, c', Open(ls, outer), SetOf(ls.j), n, NO_REG, n, outer + SetOf(ls.t) + SetOf(ls.f));
  }

  lemma PatchedOuter(c: Code, c': Code, open: set<int>, l: set<int>, vt: int, reg: int, dt: int, keep: set<int>)
    requires Wf(c, open) && Patched(c, c', l, vt, reg, dt) && keep <= open && l <= open && keep !! l
    ensures OuterSame(c, c', keep)
  {
    WfPaired(c, open);
    PatchedKinds(c, c', l, vt, reg, dt);
    forall j | j in keep && 0 <= j < |c|
      ensures SameJump(c, c', j)
    {
      if j > 0 && c[j - 1].IsTest() {
        assert c'[j - 1] == PatchedInstr(c, l, vt, reg, dt, j - 1);
      }
    }
  }

  /** The pending jumps arrive at the end of the code. */
  lemma SettledRuns(fs: Fs, t: int, f: int, ls: Ls, outer: set<int>, g: Env, r: Regs)
    requires Listed(fs.code, t, f, fs.jpc, ls, outer) && CodeOk(fs.code, Open(ls, outer), fs.lasttarget, ls.j)
    ensures Exec(Settled(fs), Open(ls.(j := []), outer), g, 0, r) ==
              Norm(Exec(fs.code, Open(ls, outer), g, 0, r), ls.j)
  {
    var c, c', n := fs.code, Settled(fs), |fs.code|;
    var open := Open(ls, outer);
    ListedParts(c, t, f, fs.jpc, ls, outer);
    SettledPatched(fs, t, f, ls, outer);
    ExecPatched(c, c', open, SetOf(ls.j), n, NO_REG, n, g, 0, r);
  }

  /** A plain instruction at the end runs on whatever arrives there. */
  function Then(g: Env, i: Instr, o: Outcome): Outcome
    requires IsPlain(i)
  {
    if o.Fall? then Fall(Plain(g, i, o.r)) else o
  }

  lemma EmitRuns(fs: Fs, t: int, f: int, ls: Ls, outer: set<int>, g: Env, r: Regs, i: Instr)
    requires Listed(fs.code, t, f, fs.jpc, ls, outer) && CodeOk(fs.code, Open(ls, outer), fs.lasttarget, ls.j)
    requires IsPlain(i)
    ensures Exec(Emit(fs, i).code, Open(ls.(j := []), outer), g, 0, r) ==
              Then(g, i, Norm(Exec(fs.code, Open(ls, outer), g, 0, r), ls.j))
  {
    var open := Open(ls.(j := []), outer);
    SettledPatched(fs, t, f, ls, outer);
    SettledRuns(fs, t, f, ls, outer, g, r);
    ExecAppend(Settled(fs), [i], open, open, g, 0, r);
  }

  lemma AppendOk(c: Code, open: set<int>, last: int, i: Instr)
    requires CodeOk(c, open, last, []) && !i.IsTest() && !i.Jmp? && !(i.LoadBool? && i.skip)
    ensures CodeOk(c + [i], open, last, [])
  {
    var c' := c + [i];
    forall pc | 0 <= pc < |c'|
      ensures WfAt(c', open, pc)
      ensures (c'[pc].Jmp? && pc !in open ==> pc + 1 + c'[pc].sbx <= last) && (c'[pc].LoadBool? && c'[pc].skip ==> pc + 2 <= last)
    {
      if pc < |c| {
        assert WfAt(c, open, pc) && c'[pc] == c[pc];
      }
    }
  }

  lemma EmitOk(fs: Fs, t: int, f: int, ls: Ls, outer: set<int>, i: Instr)
    requires Listed(fs.code, t, f, fs.jpc, ls, outer) && CodeOk(fs.code, Open(ls, outer), fs.lasttarget, ls.j)
    requires !i.IsTest() && !i.Jmp? && !(i.LoadBool? && i.skip)
    ensures CodeOk(Emit(fs, i).code, Open(ls.(j := []), outer), fs.lasttarget, [])
    ensures Listed(Emit(fs, i).code, t, f, NO_JUMP, ls.(j := []), outer)
    ensures OuterSame(fs.code, Emit(fs, i).code, outer + SetOf(ls.t) + SetOf(ls.f))
  {
    SettledPatched(fs, t, f, ls, outer);
    SettledLists(fs, t, f, ls, outer);
    AppendOk(Settled(fs), Open(ls.(j := []), outer), fs.lasttarget, i);
    var c := Settled(fs);
    ListInCode(c, t, ls.t);
    ListInCode(c, f, ls.f);
    ListFrame(c, c + [i], t, ls.t);
    ListFrame(c, c + [i], f, ls.f);
    assert OuterSame(c, c + [i], outer + SetOf(ls.t) + SetOf(ls.f));
    OuterSameTrans(fs.code, c, c + [i], outer + SetOf(ls.t) + SetOf(ls.f));
  }
}
