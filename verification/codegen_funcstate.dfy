/**
 The code generator as it is written: a function state and expression descriptors that are
 changed in place, with loops along the jump lists. Every method does what its function says.
 */
module CodeGenFuncState {
  import opened Vm
  import opened CodeGen
  import opened CodeGenLists
  import opened CodeGenSem
  import opened CodeGenClose
  import opened CodeGenRegs
  import opened CodeGenOperands
  import opened CodeGenCompile
  import opened CodeGenBranch
  import opened CodeGenNot
  import opened CodeGenShape
  import opened Sequences

  /** `expdesc` */
  class ExpDesc {
    var k: Kind
    var t: int
    var f: int

    constructor (k: Kind)
      ensures V() == Leaf(k)
    {
      this.k, t, f := k, NO_JUMP, NO_JUMP;
    }

    ghost function V(): Exp
      reads this
    {
      Exp(k, t, f)
    }

    /** `hasjumps` */
    predicate HasJumps()
      reads this
    {
      t != f
    }
  }

  class FuncState {
    var code: Code
    var jpc: int
    var lasttarget: int
    var freereg: int
    var nactvar: int
    var k: seq<Value>
    var maxstack: int

    ghost function S(): Fs
      reads this
    {
      Fs(code, jpc, lasttarget, freereg, nactvar, k, maxstack)
    }

    constructor (params: nat)
      ensures S() == Fs([], NO_JUMP, -1, params, params, [], CodeGen.Max(2, params))
    {
      code, jpc, lasttarget, freereg, nactvar, k := [], NO_JUMP, -1, params, params, [];
      maxstack := CodeGen.Max(2, params);
    }

    // ----------------------------------------------------------- jump lists

    /** `need_value` */
    method NeedValue(list: int, ghost l: seq<int>) returns (need: bool)
      requires IsList(code, list, l) && NoDup(l)
      ensures need == CodeGen.NeedValue(code, ListOf(code, list))
    {
      ListOfIs(code, list, l);
      var p := list;
      ghost var rest := l;
      while p != NO_JUMP
        invariant IsList(code, p, rest)
        invariant CodeGen.NeedValue(code, rest) == CodeGen.NeedValue(code, l)
        decreases |rest|
      {
        if !IsSet(code, p) {
          return true;
        }
        p := GetJump(code, p);
        rest := rest[1..];
      }
      need := false;
    }

    /** `patchtestreg` on the test in front of the jump `node`. */
    method PatchTestReg(node: int, reg: int) returns (done: bool)
      requires 0 <= node < |code|
      modifies `code
      ensures done == IsSet(old(code), node)
      ensures code == old(code)[Control(old(code), node) := PatchedTest(old(code)[Control(old(code), node)], reg)]
    {
      var pi := Control(code, node);
      var i := code[pi];
      if !i.TestSet? {
        return false;
      }
      if reg != NO_REG && reg != i.b {
        code := code[pi := TestSet(reg, i.b, i.c)];
      } else {
        code := code[pi := Test(i.b, i.c)];
      }
      done := true;
    }

    /** `removevalues` */
    method RemoveValues(list: int, ghost l: seq<int>)
      requires Paired(code) && IsList(code, list, l) && NoDup(l)
      modifies `code
      ensures code == RemoveAll(old(code), ListOf(old(code), list))
    {
      ListOfIs(code, list, l);
      var p := list;
      ghost var rest := l;
      while p != NO_JUMP
        invariant Paired(code) && IsList(code, p, rest) && NoDup(rest)
        invariant RemoveAll(code, rest) == RemoveAll(old(code), l)
        decreases |rest|
      {
        RemoveOneKeeps(code, rest);
        ghost var c := code;
        var next := GetJump(code, p);
        var _ := PatchTestReg(p, NO_REG);
        p := next;
        rest := rest[1..];
      }
    }

    /** `patchlistaux` */
    method PatchListAux(list: int, vtarget: int, reg: int, dtarget: int, ghost l: seq<int>)
      requires Paired(code) && IsList(code, list, l) && NoDup(l)
      modifies `code
      ensures code == PatchList(old(code), list, vtarget, reg, dtarget)
    {
      ListOfIs(code, list, l);
      var p := list;
      ghost var rest := l;
      while p != NO_JUMP
        invariant Paired(code) && IsList(code, p, rest) && NoDup(rest)
        invariant PatchAll(code, rest, vtarget, reg, dtarget) == PatchAll(old(code), l, vtarget, reg, dtarget)
        decreases |rest|
      {
        PatchOneKeeps(code, rest, vtarget, reg, dtarget);
        ghost var c := code;
        var next := GetJump(code, p);
        var done := PatchTestReg(p, reg);
        if done {
          code := FixJump(code, p, vtarget);
        } else {
          code := FixJump(code, p, dtarget);
        }
        assert code == PatchOne(c, p, vtarget, reg, dtarget);
        p := next;
        rest := rest[1..];
      }
    }

    /** `luaK_concat`: the list `l2` is hung on the end of `l1`. */
    method Concat(l1: int, l2: int, ghost l: seq<int>) returns (list: int)
      requires IsList(code, l1, l) && NoDup(l)
      modifies `code
      ensures (code, list) == CodeGen.Concat(old(code), l1, l2)
    {
      ListOfIs(code, l1, l);
      if l2 == NO_JUMP {
        return l1;
      } else if l1 == NO_JUMP {
        return l2;
      }
      var last := l1;
      ghost var rest := l;
      var next := GetJump(code, last);
      while next != NO_JUMP
        invariant rest != [] && IsList(code, last, rest) && next == GetJump(code, last)
        invariant rest[|rest| - 1] == l[|l| - 1]
        decreases |rest|
      {
        last := next;
        rest := rest[1..];
        next := GetJump(code, last);
      }
      NoJumpEnds(code, rest[1..]);
      code := FixJump(code, last, l2);
      list := l1;
    }

    /** `dischargejpc` */
    method DischargeJpc(ghost l: seq<int>)
      requires Paired(code) && IsList(code, jpc, l) && NoDup(l)
      modifies `code, `jpc
      ensures S() == CodeGen.DischargeJpc(old(S()))
    {
      PatchListAux(jpc, |code|, NO_REG, |code|, l);
      jpc := NO_JUMP;
    }

    /** `luaK_getlabel` */
    method GetLabel() returns (pc: int)
      modifies `lasttarget
      ensures S() == CodeGen.GetLabel(old(S())) && pc == |code|
    {
      lasttarget := |code|;
      pc := |code|;
    }

    /** `luaK_patchtohere` */
    method PatchToHere(list: int, ghost l: seq<int>)
      requires IsList(code, jpc, l) && NoDup(l)
      modifies `code, `jpc, `lasttarget
      ensures S() == CodeGen.PatchToHere(old(S()), list)
    {
      lasttarget := |code|;
      jpc := Concat(jpc, list, l);
    }

    // ----------------------------------------------------------- emitting

    /** `luaK_code` */
    method Code(i: Instr, ghost l: seq<int>) returns (pc: int)
      requires Paired(code) && IsList(code, jpc, l) && NoDup(l)
      modifies `code, `jpc
      ensures S() == Emit(old(S()), i) && pc == |code| - 1
    {
      DischargeJpc(l);
      code := code + [i];
      pc := |code| - 1;
    }

    /** `luaK_jump` */
    method Jump() returns (j: int)
      modifies `code, `jpc
      ensures (S(), j) == CodeGen.Jump(old(S()))
    {
      var waiting := jpc;
      jpc := NO_JUMP;
      j := |code|;
      code := code + [Jmp(NO_JUMP)];
      LastAlone(code, j);
      j := Concat(j, waiting, [j]);
    }

    /** `condjump` */
    method CondJump(i: Instr, ghost l: seq<int>) returns (j: int)
      requires Paired(code) && IsList(code, jpc, l) && NoDup(l)
      modifies `code, `jpc
      ensures (S(), j) == CodeGen.CondJump(old(S()), i)
    {
      var _ := Code(i, l);
      j := Jump();
    }

    /** `luaK_reserveregs` of one register */
    method ReserveReg()
      modifies `freereg, `maxstack
      ensures S() == Reserve(old(S()))
    {
      if freereg + 1 > maxstack {
        maxstack := freereg + 1;
      }
      freereg := freereg + 1;
    }

    /** `freeexp` */
    method FreeExp(e: ExpDesc)
      modifies `freereg
      ensures S() == CodeGen.FreeExp(old(S()), e.V())
    {
      if e.k.VNonReloc? && e.k.info >= nactvar {
        freereg := freereg - 1;
      }
    }

    /** `addk`: the constant's place, an old one if it is there already. */
    method AddK(v: Value) returns (i: int)
      modifies `k
      ensures (S(), i) == CodeGen.AddK(old(S()), v)
      ensures 0 <= i < |k| && k[i] == v && old(k) <= k
    {
      i := FindK(k, v);
      if i == |k| {
        k := k + [v];
      }
    }

    /** `luaK_nil` for one register */
    method Nil(reg: int, ghost l: seq<int>)
      requires Paired(code) && IsList(code, jpc, l) && NoDup(l)
      modifies `code, `jpc
      ensures S() == CodeNil(old(S()), reg)
    {
      if |code| > lasttarget {
        if |code| == 0 {
          if reg >= nactvar {
            return;
          }
        } else {
          var previous := code[|code| - 1];
          if previous.LoadNil? && previous.a <= reg <= previous.b + 1 {
            if reg > previous.b {
              code := code[|code| - 1 := LoadNil(previous.a, reg)];
            }
            return;
          }
        }
      }
      var _ := Code(LoadNil(reg, reg), l);
    }

    // ----------------------------------------------------------- discharging expressions

    /** `luaK_dischargevars` */
    method DischargeVars(e: ExpDesc, ghost ls: Ls) returns (ghost ls': Ls)
      requires Shaped(S(), e.V(), ls)
      modifies `code, `jpc, e`k
      ensures (S(), e.V()) == CodeGen.DischargeVars(old(S()), old(e.V()))
      ensures Shaped(S(), e.V(), ls') && Discharged(e.k)
    {
      ls' := DischargeVarsShape(S(), e.V(), ls);
      ShapeLists(S(), e.V(), ls);
      match e.k {
        case VLocal(r) =>
          e.k := VNonReloc(r);
        case VGlobal(n) =>
          var pc := Code(GetGlobal(0, n), ls.j);
          SettledShape(old(S()), old(e.V()), ls);
          e.k := VReloc(pc);
        case _ =>
      }
    }

    /** `discharge2reg` */
    method Discharge2Reg(e: ExpDesc, reg: int, ghost ls: Ls) returns (ghost ls': Ls)
      requires Shaped(S(), e.V(), ls)
      modifies `code, `jpc, `k, e`k
      ensures (S(), e.V()) == CodeGen.Discharge2Reg(old(S()), old(e.V()), reg)
      ensures Shape(S(), e.V(), ls') && (e.k.VJmp? ==> Shaped(S(), e.V(), ls'))
    {
      ghost var ls1 := DischargeVars(e, ls);
      ghost var was, wasE := S(), e.V();
      ls' := ls1;
      ShapeLists(S(), e.V(), ls1);
      if e.k.VJmp? {
        return;
      }
      ls' := LoadShape(was, wasE, ls1, reg);
      match e.k {
        case VNil =>
          Nil(reg, ls1.j);
        case VFalse =>
          var _ := Code(LoadBool(reg, false, false), ls1.j);
        case VTrue =>
          var _ := Code(LoadBool(reg, true, false), ls1.j);
        case VK(i) =>
          var _ := Code(LoadK(reg, i), ls1.j);
        case VKNum(n) =>
          var i := AddK(Number(n));
          var _ := Code(LoadK(reg, i), ls1.j);
        case VReloc(pc) =>
          code := code[pc := SetA(code[pc], reg)];
        case VNonReloc(r) =>
          if r != reg {
            var _ := Code(Move(reg, r), ls1.j);
          }
      }
      assert S() == Load(was, wasE.k, reg);
      KindShape(S(), wasE, ls', VNonReloc(reg));
      e.k := VNonReloc(reg);
    }

    /** `discharge2anyreg` */
    method Discharge2AnyReg(e: ExpDesc, ghost ls: Ls) returns (ghost ls': Ls)
      requires Shaped(S(), e.V(), ls)
      modifies `code, `jpc, `k, `freereg, `maxstack, e`k
      ensures (S(), e.V()) == CodeGen.Discharge2AnyReg(old(S()), old(e.V()))
      ensures Shape(S(), e.V(), ls')
    {
      ls' := ls;
      if !e.k.VNonReloc? {
        ReserveReg();
        ls' := Discharge2Reg(e, freereg - 1, ls);
      }
    }

    /** `code_label` */
    method CodeLabel(reg: int, b: bool, skip: bool) returns (pc: int)
      requires Paired(code) && jpc == NO_JUMP
      modifies `code, `jpc, `lasttarget
      ensures S() == Emit(CodeGen.GetLabel(old(S())), LoadBool(reg, b, skip)) && pc == |code| - 1
    {
      var _ := GetLabel();
      EmptyList(code);
      pc := Code(LoadBool(reg, b, skip), []);
    }

    /** The two LOADBOOLs of `exp2reg`, and the jump around them. */
    method CodeBools(fallsIn: bool, reg: int, ghost e: Exp, ghost ls: Ls) returns (pf: int, pt: int)
      requires Shape(S(), e, ls) && (!fallsIn ==> ls.j == [])
      modifies `code, `jpc, `lasttarget
      ensures S() == LoadBools(old(S()), fallsIn, reg)
      ensures pf == |code| - 2 && pt == |code| - 1
    {
      hide Listed, PatchList, CodeGen.Concat;
      ShapeLists(S(), e, ls);
      NothingWaits(S(), ls.j);
      var fj := NO_JUMP;
      if fallsIn {
        JumpShape(S(), e, ls);
        fj := Jump();
      }
      assert Paired(code) && jpc == NO_JUMP;
      NothingPending(CodeGen.GetLabel(S()));
      pf := CodeLabel(reg, false, true);
      NothingPending(CodeGen.GetLabel(S()));
      pt := CodeLabel(reg, true, false);
      EmptyList(code);
      SameLength(code, NO_JUMP, fj);
      PatchToHere(fj, []);
    }

    /** The rest of `exp2reg`: every jump that is left on a list gets its target. */
    method FinishLists(e: ExpDesc, isJump: bool, reg: int, ghost ls: Ls) returns (ghost ls': Ls)
      requires Shape(S(), e.V(), ls) && (isJump ==> ls.j == [] && Needs(S(), e.t, e.f))
      modifies `code, `jpc, `lasttarget
      ensures S() == CloseLists(old(S()), e.t, e.f, !isJump, reg)
      ensures Shape(S(), Leaf(e.k), ls')
    {
      hide Shape, PatchList, Needs, LoadBools, PendingAfter, Paired, IsList, NoDup;
      ghost var was := S();
      ls' := ls;
      ShapeLists(was, e.V(), ls);
      if e.HasJumps() {
        var pf, pt := NO_JUMP, NO_JUMP;
        var need := NeedsValues(e, ls);
        if need {
          pf, pt := CodeBools(!isJump, reg, e.V(), ls);
        }
        WidenedShape(was, e.V(), !isJump, reg, ls);
        var final := GetLabel();
        ghost var wide := S();
        ls' := ls.(j := PendingAfter(was.code, need, !isJump, ls.j));
        assert wide == Widened(was, e.t, e.f, !isJump, reg);
        ShapeLists(wide, e.V(), ls');
        ClosedShape(wide, e.V(), reg, ls', pf, pt);
        if !need {
          LoadsUnused(was, e.V(), reg, ls, pf, pt);
        }
        PatchListAux(e.f, final, reg, pf, ls.f);
        PatchListAux(e.t, final, reg, pt, ls.t);
        ls' := Ls([], [], ls'.j);
      } else {
        ShapeListed(was, e.V(), ls);
        NoJumps(was.code, e.t, e.f, was.jpc, ls, {});
      }
    }

    /** `need_value` of one list or the other */
    method NeedsValues(e: ExpDesc, ghost ls: Ls) returns (need: bool)
      requires IsList(code, e.t, ls.t) && IsList(code, e.f, ls.f) && NoDup(ls.t) && NoDup(ls.f)
      ensures need == Needs(S(), e.t, e.f)
    {
      need := NeedValue(e.t, ls.t);
      if !need {
        need := NeedValue(e.f, ls.f);
      }
    }

    /** `exp2reg` */
    method Exp2Reg(e: ExpDesc, reg: int, ghost ls: Ls) returns (ghost ls': Ls)
      requires Shaped(S(), e.V(), ls)
      modifies `code, `jpc, `lasttarget, `k, e
      ensures (S(), e.V()) == CodeGen.Exp2Reg(old(S()), old(e.V()), reg)
      ensures Shaped(S(), e.V(), ls')
    {
      hide Listed, PatchList, CodeGen.Concat, CodeGen.Discharge2Reg, Needs, Shape, Paired, LoadBools;
      ls' := Discharge2Reg(e, reg, ls);
      var isJump := e.k.VJmp?;
      ghost var j := ls'.j;
      ShapeLists(S(), e.V(), ls');
      if isJump {
        JumpJoinsShape(S(), e.V(), ls');
        ghost var l := ls'.t + [e.k.info];
        e.t := Concat(e.t, e.k.info, ls'.t);
        ls' := ls'.(t := l);
      }
      ls' := FinishLists(e, isJump, reg, ls');
      KindShape(S(), Leaf(e.k), ls', VNonReloc(reg));
      e.f := NO_JUMP;
      e.t := NO_JUMP;
      e.k := VNonReloc(reg);
    }

    /** `luaK_exp2nextreg` */
    method Exp2NextReg(e: ExpDesc, ghost ls: Ls) returns (ghost ls': Ls)
      requires Shaped(S(), e.V(), ls)
      modifies `code, `jpc, `lasttarget, `k, `freereg, `maxstack, e
      ensures (S(), e.V()) == CodeGen.Exp2NextReg(old(S()), old(e.V()))
      ensures Shaped(S(), e.V(), ls')
    {
      hide CodeGen.Exp2Reg, CodeGen.DischargeVars, Listed, Paired;
      ls' := DischargeVars(e, ls);
      FreeExp(e);
      ReserveReg();
      ls' := Exp2Reg(e, freereg - 1, ls');
    }

    /** `luaK_exp2anyreg` */
    method Exp2AnyReg(e: ExpDesc, ghost ls: Ls) returns (ghost ls': Ls)
      requires Shaped(S(), e.V(), ls)
      modifies `code, `jpc, `lasttarget, `k, `freereg, `maxstack, e
      ensures (S(), e.V()) == CodeGen.Exp2AnyReg(old(S()), old(e.V()))
      ensures Shaped(S(), e.V(), ls')
    {
      hide CodeGen.Exp2Reg, CodeGen.Exp2NextReg, CodeGen.DischargeVars, Listed, Paired;
      DischargedTwice(S(), e.V());
      ls' := DischargeVars(e, ls);
      if e.k.VNonReloc? {
        if !e.HasJumps() {
          return;
        }
        if e.k.info >= nactvar {
          ls' := Exp2Reg(e, e.k.info, ls');
          return;
        }
      }
      ls' := Exp2NextReg(e, ls');
    }

    /** `luaK_exp2val` */
    method Exp2Val(e: ExpDesc, ghost ls: Ls) returns (ghost ls': Ls)
      requires Shaped(S(), e.V(), ls)
      modifies `code, `jpc, `lasttarget, `k, `freereg, `maxstack, e
      ensures (S(), e.V()) == CodeGen.Exp2Val(old(S()), old(e.V()))
      ensures Shaped(S(), e.V(), ls')
    {
      hide CodeGen.Exp2AnyReg, CodeGen.DischargeVars, Listed, Paired;
      if e.HasJumps() {
        ls' := Exp2AnyReg(e, ls);
      } else {
        ls' := DischargeVars(e, ls);
      }
    }

    /** `luaK_exp2RK` */
    method Exp2RK(e: ExpDesc, ghost ls: Ls) returns (x: Rk, ghost ls': Ls)
      requires Shaped(S(), e.V(), ls)
      modifies `code, `jpc, `lasttarget, `k, `freereg, `maxstack, e
      ensures (S(), e.V()) == CodeGen.Exp2RK(old(S()), old(e.V()))
      ensures Shaped(S(), e.V(), ls') && x == RkOf(e.k)
    {
      hide CodeGen.Exp2Val, CodeGen.Exp2AnyReg, Listed, Paired, FindK;
      ls' := Exp2Val(e, ls);
      match e.k {
        case VNil =>
          if |k| <= MAXINDEXRK {
            var i := AddK(Vm.Nil);
            e.k := VK(i);
            return Kst(i), ls';
          }
        case VTrue =>
          if |k| <= MAXINDEXRK {
            var i := AddK(Bool(true));
            e.k := VK(i);
            return Kst(i), ls';
          }
        case VFalse =>
          if |k| <= MAXINDEXRK {
            var i := AddK(Bool(false));
            e.k := VK(i);
            return Kst(i), ls';
          }
        case VKNum(n) =>
          if |k| <= MAXINDEXRK {
            var i := AddK(Number(n));
            e.k := VK(i);
            return Kst(i), ls';
          }
        case VK(i) =>
          if i <= MAXINDEXRK {
            return Kst(i), ls';
          }
        case _ =>
      }
      ls' := Exp2AnyReg(e, ls');
      x := RkOf(e.k);
    }

    // ----------------------------------------------------------- conditions

    /** `invertjump` */
    method InvertJump(e: ExpDesc)
      requires e.k.VJmp? && 1 <= e.k.info < |code| && code[e.k.info - 1].Cmp?
      modifies `code
      ensures code == CodeGen.InvertJump(old(code), e.k.info)
    {
      var pc := Control(code, e.k.info);
      code := code[pc := Cmp(code[pc].op, !code[pc].cond, code[pc].rb, code[pc].rc)];
    }

    /** `jumponcond` */
    method JumpOnCond(e: ExpDesc, cond: bool, ghost ls: Ls) returns (j: int, ghost ls': Ls)
      requires Shaped(S(), e.V(), ls) && Discharged(e.k) && !e.k.VJmp?
      modifies `code, `jpc, `k, `freereg, `maxstack, e`k
      ensures (S(), j) == CodeGen.JumpOnCond(old(S()), old(e.V()), cond) && e.k == TestedKind(old(S()), old(e.V()))
      ensures Shape(S(), e.V(), ls') && ls'.j == [] && IsList(code, j, [j]) && NoDup([j])
      ensures j !in SetOf(ls'.t) && j !in SetOf(ls'.f) && jpc == NO_JUMP
    {
      hide CodeGen.Discharge2AnyReg, CodeGen.CondJump, Listed, Paired;
      if e.k.VReloc? {
        var ie := code[e.k.info];
        if ie.Not? {
          ghost var was := S();
          code := code[..|code| - 1];
          LastShape(was, S(), e.V(), ls);
          ShapeLists(S(), e.V(), ls);
          CondJumpShape(S(), e.V(), ls, Test(ie.b, !cond));
          CondJumpIs(S(), Test(ie.b, !cond));
          j := CondJump(Test(ie.b, !cond), ls.j);
          ls' := ls.(j := []);
          return;
        }
      }
      ls' := Discharge2AnyReg(e, ls);
      FreeExp(e);
      var i := TestSet(NO_REG, if e.k.VNonReloc? then e.k.info else NO_REG, cond);
      ShapeLists(S(), e.V(), ls');
      CondJumpShape(S(), e.V(), ls', i);
      CondJumpIs(S(), i);
      j := CondJump(i, ls'.j);
      ls' := ls'.(j := []);
    }

    /** The end of `luaK_goiftrue`: the jumps `p` join the false list, the true list ends here. */
    method JoinFalse(e: ExpDesc, pc: int, ghost p: seq<int>, ghost ls: Ls) returns (ghost ls': Ls)
      requires Shape(S(), e.V(), ls) && IsList(code, pc, p) && NoDup(p)
      requires SetOf(p) !! SetOf(ls.t) && SetOf(p) !! SetOf(ls.f) && SetOf(p) !! SetOf(ls.j)
      modifies `code, `jpc, `lasttarget, e`t, e`f
      ensures e.V() == Exp(old(e.k), NO_JUMP, CodeGen.Concat(old(code), old(e.f), pc).1)
      ensures S() == CodeGen.PatchToHere(old(S()).(code := CodeGen.Concat(old(code), old(e.f), pc).0), old(e.t))
      ensures Shape(S(), e.V(), ls')
    {
      hide CodeGen.Concat, Listed, Paired;
      JoinFalseShape(S(), e.V(), ls, pc, p);
      ShapeLists(S(), e.V(), ls);
      e.f := Concat(e.f, pc, ls.f);
      ls' := ls.(f := ls.f + p);
      ShapeLists(S(), e.V(), ls');
      DropTrueShape(S(), e.V(), ls');
      PatchToHereShape(S(), e.V().(t := NO_JUMP), ls'.(t := []), e.t, ls'.t);
      PatchToHere(e.t, ls'.j);
      ls' := ls'.(t := [], j := ls'.j + ls'.t);
      e.t := NO_JUMP;
    }

    /** `luaK_goiftrue` */
    method GoIfTrue(e: ExpDesc, ghost ls: Ls) returns (ghost ls': Ls)
      requires Shaped(S(), e.V(), ls)
      modifies `code, `jpc, `lasttarget, `k, `freereg, `maxstack, e
      ensures (S(), e.V()) == CodeGen.GoIfTrue(old(S()), old(e.V()))
      ensures Shape(S(), e.V(), ls')
    {
      hide CodeGen.DischargeVars, CodeGen.JumpOnCond, CodeGen.Jump, CodeGen.Concat, CodeGen.InvertJump, TestedKind, Listed, Paired;
      ls' := DischargeVars(e, ls);
      var pc := NO_JUMP;
      ghost var p: seq<int> := [];
      EmptyList(code);
      if e.k.VK? || e.k.VKNum? || e.k.VTrue? {
      } else if e.k.VFalse? {
        JumpShape(S(), e.V(), ls');
        p := [|code|] + ls'.j;
        pc := Jump();
        ls' := ls'.(j := []);
      } else if e.k.VJmp? {
        InvertedShape(S(), e.V(), ls');
        pc := e.k.info;
        p := [pc];
        InvertJump(e);
      } else {
        pc, ls' := JumpOnCond(e, false, ls');
        p := [pc];
      }
      ls' := JoinFalse(e, pc, p, ls');
    }

    /** The end of `luaK_goiffalse`. */
    method JoinTrue(e: ExpDesc, pc: int, ghost p: seq<int>, ghost ls: Ls) returns (ghost ls': Ls)
      requires Shape(S(), e.V(), ls) && IsList(code, pc, p) && NoDup(p)
      requires SetOf(p) !! SetOf(ls.t) && SetOf(p) !! SetOf(ls.f) && SetOf(p) !! SetOf(ls.j)
      modifies `code, `jpc, `lasttarget, e`t, e`f
      ensures e.V() == Exp(old(e.k), CodeGen.Concat(old(code), old(e.t), pc).1, NO_JUMP)
      ensures S() == CodeGen.PatchToHere(old(S()).(code := CodeGen.Concat(old(code), old(e.t), pc).0), old(e.f))
      ensures Shape(S(), e.V(), ls')
    {
      hide CodeGen.Concat, Listed, Paired;
      JoinTrueShape(S(), e.V(), ls, pc, p);
      ShapeLists(S(), e.V(), ls);
      e.t := Concat(e.t, pc, ls.t);
      ls' := ls.(t := ls.t + p);
      ShapeLists(S(), e.V(), ls');
      DropFalseShape(S(), e.V(), ls');
      PatchToHereShape(S(), e.V().(f := NO_JUMP), ls'.(f := []), e.f, ls'.f);
      PatchToHere(e.f, ls'.j);
      ls' := ls'.(f := [], j := ls'.j + ls'.f);
      e.f := NO_JUMP;
    }

    /** `luaK_goiffalse` */
    method GoIfFalse(e: ExpDesc, ghost ls: Ls) returns (ghost ls': Ls)
      requires Shaped(S(), e.V(), ls)
      modifies `code, `jpc, `lasttarget, `k, `freereg, `maxstack, e
      ensures (S(), e.V()) == CodeGen.GoIfFalse(old(S()), old(e.V()))
      ensures Shape(S(), e.V(), ls')
    {
      hide CodeGen.DischargeVars, CodeGen.JumpOnCond, CodeGen.Jump, CodeGen.Concat, TestedKind, Listed, Paired;
      ls' := DischargeVars(e, ls);
      var pc := NO_JUMP;
      ghost var p: seq<int> := [];
      EmptyList(code);
      if e.k.VNil? || e.k.VFalse? {
      } else if e.k.VTrue? {
        JumpShape(S(), e.V(), ls');
        p := [|code|] + ls'.j;
        pc := Jump();
        ls' := ls'.(j := []);
      } else if e.k.VJmp? {
        LastJumpShape(S(), e.V(), ls');
        pc := e.k.info;
        p := [pc];
      } else {
        pc, ls' := JumpOnCond(e, true, ls');
        p := [pc];
      }
      ls' := JoinTrue(e, pc, p, ls');
    }

    /** The end of `codenot`: the lists change places and lose their values. */
    method SwapLists(e: ExpDesc, ghost ls: Ls) returns (ghost ls': Ls)
      requires Shape(S(), e.V(), ls)
      modifies `code, e`t, e`f
      ensures e.V() == Exp(old(e.k), old(e.f), old(e.t)) && code == Removed(old(code), old(e.t), old(e.f))
      ensures Shape(S(), e.V(), ls')
    {
      hide RemoveAll, ListOf, Shape, Paired;
      RemovedShape(S(), e.V(), ls);
      ShapeLists(S(), e.V(), ls);
      e.t, e.f := e.f, e.t;
      RemoveValues(e.f, ls.t);
      RemoveValues(e.t, ls.f);
      ls' := Ls(ls.f, ls.t, ls.j);
    }

    /** `codenot` on a value in a register. */
    method NotRegister(e: ExpDesc, ghost ls: Ls) returns (ghost ls': Ls)
      requires Shaped(S(), e.V(), ls)
      modifies `code, `jpc, `k, `freereg, `maxstack, e`k
      ensures var (fs3, e3) := CodeGen.Discharge2AnyReg(old(S()), old(e.V()));
              S() == Emit(CodeGen.FreeExp(fs3, e3), Not(0, if e3.k.VNonReloc? then e3.k.info else NO_REG)) &&
              e.V() == e3.(k := VReloc(|CodeGen.FreeExp(fs3, e3).code|))
      ensures Shape(S(), e.V(), ls')
    {
      hide CodeGen.Discharge2AnyReg, Shape, Shaped, Emit;
      ls' := Discharge2AnyReg(e, ls);
      FreeExp(e);
      ShapeLists(S(), e.V(), ls');
      var i := Not(0, if e.k.VNonReloc? then e.k.info else NO_REG);
      EmitShape(S(), e.V(), ls', i);
      var pc := Code(i, ls'.j);
      ls' := ls'.(j := []);
      KindShape(S(), e.V(), ls', VReloc(pc));
      e.k := VReloc(pc);
    }

    /** `codenot` */
    method CodeNot(e: ExpDesc, ghost ls: Ls) returns (ghost ls': Ls)
      requires Shaped(S(), e.V(), ls)
      modifies `code, `jpc, `k, `freereg, `maxstack, e
      ensures (S(), e.V()) == CodeGen.CodeNot(old(S()), old(e.V()))
      ensures Shape(S(), e.V(), ls')
    {
      hide CodeGen.DischargeVars, CodeGen.Discharge2AnyReg, CodeGen.InvertJump, RemoveAll, ListOf, Listed, Paired, Emit, CodeGen.FreeExp;
      ls' := DischargeVars(e, ls);
      match e.k {
        case VNil =>
          e.k := VTrue;
        case VFalse =>
          e.k := VTrue;
        case VK(_) =>
          e.k := VFalse;
        case VKNum(_) =>
          e.k := VFalse;
        case VTrue =>
          e.k := VFalse;
        case VJmp(_) =>
          InvertedShape(S(), e.V(), ls');
          InvertJump(e);
        case VReloc(_) =>
          ls' := NotRegister(e, ls');
        case VNonReloc(_) =>
          ls' := NotRegister(e, ls');
      }
      ls' := SwapLists(e, ls');
    }

    /** `codecomp`, with the operator and condition that `luaK_posfix` passes. The first operand has
        been brought into place by `luaK_infix`. */
    method CodeComp(op: BinCmp, e1: ExpDesc, e2: ExpDesc, ghost ls: Ls)
      requires e1 != e2 && Shaped(S(), e2.V(), ls) && e1.V() == Leaf(e1.k) && IsRk(e1.k)
      modifies `code, `jpc, `lasttarget, `k, `freereg, `maxstack, e1, e2
      ensures (S(), e1.V()) == CodeGen.CodeComp(old(S()), op, old(e1.V()), old(e2.V()))
    {
      hide CodeGen.Exp2RK, Listed, Paired, CodeGen.CondJump;
      ReadyOperand(S(), e1.V());
      var cmp, cond := PosfixOp(op).0, PosfixOp(op).1;
      var o1 := RkOf(e1.k);
      var o2, ls' := Exp2RK(e2, ls);
      FreeExp(e2);
      FreeExp(e1);
      if !cond && cmp != EQ {
        o1, o2 := o2, o1;
        cond := true;
      }
      ShapeLists(S(), e2.V(), ls');
      var j := CondJump(Cmp(cmp, cond, o1, o2), ls'.j);
      e1.k := VJmp(j);
    }
  }

  /** The operators of `luaK_posfix`. */
  function PosfixOp(op: BinCmp): (CmpOp, bool) {
    match op
    case Eq => (EQ, true)
    case Ne => (EQ, false)
    case Lt => (LT, true)
    case Le => (LE, true)
    case Gt => (LT, false)
    case Ge => (LE, false)
  }
}
