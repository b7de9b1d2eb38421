/**
 Jump lists: the links in the code stand for a sequence of jumps, and the operations on lists
 are the operations on those sequences. Code that differs only in open jumps runs alike.
 */
module CodeGenLists {
  import opened Vm
  import opened CodeGen
  import opened Sequences

  /** The list that starts at `head` consists of the jumps `l`, in this order. */
  ghost predicate IsList(c: Code, head: int, l: seq<int>)
    decreases |l|
  {
    if l == [] then head == NO_JUMP
    else head == l[0] && 0 <= head < |c| && c[head].Jmp? && IsList(c, GetJump(c, head), l[1..])
  }

  lemma {:induction false} WalkList(c: Code, head: int, l: seq<int>, fuel: nat)
    requires IsList(c, head, l) && fuel >= |l|
    ensures Walk(c, head, fuel) == l
    decreases |l|
  {
    if l != [] {
      WalkList(c, GetJump(c, head), l[1..], fuel - 1);
    }
  }

  lemma {:induction false} ListInCode(c: Code, head: int, l: seq<int>)
    requires IsList(c, head, l)
    ensures forall j :: j in l ==> 0 <= j < |c| && c[j].Jmp?
    decreases |l|
  {
    if l != [] {
      ListInCode(c, GetJump(c, head), l[1..]);
      assert l == [l[0]] + l[1..];
    }
  }

  /** Following the links gives the whole list. */
  lemma ListOfIs(c: Code, head: int, l: seq<int>)
    requires IsList(c, head, l) && NoDup(l)
    ensures ListOf(c, head) == l
  {
    ListInCode(c, head, l);
    NoDupSize(l);
    SubsetSize(SetOf(l), Below(|c|));
    WalkList(c, head, l, |c|);
  }

  lemma {:induction false} ListFrame(c: Code, c': Code, head: int, l: seq<int>)
    requires IsList(c, head, l)
    requires forall j :: j in l ==> 0 <= j < |c'| && (0 <= j < |c| ==> c'[j] == c[j])
    ensures IsList(c', head, l)
    decreases |l|
  {
    if l != [] {
      assert l == [l[0]] + l[1..];
      ListFrame(c, c', GetJump(c, head), l[1..]);
    }
  }

  /** `luaK_concat` appends the sequences. */
  lemma {:induction false} LinkLast(c: Code, h1: int, l1: seq<int>, h2: int, l2: seq<int>)
    requires IsList(c, h1, l1) && IsList(c, h2, l2) && NoDup(l1 + l2) && l1 != [] && l2 != []
    ensures 0 <= l1[|l1| - 1] < |c|
    ensures IsList(FixJump(c, l1[|l1| - 1], h2), h1, l1 + l2)
    decreases |l1|
  {
    var z := l1[|l1| - 1];
    ListInCode(c, h1, l1);
    assert z in l1;
    var c' := FixJump(c, z, h2);
    if |l1| == 1 {
      assert forall j :: j in l2 ==> j != z by {
        forall j | j in l2
          ensures j != z
        {
          var i :| 0 <= i < |l2| && l2[i] == j;
          assert (l1 + l2)[0] == z && (l1 + l2)[1 + i] == j;
        }
      }
      ListInCode(c, h2, l2);
      ListFrame(c, c', h2, l2);
      assert (l1 + l2)[1..] == l2;
      assert GetJump(c', z) == h2 by {
        assert h2 == l2[0] && h2 in l2 && h2 != z;
      }
    } else {
      assert (l1 + l2)[1..] == l1[1..] + l2;
      assert l1[1..][|l1[1..]| - 1] == z;
      LinkLast(c, GetJump(c, h1), l1[1..], h2, l2);
      assert (l1 + l2)[0] == h1 && (l1 + l2)[|l1| - 1] == z;
    }
  }

  lemma ConcatLists(c: Code, h1: int, l1: seq<int>, h2: int, l2: seq<int>)
    requires IsList(c, h1, l1) && IsList(c, h2, l2) && NoDup(l1 + l2)
    ensures var (c', h) := Concat(c, h1, h2);
            && IsList(c', h, l1 + l2) && |c'| == |c|
            && (forall pc :: 0 <= pc < |c| && pc !in l1 ==> c'[pc] == c[pc])
            && (forall pc :: 0 <= pc < |c| && pc in l1 ==> c[pc].Jmp? && c'[pc].Jmp?)
  {
    assert NoDup(l1) by {
      assert forall i :: 0 <= i < |l1| ==> (l1 + l2)[i] == l1[i];
    }
    ListOfIs(c, h1, l1);
    ListInCode(c, h1, l1);
    if l1 == [] {
      assert l1 + l2 == l2;
    } else if l2 == [] {
      assert l1 + l2 == l1;
    } else {
      LinkLast(c, h1, l1, h2, l2);
      assert l1[|l1| - 1] in l1;
      ListInCode(c, h2, l2);
    }
  }

  // ------------------------------------------------------------- open jumps do not matter

  /** `c'` is `c` but for the links of open jumps, and for tests in front of open jumps that have
      lost their value (`removevalues`). */
  ghost predicate SameButOpen(c: Code, c': Code, open: set<int>) {
    |c'| == |c| && forall pc :: 0 <= pc < |c| ==> AlikeAt(c, c', open, pc)
  }

  ghost predicate AlikeAt(c: Code, c': Code, open: set<int>, pc: int)
    requires 0 <= pc < |c| && |c'| == |c|
  {
    if pc in open then c[pc].Jmp? && c'[pc].Jmp?
    else c'[pc] == c[pc] || (pc + 1 in open && c[pc].TestSet? && c'[pc] == Test(c[pc].b, c[pc].c))
  }

  lemma {:induction false} ExecSameButOpen(c: Code, c': Code, open: set<int>, e: Env, pc: int, r: Regs)
    requires SameButOpen(c, c', open) && Wf(c, open) && Entry(c, pc)
    ensures Exec(c', open, e, pc, r) == Exec(c, open, e, pc, r)
    decreases |c| - pc
  {
    if pc < |c| {
      hide Wf, Plain;
      var i := c[pc];
      WfHere(c, open, pc);
      assert AlikeAt(c, c', open, pc);
      if i.IsTest() {
        WfHere(c, open, pc + 1);
        assert AlikeAt(c, c', open, pc + 1);
        if !Jumps(e, i, r) {
          ExecSameButOpen(c, c', open, e, pc + 2, r);
        } else if pc + 1 !in open {
          ExecSameButOpen(c, c', open, e, pc + 2 + c[pc + 1].sbx, Taken(i, r));
        }
      } else if i.Jmp? {
        if pc !in open {
          ExecSameButOpen(c, c', open, e, pc + 1 + i.sbx, r);
        }
      } else if IsPlain(i) {
        ExecSameButOpen(c, c', open, e, pc + 1, Plain(e, i, r));
      } else {
        ExecSameButOpen(c, c', open, e, pc + 2, r[i.a := Bool(i.v)]);
      }
    }
  }

  lemma SameButOpenWf(c: Code, c': Code, open: set<int>)
    requires SameButOpen(c, c', open) && Wf(c, open)
    ensures Wf(c', open)
    ensures forall pc :: 0 <= pc < |c| ==> (c'[pc].IsTest() <==> c[pc].IsTest()) && (c'[pc].Jmp? <==> c[pc].Jmp?)
  {
    forall pc | 0 <= pc < |c|
      ensures (c'[pc].IsTest() <==> c[pc].IsTest()) && (c'[pc].Jmp? <==> c[pc].Jmp?)
    {
      assert AlikeAt(c, c', open, pc);
    }
    forall pc | 0 <= pc < |c|
      ensures WfAt(c', open, pc)
    {
      assert AlikeAt(c, c', open, pc) && WfAt(c, open, pc);
    }
  }

  // ------------------------------------------------------------- patching whole lists

  /** Every test has its jump. */
  ghost predicate Paired(c: Code) {
    forall pc :: 0 <= pc < |c| && c[pc].IsTest() ==> pc + 1 < |c| && c[pc + 1].Jmp?
  }

  lemma WfPaired(c: Code, open: set<int>)
    requires Wf(c, open)
    ensures Paired(c)
  {
    forall pc | 0 <= pc < |c| && c[pc].IsTest()
      ensures pc + 1 < |c| && c[pc + 1].Jmp?
    {
      assert WfAt(c, open, pc);
    }
  }

  ghost predicate AreJumps(c: Code, l: set<int>) {
    forall j :: j in l ==> 0 <= j < |c| && c[j].Jmp?
  }

  lemma PatchOneIs(c: Code, j: int, vt: int, reg: int, dt: int)
    requires Paired(c) && 0 <= j < |c| && c[j].Jmp?
    ensures Patched(c, PatchOne(c, j, vt, reg, dt), {j}, vt, reg, dt)
  {
    var c' := PatchOne(c, j, vt, reg, dt);
    assert Control(c, j) == j || Control(c, j) == j - 1;
    forall pc | 0 <= pc < |c|
      ensures c'[pc] == PatchedInstr(c, {j}, vt, reg, dt, pc)
    {
    }
  }

  /** Patching keeps tests and jumps where they are. */
  lemma PatchedKinds(c: Code, c': Code, l: set<int>, vt: int, reg: int, dt: int)
    requires Patched(c, c', l, vt, reg, dt) && forall j :: j in l ==> 0 <= j < |c| && c[j].Jmp?
    ensures forall pc :: 0 <= pc < |c| ==> (c'[pc].IsTest() <==> c[pc].IsTest()) && (c'[pc].Jmp? <==> c[pc].Jmp?)
    ensures forall pc :: 0 <= pc < |c| && pc !in l && pc + 1 !in l ==> c'[pc] == c[pc]
    ensures forall pc :: 0 <= pc < |c| && pc !in l && !c[pc].IsTest() ==> c'[pc] == c[pc]
  {
    forall pc | 0 <= pc < |c|
      ensures (c'[pc].IsTest() <==> c[pc].IsTest()) && (c'[pc].Jmp? <==> c[pc].Jmp?)
      ensures pc !in l && pc + 1 !in l ==> c'[pc] == c[pc]
      ensures pc !in l && !c[pc].IsTest() ==> c'[pc] == c[pc]
    {
      assert c'[pc] == PatchedInstr(c, l, vt, reg, dt, pc);
    }
  }

  lemma EntrySame(c: Code, c': Code)
    requires |c'| == |c| && forall pc :: 0 <= pc < |c| ==> (c'[pc].IsTest() <==> c[pc].IsTest())
    ensures forall t :: Entry(c', t) <==> Entry(c, t)
  {
  }

  lemma PatchedWfAt(c: Code, c': Code, open: set<int>, l: set<int>, vt: int, reg: int, dt: int, pc: int)
    requires |c'| == |c| && 0 <= pc < |c| && WfAt(c, open, pc) && l <= open && TargetsBehind(c, l, vt, dt)
    requires c'[pc] == PatchedInstr(c, l, vt, reg, dt, pc)
    requires forall q :: 0 <= q < |c| ==> (c'[q].IsTest() <==> c[q].IsTest()) && (c'[q].Jmp? <==> c[q].Jmp?)
    requires forall t :: Entry(c', t) <==> Entry(c, t)
    requires forall j :: j in l && 0 <= j < |c| ==> Entry(c, if IsSet(c, j) then vt else dt)
    ensures WfAt(c', open - l, pc)
  {
    hide Entry, IsSet;
  }

  /** The code is still well formed once the jumps of `l` have targets where execution may come. */
  lemma PatchedWf(c: Code, c': Code, open: set<int>, l: set<int>, vt: int, reg: int, dt: int)
    requires Wf(c, open) && l <= open && Patched(c, c', l, vt, reg, dt) && TargetsBehind(c, l, vt, dt)
    requires forall j :: j in l && 0 <= j < |c| ==> Entry(c, if IsSet(c, j) then vt else dt)
    ensures Wf(c', open - l)
  {
    hide Entry, PatchedTest, PatchedInstr, WfAt, TargetsBehind, IsSet;
    PatchedKinds(c, c', l, vt, reg, dt);
    EntrySame(c, c');
    forall pc | 0 <= pc < |c|
      ensures WfAt(c', open - l, pc)
    {
      assert WfAt(c, open, pc);
      PatchedWfAt(c, c', open, l, vt, reg, dt, pc);
    }
  }

  lemma PatchedSets(c: Code, c': Code, l: set<int>, vt: int, reg: int, dt: int, j: int)
    requires Paired(c) && AreJumps(c, l) && Patched(c, c', l, vt, reg, dt)
    requires 0 <= j < |c| && c[j].Jmp? && j !in l
    ensures IsSet(c', j) == IsSet(c, j) && Control(c', j) == Control(c, j) && c'[j] == c[j]
    ensures Control(c, j) < j ==> c'[j - 1] == c[j - 1]
  {
    PatchedKinds(c, c', l, vt, reg, dt);
  }

  lemma PatchedTwice(c: Code, c1: Code, c2: Code, l1: set<int>, l2: set<int>, vt: int, reg: int, dt: int)
    requires Paired(c) && AreJumps(c, l1) && AreJumps(c, l2) && l1 !! l2
    requires Patched(c, c1, l1, vt, reg, dt) && Patched(c1, c2, l2, vt, reg, dt)
    ensures Patched(c, c2, l1 + l2, vt, reg, dt)
  {
    PatchedKinds(c, c1, l1, vt, reg, dt);
    forall pc | 0 <= pc < |c|
      ensures c2[pc] == PatchedInstr(c, l1 + l2, vt, reg, dt, pc)
    {
      assert c1[pc] == PatchedInstr(c, l1, vt, reg, dt, pc);
      assert c2[pc] == PatchedInstr(c1, l2, vt, reg, dt, pc);
      if pc in l2 {
        PatchedSets(c, c1, l1, vt, reg, dt, pc);
      }
    }
  }

  lemma PatchedPaired(c: Code, c': Code, l: set<int>, vt: int, reg: int, dt: int)
    requires Paired(c) && AreJumps(c, l) && Patched(c, c', l, vt, reg, dt)
    ensures Paired(c')
    ensures forall k: set<int> :: AreJumps(c, k) ==> AreJumps(c', k)
  {
    PatchedKinds(c, c', l, vt, reg, dt);
  }

  lemma {:induction false} PatchAllIs(c: Code, l: seq<int>, vt: int, reg: int, dt: int)
    requires Paired(c) && NoDup(l) && AreJumps(c, SetOf(l))
    ensures Patched(c, PatchAll(c, l, vt, reg, dt), SetOf(l), vt, reg, dt)
    decreases |l|
  {
    if l != [] {
      var c1 := PatchOne(c, l[0], vt, reg, dt);
      assert l == [l[0]] + l[1..] && l[0] in SetOf(l);
      PatchOneIs(c, l[0], vt, reg, dt);
      PatchedPaired(c, c1, {l[0]}, vt, reg, dt);
      assert SetOf(l) == {l[0]} + SetOf(l[1..]);
      assert AreJumps(c, SetOf(l[1..])) && AreJumps(c1, SetOf(l[1..]));
      PatchAllIs(c1, l[1..], vt, reg, dt);
      PatchedTwice(c, c1, PatchAll(c1, l[1..], vt, reg, dt), {l[0]}, SetOf(l[1..]), vt, reg, dt);
    }
  }

  /** `patchlistaux` gives every jump of the list its target. */
  lemma PatchListIs(c: Code, head: int, l: seq<int>, vt: int, reg: int, dt: int)
    requires Paired(c) && IsList(c, head, l) && NoDup(l)
    ensures Patched(c, PatchList(c, head, vt, reg, dt), SetOf(l), vt, reg, dt)
  {
    ListOfIs(c, head, l);
    ListInCode(c, head, l);
    PatchAllIs(c, l, vt, reg, dt);
  }

  /** `removevalues` only takes values from tests in front of the jumps of the list. */
  lemma {:induction false} RemoveAllIs(c: Code, l: seq<int>, open: set<int>)
    requires Paired(c) && SetOf(l) <= open && AreJumps(c, open)
    ensures SameButOpen(c, RemoveAll(c, l), open) && Paired(RemoveAll(c, l))
    ensures forall pc :: 0 <= pc < |c| && pc + 1 !in l ==> RemoveAll(c, l)[pc] == c[pc]
    ensures forall pc :: 0 <= pc < |c| && c[pc].Jmp? ==> RemoveAll(c, l)[pc] == c[pc]
    ensures forall j :: j in l && 0 <= j < |c| ==> !IsSet(RemoveAll(c, l), j)
    decreases |l|
  {
    if l != [] {
      assert l == [l[0]] + l[1..] && l[0] in SetOf(l);
      var c1 := c[Control(c, l[0]) := PatchedTest(c[Control(c, l[0])], NO_REG)];
      RemoveAllIs(c1, l[1..], open);
      var c2 := RemoveAll(c1, l[1..]);
      forall pc | 0 <= pc < |c|
        ensures AlikeAt(c, c2, open, pc)
      {
        assert AlikeAt(c1, c2, open, pc);
      }
      RemovedStays(c1, c2, open, l[0]);
    }
  }

  lemma RemovedStays(c: Code, c': Code, open: set<int>, j: int)
    requires SameButOpen(c, c', open) && 0 <= j < |c| && c[j].Jmp? && !IsSet(c, j)
    ensures !IsSet(c', j)
  {
    assert AlikeAt(c, c', open, j);
    if j > 0 {
      assert AlikeAt(c, c', open, j - 1);
    }
  }

  lemma {:induction false} NeedValueIs(c: Code, l: seq<int>)
    requires AreJumps(c, SetOf(l))
    ensures NeedValue(c, l) <==> exists j :: j in l && 0 <= j < |c| && !IsSet(c, j)
    decreases |l|
  {
    if l != [] {
      assert l == [l[0]] + l[1..] && l[0] in SetOf(l);
      assert SetOf(l[1..]) <= SetOf(l);
      NeedValueIs(c, l[1..]);
    }
  }
}
