/**
 What becomes of an object during a sweep that is spread over many steps: a condemned one is freed
 before the sweep is over unless the program asks for it again, and a live one, old or new, stays.
 */
module GcCondemned {
  import opened GcHeap
  import opened GcState
  import opened GcInvariant
  import opened GcSweepPhase
  import opened GcCycle
  import opened GcCollection
  import opened GcExact
  import opened GcMutator
  import opened GcUpvalues
  import opened GcRuns

  predicate Sweeping(s: State) {
    s.phase == SweepString || s.phase == Sweep
  }

  /** The two actions that bring a condemned object back: making a string that is still in the string
      table, and capturing a stack slot that still has its open upvalue. */
  ghost predicate Revives(s: State, a: Action, x: Id) {
    match a
    case MakeString(_, text) => IsStr(s.heap, x) && TextOf(s.heap, x) == text
    case Capture(_, level, _) => x in s.heap && s.heap[x].body.OpenUpval() && s.heap[x].body.level == level
    case _ => false
  }

  /** The action makes an object with the identity `x`. */
  predicate Allocates(a: Action, x: Id) {
    match a
    case NewObject(id, _) => id == x
    case MakeString(id, _) => id == x
    case Capture(_, _, id) => id == x
    case _ => false
  }

  /** Nothing that is live is lost, and nothing that is condemned comes back, `but` for one object. */
  ghost predicate Keeps(s: State, s': State, but: iset<Id>) {
    && (forall x :: Live(s, x) ==> Live(s', x))
    && (forall x :: Garbage(s.heap, s.white, x) && x !in but ==> x !in s'.heap || Garbage(s'.heap, s'.white, x))
    && s'.white == s.white
  }

  lemma KeepsTrans(s: State, s1: State, s2: State, but: iset<Id>)
    requires Keeps(s, s1, but) && Keeps(s1, s2, but)
    requires forall x :: x in s.heap && x !in s1.heap ==> x !in s2.heap
    ensures Keeps(s, s2, but)
  {
  }

  lemma CollectKeeps(s: State)
    requires Inv(s) && Sweeping(s)
    ensures Keeps(s, SingleStep(s), iset{})
  {
    hide Inv;
    if s.phase == SweepString {
      SweepStringKeepsInv(s);
      SweepStringWhite(s);
    } else {
      SweepObjsSweeps(s, GCSWEEPMAX);
      CheckSizesFrame(SweepObjs(s, GCSWEEPMAX));
    }
  }

  lemma SweepStringWhite(s: State)
    requires Inv(s) && s.phase == SweepString
    ensures SingleStep(s).white == s.white && SingleStep(s) == SweepStringStep(s)
  {
  }

  lemma BarrierKeeps(s: State, o: Id, v: Value)
    requires Inv(s) && Sweeping(s) && Live(s, o)
    ensures Keeps(s, Barrier(s, o, v), iset{})
    ensures Barrier(s, o, v).heap.Keys == s.heap.Keys
  {
  }

  lemma FindUpvalKeeps(s: State, level: nat, id: Id)
    requires Inv(s) && Sweeping(s) && id !in s.heap && level < |s.roots.stack|
    ensures var (s', u) := FindUpval(s, level, id);
            Keeps(s, s', iset x | x in s.heap && s.heap[x].body.OpenUpval() && s.heap[x].body.level == level)
    ensures forall x :: x in FindUpval(s, level, id).0.heap ==> x in s.heap || x == id
  {
    hide Inv;
    FindUpvalKeepsInv(s, level, id);
  }

  lemma NewStringKeeps(s: State, text: Text, id: Id)
    requires Inv(s) && Sweeping(s) && id !in s.heap && |s.strt| > 0
    ensures var (s', u) := NewString(s, text, id);
            Keeps(s, s', iset x | IsStr(s.heap, x) && TextOf(s.heap, x) == text)
  {
    hide Inv, ResizeStrings;
    NewStringKeepsInv(s, text, id);
    ResizeFrame(Chained(s, text, id), 2 * |s.strt|);
  }

  lemma LinkKeeps(s: State, id: Id, body: Body)
    requires id !in s.heap
    ensures Keeps(s, Link(s, id, body), iset{})
  {
  }

  lemma SameHeapKeeps(s: State, s': State, but: iset<Id>)
    requires s'.heap == s.heap && s'.white == s.white
    ensures Keeps(s, s', but)
  {
  }

  lemma MoreAllowed(s: State, s': State, but: iset<Id>)
    requires Keeps(s, s', iset{})
    ensures Keeps(s, s', but)
  {
  }

  lemma NewObjectKeeps(s: State, id: Id, body: Body)
    requires Inv(s) && Enabled(s, NewObject(id, body))
    ensures Keeps(s, Step(s, NewObject(id, body)), iset{})
  {
    hide Inv, Needed;
    LinkKeeps(s, id, body);
    KeepsTrans(s, Link(s, id, body), Step(s, NewObject(id, body)), iset{});
  }

  lemma MakeStringKeeps(s: State, id: Id, text: Text)
    requires Inv(s) && Sweeping(s) && Enabled(s, MakeString(id, text))
    ensures Keeps(s, Step(s, MakeString(id, text)), iset x | Revives(s, MakeString(id, text), x))
  {
    hide Inv, NewString;
    NewStringKeepsInv(s, text, id);
    NewStringKeeps(s, text, id);
  }

  lemma CaptureKeeps(s: State, c: Id, level: nat, id: Id)
    requires Inv(s) && Sweeping(s) && Enabled(s, Capture(c, level, id))
    ensures Keeps(s, Step(s, Capture(c, level, id)), iset x | Revives(s, Capture(c, level, id), x))
  {
    hide Inv, Needed, FindUpval;
    FindUpvalKeeps(s, level, id);
  }

  lemma WriteTableKeeps(s: State, t: Id, e: TableEdit)
    requires Inv(s) && Sweeping(s) && Enabled(s, WriteTable(t, e))
    ensures Keeps(s, Step(s, WriteTable(t, e)), iset{})
  {
    hide Inv, Needed, Edited;
    NeededIsLive(s, t);
  }

  lemma WriteObjectKeeps(s: State, o: Id, e: ObjectEdit)
    requires Inv(s) && Sweeping(s) && Enabled(s, WriteObject(o, e))
    ensures Keeps(s, Step(s, WriteObject(o, e)), iset{})
  {
    hide Inv, Needed, Barrier, EditedObject;
    NeededIsLive(s, o);
    BarrierKeeps(s, o, e.v);
  }

  lemma CloseFromKeeps(s: State, level: nat)
    requires Inv(s) && Enabled(s, CloseFrom(level))
    ensures Keeps(s, Step(s, CloseFrom(level)), iset{})
  {
    hide Inv, Close;
    CloseKeepsInv(s, level);
  }

  lemma PopKeeps(s: State, n: nat)
    requires Inv(s) && Enabled(s, Pop(n))
    ensures Keeps(s, Step(s, Pop(n)), iset{})
  {
    hide Inv, Close;
    CloseKeepsInv(s, n);
  }

  /** In the middle of a sweep, no action of the program or of the collector loses a live object, and
      only the two revivals bring a condemned one back. */
  lemma ActionKeeps(s: State, a: Action)
    requires Inv(s) && Sweeping(s) && Enabled(s, a) && !a.CollectAll?
    ensures Keeps(s, Step(s, a), iset x | Revives(s, a, x))
  {
    hide Inv, Needed, Enabled, Keeps, SingleStep, Revives;
    var but := iset x | Revives(s, a, x);
    match a {
      case Collect =>
        CollectKeeps(s);
        MoreAllowed(s, Step(s, a), but);
      case NewObject(id, body) =>
        NewObjectKeeps(s, id, body);
        MoreAllowed(s, Step(s, a), but);
      case MakeString(id, text) =>
        MakeStringKeeps(s, id, text);
      case Capture(c, level, id) =>
        CaptureKeeps(s, c, level, id);
      case WriteTable(t, e) =>
        WriteTableKeeps(s, t, e);
        MoreAllowed(s, Step(s, a), but);
      case WriteObject(o, e) =>
        WriteObjectKeeps(s, o, e);
        MoreAllowed(s, Step(s, a), but);
      case CloseFrom(level) =>
        CloseFromKeeps(s, level);
        MoreAllowed(s, Step(s, a), but);
      case Pop(n) =>
        PopKeeps(s, n);
        MoreAllowed(s, Step(s, a), but);
      case Push(_) =>
        SameHeapKeeps(s, Step(s, a), but);
      case SetSlot(_, _) =>
        SetKeeps(s, a);
      case SetGlobals(_) =>
        SetKeeps(s, a);
      case SetBasicMeta(_, _) =>
        SetKeeps(s, a);
    }
  }

  lemma SetKeeps(s: State, a: Action)
    requires Inv(s) && Enabled(s, a) && (a.SetSlot? || a.SetGlobals? || a.SetBasicMeta?)
    ensures Keeps(s, Step(s, a), iset x | Revives(s, a, x))
  {
    hide Inv;
    SameHeapKeeps(s, Step(s, a), iset x | Revives(s, a, x));
  }

  // ------------------------------------------------------------- whole runs

  /** The object is gone, or still condemned in a sweep that is not over. */
  predicate GoneOrCondemned(s: State, x: Id) {
    x !in s.heap || (Garbage(s.heap, s.white, x) && Sweeping(s))
  }

  lemma CondemnedMeansSweeping(s: State, x: Id)
    requires Inv(s) && Garbage(s.heap, s.white, x)
    ensures Sweeping(s) && !Needed(s, x)
  {
    hide Lists, Closed, Needed;
    NoneDeadWhileMarking(s, x);
    if Needed(s, x) {
      NeededIsLive(s, x);
    }
  }

  lemma CondemnedStep(s: State, a: Action, x: Id)
    requires Inv(s) && Enabled(s, a) && GoneOrCondemned(s, x) && !Revives(s, a, x) && !Allocates(a, x)
    ensures GoneOrCondemned(Step(s, a), x)
  {
    hide Inv, Needed, Enabled, Step;
    StepSafe(s, a);
    if x !in s.heap {
      NothingAppears(s, a, x);
    } else {
      CondemnedMeansSweeping(s, x);
      if a.CollectAll? {
        FullGcExact(s, x);
        CollectAllIsFullGc(s);
      } else {
        ActionKeeps(s, a);
        assert Garbage(s.heap, s.white, x) && x !in iset y | Revives(s, a, y);
      }
      if x in Step(s, a).heap {
        CondemnedMeansSweeping(Step(s, a), x);
      }
    }
  }

  lemma CollectAllIsFullGc(s: State)
    requires Inv(s) && Enabled(s, CollectAll)
    ensures Step(s, CollectAll) == FullGc(s)
  {
    hide Inv, FullGc;
  }

  /** Objects appear only when they are made. */
  lemma NothingAppears(s: State, a: Action, x: Id)
    requires Inv(s) && Enabled(s, a) && x !in s.heap && !Allocates(a, x)
    ensures x !in Step(s, a).heap
  {
    hide Lists, Closed, PhaseInv, UpvalsNotBlack, Needed, SingleStep, FullGc, NewString, FindUpval, Barrier, BarrierBack, Close;
    match a {
      case Collect =>
        SingleStepKeepsInv(s);
      case CollectAll =>
        FullGcExact(s, x);
      case MakeString(id, text) =>
        StringsThere(s);
        NewStringAppears(s, text, id, x);
      case Capture(c, level, id) =>
        FindUpvalAppears(s, level, id, x);
      case WriteTable(t, e) =>
        BarrierBackAppears(s, t, Written(e));
      case WriteObject(o, e) =>
        NeededIsLive(s, o);
        AccessibleIsLive(s, e.v);
        BarrierKeepsInv(s, o, e.v);
      case CloseFrom(level) =>
        CloseKeepsInv(s, level);
      case Pop(n) =>
        CloseKeepsInv(s, n);
      case _ =>
    }
  }

  lemma BarrierBackAppears(s: State, t: Id, v: Value)
    requires t in s.heap
    ensures BarrierBack(s, t, v).heap.Keys == s.heap.Keys
  {
  }

  lemma NewStringAppears(s: State, text: Text, id: Id, x: Id)
    requires |s.strt| > 0 && Inv(s) && x !in s.heap && x != id
    ensures x !in NewString(s, text, id).0.heap
  {
    hide Inv, ResizeStrings;
    ResizeFrame(Chained(s, text, id), 2 * |s.strt|);
  }

  lemma FindUpvalAppears(s: State, level: nat, id: Id, x: Id)
    requires x !in s.heap && x != id
    ensures x !in FindUpval(s, level, id).0.heap
  {
  }

  /** An object that `atomic` has condemned, and that no action of the run brings back, is freed before
      the sweep is over, and stays away: whenever the collector is not sweeping, it is gone. */
  lemma {:induction false} CondemnedIsFreed(s: State, run: seq<Action>, n: nat, x: Id)
    requires Inv(s) && ValidRun(s, run) && n <= |run| && GoneOrCondemned(s, x)
    requires forall i :: 0 <= i < n ==> !Revives(After(s, run, i), run[i], x) && !Allocates(run[i], x)
    ensures GoneOrCondemned(After(s, run, n), x)
    ensures !Sweeping(After(s, run, n)) ==> x !in After(s, run, n).heap
    decreases n
  {
    hide Inv, Step, Enabled, Revives, Allocates;
    if n > 0 {
      assert !Revives(After(s, run, 0), run[0], x);
      CondemnedStep(s, run[0], x);
      StepSafe(s, run[0]);
      var s1, rest := Step(s, run[0]), run[1..];
      forall i | 0 <= i < n - 1
        ensures !Revives(After(s1, rest, i), rest[i], x) && !Allocates(rest[i], x)
      {
        assert After(s1, rest, i) == After(s, run, i + 1) && rest[i] == run[i + 1];
      }
      CondemnedIsFreed(s1, rest, n - 1, x);
    }
  }

  /** An object that is live during a sweep, reachable or not and however new, is there when it is over. */
  lemma {:induction false} LiveSurvivesSweep(s: State, run: seq<Action>, n: nat, x: Id)
    requires Inv(s) && ValidRun(s, run) && n <= |run| && Live(s, x)
    requires forall i :: 0 <= i < n ==> Sweeping(After(s, run, i)) && !run[i].CollectAll?
    ensures Live(After(s, run, n), x)
    decreases n
  {
    hide Inv, Step, Enabled, Sweeping;
    if n > 0 {
      assert Sweeping(After(s, run, 0));
      ActionKeeps(s, run[0]);
      StepSafe(s, run[0]);
      var s1, rest := Step(s, run[0]), run[1..];
      forall i | 0 <= i < n - 1
        ensures Sweeping(After(s1, rest, i)) && !rest[i].CollectAll?
      {
        assert After(s1, rest, i) == After(s, run, i + 1) && rest[i] == run[i + 1];
      }
      LiveSurvivesSweep(s1, rest, n - 1, x);
    }
  }
}
