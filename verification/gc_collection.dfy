/**
 Reachability, the safety of one collector step, and the full collection: it ends, and it
 leaves exactly the reachable objects.
 */
module GcCollection {
  import opened GcHeap
  import opened GcState
  import opened GcInvariant
  import opened GcMarkPhase
  import opened GcCycle

  // ------------------------------------------------------------- reachability

  ghost predicate IsRoot(s: State, x: Id) {
    x == s.main || s.registry == Ref(x) || Ref(x) in s.mt
  }

  /** Reachable from a root by `n` accesses. */
  ghost predicate ReachIn(s: State, n: nat, x: Id) {
    if n == 0 then IsRoot(s, x)
    else exists y :: ReachIn(s, n - 1, y) && Refers(s, y, x)
  }

  /** Some access to `y` gives a reference to `x`. */
  ghost predicate Refers(s: State, y: Id, x: Id) {
    y in s.heap && LeadsTo(s.roots, s.heap[y].body, x)
  }

  ghost predicate Reachable(s: State, x: Id) {
    exists n: nat :: ReachIn(s, n, x)
  }

  lemma {:induction false} ReachInLive(s: State, n: nat, x: Id)
    requires Closed(s) && ReachIn(s, n, x)
    ensures Live(s, x)
  {
    if n == 0 {
      assert ValueLive(s, Ref(x)) by {
        assert Ref(x) in s.mt ==> ValueLive(s, Ref(x));
      }
    } else {
      var y :| ReachIn(s, n - 1, y) && Refers(s, y, x);
      ReachInLive(s, n - 1, y);
      ChildIsRead(s.roots, s.heap[y].body, x);
    }
  }

  /** Whatever the program can still reach exists and is not condemned. */
  lemma ReachableIsLive(s: State, x: Id)
    requires Closed(s) && Reachable(s, x)
    ensures Live(s, x)
  {
    var n: nat :| ReachIn(s, n, x);
    ReachInLive(s, n, x);
  }

  /** No step of the collector frees a reachable object. */
  lemma CollectorStepSafe(s: State, x: Id)
    requires Inv(s) && Reachable(s, x)
    ensures x in s.heap && x in SingleStep(s).heap
    ensures SameKind(s.heap[x].body, SingleStep(s).heap[x].body)
  {
    ReachableIsLive(s, x);
    SingleStepKeepsInv(s);
  }

  // ------------------------------------------------------------- running a collection to its end

  function Rank(p: Phase): nat {
    match p
    case Pause => 0
    case Finalize => 1
    case Sweep => 2
    case SweepString => 3
    case Propagate => 4
  }

  /** Objects left to mark. */
  function ToMark(s: State): set<Id> {
    if s.phase == Propagate then Whites(s.heap) else {}
  }

  /** Entries left to visit in the list the phase works on. */
  function ToVisit(s: State): int {
    match s.phase
    case Propagate => |s.gray|
    case SweepString => |s.strt| - s.sweepStrGc
    case Sweep => Remaining(s)
    case _ => 0
  }

  lemma StepMakesProgress(s: State)
    requires Inv(s) && s.phase != Pause
    ensures var s' := SingleStep(s);
            && ToVisit(s) >= 0
            && Rank(s'.phase) <= Rank(s.phase)
            && (Rank(s'.phase) == Rank(s.phase) ==>
                  ToMark(s') <= ToMark(s) && (ToMark(s') == ToMark(s) ==> ToVisit(s') < ToVisit(s)))
  {
    hide Closed, Lists, SweepObjs, MarkAll, CheckSizes;
    VisitsLeft(s);
    match s.phase {
      case Propagate =>
        GrayIsThere(s);
        if s.gray != [] {
          PropagateShrinks(s);
        }
      case SweepString =>
        BucketIsThere(s);
      case Sweep =>
        SweepObjsSweeps(s, GCSWEEPMAX);
      case _ =>
    }
  }

  lemma VisitsLeft(s: State)
    requires Inv(s)
    ensures ToVisit(s) >= 0
  {
  }

  /** The loops of `luaC_fullgc`: steps until the phase is `stop`. */
  function RunTo(s: State, stop: Phase): (s': State)
    requires Inv(s) && (stop == Pause || (stop == Finalize && Rank(s.phase) >= 1))
    ensures Inv(s') && s'.phase == stop
    decreases Rank(s.phase), ToMark(s), ToVisit(s)
  {
    VisitsLeft(s);
    if s.phase == stop then s
    else
      StepMakesProgress(s);
      SingleStepKeepsInv(s);
      StaysBefore(s, stop);
      RunTo(SingleStep(s), stop)
  }

  lemma StaysBefore(s: State, stop: Phase)
    requires Inv(s) && s.phase != stop && Rank(s.phase) >= 1
    ensures stop == Finalize ==> Rank(SingleStep(s).phase) >= 1
  {
    hide Inv, MarkRoot, SweepObjs, CheckSizes;
  }

  /** What holds between the states before and after any number of collector steps. */
  lemma StepOkTrans(s: State, s1: State, s2: State)
    requires Kept(s, s1) && Kept(s1, s2)
    ensures Kept(s, s2)
  {
    forall x | x in s2.heap
      ensures SameKind(s.heap[x].body, s2.heap[x].body)
    {
      TraversedTwice(s.heap[x].body);
    }
  }

  /** The objects of `s'` are objects of `s`, with the same contents, and the fixed ones are all there. */
  ghost predicate Kept(s: State, s': State) {
    && (forall x :: x in s.heap && s.heap[x].fixed ==> x in s'.heap)
    && (forall x :: x in s'.heap ==> x in s.heap && s'.heap[x].fixed == s.heap[x].fixed &&
                                     SameKind(s.heap[x].body, s'.heap[x].body))
    && s'.roots == s.roots && s'.main == s.main && s'.registry == s.registry && s'.mt == s.mt
  }

  lemma {:induction false} RunToKeeps(s: State, stop: Phase)
    requires Inv(s) && (stop == Pause || (stop == Finalize && Rank(s.phase) >= 1))
    ensures Kept(s, RunTo(s, stop))
    decreases Rank(s.phase), ToMark(s), ToVisit(s)
  {
    hide Inv, ToVisit, ToMark, SingleStep;
    VisitsLeft(s);
    if s.phase != stop {
      StepMakesProgress(s);
      SingleStepKeepsInv(s);
      StaysBefore(s, stop);
      RunToKeeps(SingleStep(s), stop);
      StepOkTrans(s, SingleStep(s), RunTo(SingleStep(s), stop));
    }
  }

  /** The reset at the start of `luaC_fullgc`: an unfinished mark phase is abandoned. */
  function Abandon(s: State): State {
    if s.phase == Pause || s.phase == Propagate
    then s.(gray := [], grayAgain := [], sweepStrGc := 0, sweepGc := 0, phase := SweepString)
    else s
  }

  lemma AbandonKeepsInv(s: State)
    requires Inv(s)
    ensures Inv(Abandon(s))
  {
    hide StringsOk, OpenOk, RootListOk, ThreadOk;
    var s' := Abandon(s);
    StringsThere(s);
    SameLiveClosed(s, s');
  }

  /** `luaC_fullgc`. */
  function FullGc(s: State): (s': State)
    requires Inv(s)
    ensures Inv(s') && s'.phase == Pause
  {
    AbandonKeepsInv(s);
    var s1 := RunTo(Abandon(s), Finalize);
    MarkRootKeepsInv(s1);
    RunTo(MarkRoot(s1), Pause)
  }
}
