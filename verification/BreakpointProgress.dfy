/**
 Breakpoint operations come to an end: schedulers get out of the list they walk, every barrier is then
 passed, and what was asked for is in effect.
 */
module BreakpointProgress {
  import opened BreakpointModel
  import opened BreakpointStaging
  import opened BreakpointEffect

  function Last(run: seq<State>): State
    requires run != []
  {
    run[|run| - 1]
  }

  /** The run goes on, and no further operation begins. */
  ghost predicate GoesOn(run: seq<State>, steps: seq<Step>, run1: seq<State>, steps1: seq<Step>) {
    run <= run1 && steps <= steps1 && forall i :: |steps| <= i < |steps1| ==> !steps1[i].Begin?
  }

  lemma GoesOnTwice(run: seq<State>, steps: seq<Step>, run1: seq<State>, steps1: seq<Step>,
                    run2: seq<State>, steps2: seq<Step>)
    requires GoesOn(run, steps, run1, steps1) && GoesOn(run1, steps1, run2, steps2)
    ensures GoesOn(run, steps, run2, steps2)
  {
    assert forall i :: |steps| <= i < |steps1| ==> steps2[i] == steps1[i];
  }

  /** One more step. */
  lemma Extend(run: seq<State>, steps: seq<Step>, walkers: nat, orig: Instr, step: Step)
    returns (run1: seq<State>, steps1: seq<Step>)
    requires IsRunBy(run, steps, walkers, orig) && Inv(Last(run)) && Enabled(Last(run), step) && !step.Begin?
    ensures IsRunBy(run1, steps1, walkers, orig) && GoesOn(run, steps, run1, steps1)
    ensures Safe(Last(run), step) && Last(run1) == Apply(Last(run), step) && Inv(Last(run1))
  {
    hide Inv, Enabled, Safe, Apply;
    StepKeeps(Last(run), step);
    InvShape(Last(run));
    run1, steps1 := run + [Apply(Last(run), step)], steps + [step];
    forall i | 0 <= i < |run1| - 1
      ensures TakenAt(run1, steps1, i)
    {
      if i < |run| - 1 {
        assert TakenAt(run, steps, i);
      }
    }
  }

  lemma InvShape(s: State)
    requires Inv(s)
    ensures Shape(s.b)
  {
  }

  // ---------------------------------------------------------------- the schedulers get out

  /** How many steps a scheduler is from the end of its walk, at most. */
  function WalkLeft(w: Walker): int {
    match w
    case Outside => 0
    case Skipping => 1
    case Entered => 2
    case At(pos, _) => 2 * pos + 3
    case Using(pos, _, _) => 2 * pos + 2
  }

  function NextWalk(w: Walker, t: nat): Step {
    match w
    case Entered => Skip(t)
    case At(pos, _) => if pos == NULL then Return(t) else Capture(t)
    case Using(_, _, _) => Advance(t)
    case _ => Return(t)
  }

  /** The walk gets shorter: links lead to older nodes. */
  lemma WalkAdvances(s: State, t: nat)
    requires Inv(s) && t < |s.walkers| && !s.walkers[t].Outside?
    ensures
      var step := NextWalk(s.walkers[t], t);
      && Enabled(s, step) && !step.Begin? && Safe(s, step) && Shape(s.b)
      && var s1 := Apply(s, step);
         && s1.b == s.b && |s1.walkers| == |s.walkers| && s1.acked == s.acked
         && (forall u :: 0 <= u < |s.walkers| && u != t ==> s1.walkers[u] == s.walkers[u])
         && 0 <= WalkLeft(s1.walkers[t]) < WalkLeft(s.walkers[t])
  {
    assert WalkerOk(s.b, t in s.acked, s.walkers[t]);
    StepKeeps(s, NextWalk(s.walkers[t], t));
    var s1 := Apply(s, NextWalk(s.walkers[t], t));
    assert WalkerOk(s1.b, t in s1.acked, s1.walkers[t]);
  }

  lemma {:induction false} BringOut(run: seq<State>, steps: seq<Step>, walkers: nat, orig: Instr, t: nat)
    returns (run1: seq<State>, steps1: seq<Step>)
    requires IsRunBy(run, steps, walkers, orig) && Inv(Last(run)) && t < |Last(run).walkers|
    ensures IsRunBy(run1, steps1, walkers, orig) && GoesOn(run, steps, run1, steps1) && Inv(Last(run1))
    ensures |Last(run1).walkers| == |Last(run).walkers| && Last(run1).walkers[t].Outside?
    ensures forall u :: 0 <= u < |Last(run).walkers| && u != t ==> Last(run1).walkers[u] == Last(run).walkers[u]
    decreases WalkLeft(Last(run).walkers[t])
  {
    hide Inv, IsRunBy, Enabled, Safe, Apply, NextWalk, WalkLeft, GoesOn;
    NotEmpty(run, steps, walkers, orig);
    if Last(run).walkers[t].Outside? {
      run1, steps1 := run, steps;
      StaysHere(run, steps);
    } else {
      WalkAdvances(Last(run), t);
      var run2, steps2 := Extend(run, steps, walkers, orig, NextWalk(Last(run).walkers[t], t));
      NotEmpty(run2, steps2, walkers, orig);
      run1, steps1 := BringOut(run2, steps2, walkers, orig, t);
      GoesOnTwice(run, steps, run2, steps2, run1, steps1);
    }
  }

  lemma NotEmpty(run: seq<State>, steps: seq<Step>, walkers: nat, orig: Instr)
    requires IsRunBy(run, steps, walkers, orig)
    ensures run != []
  {
  }

  lemma StaysHere(run: seq<State>, steps: seq<Step>)
    ensures GoesOn(run, steps, run, steps)
  {
  }

  ghost predicate AllOutside(s: State, k: nat) {
    k <= |s.walkers| && forall t :: 0 <= t < k ==> s.walkers[t].Outside?
  }

  lemma {:induction false} AllComeOut(run: seq<State>, steps: seq<Step>, walkers: nat, orig: Instr, k: nat)
    returns (run1: seq<State>, steps1: seq<Step>)
    requires IsRunBy(run, steps, walkers, orig) && Inv(Last(run)) && k <= |Last(run).walkers|
    ensures IsRunBy(run1, steps1, walkers, orig) && GoesOn(run, steps, run1, steps1) && Inv(Last(run1))
    ensures |Last(run1).walkers| == |Last(run).walkers| && AllOutside(Last(run1), k)
  {
    hide Inv, IsRunBy, GoesOn;
    if k == 0 {
      run1, steps1 := run, steps;
      StaysHere(run, steps);
    } else {
      var run2, steps2 := AllComeOut(run, steps, walkers, orig, k - 1);
      NotEmpty(run2, steps2, walkers, orig);
      run1, steps1 := BringOut(run2, steps2, walkers, orig, k - 1);
      NotEmpty(run1, steps1, walkers, orig);
      GoesOnTwice(run, steps, run2, steps2, run1, steps1);
    }
  }

  // ---------------------------------------------------------------- the stages

  /** How many stages are left. */
  function StagesLeft(b: Bp): int {
    match b.ctl
    case Quiet => 0
    case Freeing => 1
    case Wait(_, k) => if k >= 3 then 2 else 6 - k
    case Consolidating(_, _, _) => 3
  }

  function Unacked(s: State): set<nat> {
    set t | 0 <= t < |s.walkers| && t !in s.acked
  }

  /** What is left to do in this one. */
  function StageLeft(s: State): int {
    match s.b.ctl
    case Quiet => 0
    case Freeing => |s.b.freeList|
    case Wait(_, _) => |Unacked(s)|
    case Consolidating(_, _, cur) => cur + 1
  }

  ghost predicate Nearer(s: State, s1: State) {
    && s1.walkers == s.walkers && StagesLeft(s1.b) >= 0 && StageLeft(s1) >= 0
    && (StagesLeft(s1.b) < StagesLeft(s.b)
        || (StagesLeft(s1.b) == StagesLeft(s.b) && StageLeft(s1) < StageLeft(s)))
  }

  lemma AckNearer(s: State, t: nat)
    requires Inv(s) && s.b.ctl.Wait? && t in Unacked(s) && s.walkers[t].Outside?
    ensures Enabled(s, Ack(t)) && Nearer(s, Apply(s, Ack(t)))
  {
    assert Unacked(Apply(s, Ack(t))) == Unacked(s) - {t};
  }

  lemma FreeNearer(s: State, n: Id)
    requires Inv(s) && s.b.ctl.Freeing? && n in s.b.freeList
    ensures Enabled(s, Free(n)) && Safe(s, Free(n)) && Nearer(s, Apply(s, Free(n)))
  {
  }

  lemma ConsolidateNearer(b: Bp)
    requires Shape(b) && b.ctl.Consolidating? && b.ctl.cur >= NULL && (b.ctl.cur == NULL || b.ctl.cur in b.heap)
    ensures
      var b1 := DoConsolidate(b);
      b1.ctl == Wait(b.ctl.op, 3) || (b1.ctl.Consolidating? && NULL <= b1.ctl.cur < b.ctl.cur)
  {
  }

  lemma StageNearer(b: Bp)
    requires Shape(b) && !b.ctl.Quiet? && !b.ctl.Consolidating? && (b.ctl.Wait? ==> b.ctl.k <= 3)
    ensures
      var b1 := DoControl(b);
      && 0 <= StagesLeft(b1) < StagesLeft(b)
      && (b1.ctl.Consolidating? ==> b1.ctl.cur == b.head) && (b1.ctl.Freeing? ==> b.ctl.Wait?)
  {
    hide Shape;
  }

  lemma LoopStands(b: Bp)
    requires BpInv(b)
    ensures b.ctl.Consolidating? ==> b.ctl.cur >= NULL && (b.ctl.cur == NULL || b.ctl.cur in b.heap)
    ensures b.head >= NULL
  {
  }

  lemma ControlNearer(s: State)
    requires Inv(s) && Enabled(s, Control) && Safe(s, Control)
    ensures Nearer(s, Apply(s, Control))
  {
    LoopStands(s.b);
    InvShape(s);
    if s.b.ctl.Consolidating? {
      hide Inv, DoConsolidate, Shape;
      ConsolidateControl(s.b);
      ConsolidateNearer(s.b);
    } else {
      if s.b.ctl.Wait? {
        StageBound(s.b);
      }
      hide Inv, DoControl, Shape;
      StageNearer(s.b);
    }
  }

  /** With all schedulers outside there is always a step that helps. */
  lemma NextStage(s: State) returns (step: Step)
    requires Inv(s) && AllOutside(s, |s.walkers|) && !s.b.ctl.Quiet?
    ensures Enabled(s, step) && !step.Begin? && Safe(s, step) && Shape(s.b) && Nearer(s, Apply(s, step))
  {
    InvShape(s);
    if t :| s.b.ctl.Wait? && t in Unacked(s) {
      step := Ack(t);
      AckNearer(s, t);
    } else if n :| s.b.ctl.Freeing? && n in s.b.freeList {
      step := Free(n);
      FreeNearer(s, n);
    } else {
      step := Control;
      AllAcked(s);
      StepKeeps(s, Control);
      ControlNearer(s);
    }
  }

  lemma AllAcked(s: State)
    requires !s.b.ctl.Quiet? && (s.b.ctl.Wait? ==> forall t :: t !in Unacked(s))
    requires s.b.ctl.Freeing? ==> forall n :: n !in s.b.freeList
    ensures Enabled(s, Control)
  {
    if s.b.ctl.Wait? {
      forall t: nat | t < |s.walkers|
        ensures t in s.acked
      {
        assert t !in Unacked(s);
      }
    }
  }

  lemma {:induction false} StagesEnd(run: seq<State>, steps: seq<Step>, walkers: nat, orig: Instr)
    returns (run1: seq<State>, steps1: seq<Step>)
    requires IsRunBy(run, steps, walkers, orig) && Inv(Last(run)) && AllOutside(Last(run), |Last(run).walkers|)
    ensures IsRunBy(run1, steps1, walkers, orig) && GoesOn(run, steps, run1, steps1) && Last(run1).b.ctl.Quiet?
    decreases StagesLeft(Last(run).b), StageLeft(Last(run))
  {
    hide Inv, IsRunBy, GoesOn, Enabled, Safe, Apply, StagesLeft, StageLeft, Shape;
    NotEmpty(run, steps, walkers, orig);
    if Last(run).b.ctl.Quiet? {
      run1, steps1 := run, steps;
      StaysHere(run, steps);
    } else {
      var step := NextStage(Last(run));
      var run2, steps2 := Extend(run, steps, walkers, orig, step);
      NotEmpty(run2, steps2, walkers, orig);
      run1, steps1 := StagesEnd(run2, steps2, walkers, orig);
      GoesOnTwice(run, steps, run2, steps2, run1, steps1);
    }
  }

  /** Every run can go on, without a further operation, until the one that is going on has ended. */
  lemma OperationsEnd(run: seq<State>, steps: seq<Step>, walkers: nat, orig: Instr)
    returns (run1: seq<State>, steps1: seq<Step>)
    requires IsRunBy(run, steps, walkers, orig)
    ensures IsRunBy(run1, steps1, walkers, orig) && run <= run1 && steps <= steps1
    ensures forall i :: |steps| <= i < |steps1| ==> !steps1[i].Begin?
    ensures Last(run1).b.ctl.Quiet?
  {
    RunOf(run, steps, walkers, orig);
    RunsKeepInv(run, walkers, orig, |run| - 1);
    hide Inv, IsRunBy;
    var run2, steps2 := AllComeOut(run, steps, walkers, orig, |Last(run).walkers|);
    NotEmpty(run2, steps2, walkers, orig);
    run1, steps1 := StagesEnd(run2, steps2, walkers, orig);
    NotEmpty(run1, steps1, walkers, orig);
    GoesOnTwice(run, steps, run2, steps2, run1, steps1);
  }

  /** Any operation can be begun between operations, and be brought to an end at which it is in effect. */
  lemma OperationTakesEffect(run: seq<State>, steps: seq<Step>, walkers: nat, orig: Instr, op: Op, session: nat)
    returns (run1: seq<State>, steps1: seq<Step>)
    requires IsRunBy(run, steps, walkers, orig) && Last(run).b.ctl.Quiet? && op.flags != {}
    ensures IsRunBy(run1, steps1, walkers, orig) && run <= run1 && steps + [Begin(op)] <= steps1
    ensures Shape(Last(run).b) && Shape(Last(run1).b) && Last(run1).b.ctl.Quiet?
    ensures FlagsOf(Last(run1).b, session) == Changed(op, session, FlagsOf(Last(run).b, session))
  {
    var k := |run| - 1;
    RunOf(run, steps, walkers, orig);
    RunsKeepInv(run, walkers, orig, k);
    StepKeeps(Last(run), Begin(op));
    var run2, steps2 := run + [Apply(Last(run), Begin(op))], steps + [Begin(op)];
    Begun(run, steps, walkers, orig, op);
    hide Inv, IsRunBy, Apply, FlagsOf, Shape;
    run1, steps1 := OperationsEnd(run2, steps2, walkers, orig);
    NotEmpty(run1, steps1, walkers, orig);
    TakesEffect(run1, steps1, walkers, orig, k, op, session);
  }

  lemma Begun(run: seq<State>, steps: seq<Step>, walkers: nat, orig: Instr, op: Op)
    requires IsRunBy(run, steps, walkers, orig) && Shape(Last(run).b)
    requires Enabled(Last(run), Begin(op)) && Safe(Last(run), Begin(op))
    ensures IsRunBy(run + [Apply(Last(run), Begin(op))], steps + [Begin(op)], walkers, orig)
  {
    hide Enabled, Safe, Apply, Shape;
    var run1, steps1 := run + [Apply(Last(run), Begin(op))], steps + [Begin(op)];
    forall i | 0 <= i < |run1| - 1
      ensures TakenAt(run1, steps1, i)
    {
      if i < |run| - 1 {
        assert TakenAt(run, steps, i);
      }
    }
  }

  lemma TakesEffect(run: seq<State>, steps: seq<Step>, walkers: nat, orig: Instr, k: nat, op: Op, session: nat)
    requires IsRunBy(run, steps, walkers, orig) && k < |steps| && steps[k] == Begin(op)
    requires run[k].b.ctl.Quiet? && run[|steps|].b.ctl.Quiet? && forall i :: k < i < |steps| ==> !steps[i].Begin?
    ensures Shape(run[k].b) && Shape(run[|steps|].b)
    ensures FlagsOf(run[|steps|].b, session) == Changed(op, session, FlagsOf(run[k].b, session))
  {
    OperationEffect(run, steps, walkers, orig, k, |steps|, session);
  }

  // ---------------------------------------------------------------- schedulers do walk

  /** On to the end of the list. */
  lemma {:induction false} WalkToEnd(run: seq<State>, steps: seq<Step>, walkers: nat, orig: Instr, t: nat)
    returns (run1: seq<State>, steps1: seq<Step>)
    requires IsRunBy(run, steps, walkers, orig) && Inv(Last(run)) && t < |Last(run).walkers|
    requires Last(run).walkers[t].At? || Last(run).walkers[t].Using?
    ensures IsRunBy(run1, steps1, walkers, orig) && GoesOn(run, steps, run1, steps1) && Last(run1).b == Last(run).b
    ensures t < |Last(run1).walkers| && Last(run1).walkers[t].At? && Last(run1).walkers[t].pos == NULL
    decreases WalkLeft(Last(run).walkers[t])
  {
    hide Inv, IsRunBy, Enabled, Safe, Apply, NextWalk, WalkLeft, GoesOn;
    NotEmpty(run, steps, walkers, orig);
    var w := Last(run).walkers[t];
    if w.At? && w.pos == NULL {
      run1, steps1 := run, steps;
      StaysHere(run, steps);
    } else {
      WalkAdvances(Last(run), t);
      StillWalking(Last(run), t);
      var run2, steps2 := Extend(run, steps, walkers, orig, NextWalk(w, t));
      NotEmpty(run2, steps2, walkers, orig);
      run1, steps1 := WalkToEnd(run2, steps2, walkers, orig, t);
      GoesOnTwice(run, steps, run2, steps2, run1, steps1);
    }
  }

  lemma StillWalking(s: State, t: nat)
    requires Shape(s.b) && t < |s.walkers| && (s.walkers[t].Using? || (s.walkers[t].At? && s.walkers[t].pos != NULL))
    requires Enabled(s, NextWalk(s.walkers[t], t)) && Safe(s, NextWalk(s.walkers[t], t))
    ensures
      var s1 := Apply(s, NextWalk(s.walkers[t], t));
      t < |s1.walkers| && (s1.walkers[t].At? || s1.walkers[t].Using?)
  {
  }

  /**
   Whenever some session is enabled, a scheduler outside can fetch the breakpoint instruction and walk
   the list to its end, and has then visited every enabled session.
   */
  lemma SchedulerCanWalk(run: seq<State>, steps: seq<Step>, walkers: nat, orig: Instr, t: nat, n: Id)
    returns (run1: seq<State>, steps1: seq<Step>)
    requires IsRunBy(run, steps, walkers, orig) && t < |Last(run).walkers| && Last(run).walkers[t].Outside?
    requires Shape(Last(run).b) && n in Linked(Last(run).b) && ActiveFlags(Last(run).b, n) != {}
    ensures IsRunBy(run1, steps1, walkers, orig) && run <= run1 && Last(run1).b == Last(run).b
    ensures t < |Last(run1).walkers| && Last(run1).walkers[t].At? && n in Last(run1).walkers[t].visited
    ensures Enabled(Last(run1), Return(t))
  {
    RunOf(run, steps, walkers, orig);
    RunsKeepInv(run, walkers, orig, |run| - 1);
    EnabledMeansInstalled(run, walkers, orig, |run| - 1);
    var runA, stepsA := Extend(run, steps, walkers, orig, Fetch(t));
    var runB, stepsB := Extend(runA, stepsA, walkers, orig, ReadHead(t));
    EntersList(Last(run), Last(runA), Last(runB), t);
    hide Inv, IsRunBy, Apply, Safe;
    GoesOnTwice(run, steps, runA, stepsA, runB, stepsB);
    run1, steps1 := WalkToEnd(runB, stepsB, walkers, orig, t);
    GoesOnTwice(run, steps, runB, stepsB, run1, steps1);
    NotEmpty(run1, steps1, walkers, orig);
    VisitedAtEnd(run1, steps1, walkers, orig, t, n);
  }

  lemma EntersList(s: State, s1: State, s2: State, t: nat)
    requires Shape(s.b) && Enabled(s, Fetch(t)) && s1 == Apply(s, Fetch(t))
    requires Safe(s1, ReadHead(t)) && s2 == Apply(s1, ReadHead(t))
    ensures t < |s2.walkers| && s2.walkers[t].At? && s2.b == s.b
  {
  }

  lemma VisitedAtEnd(run: seq<State>, steps: seq<Step>, walkers: nat, orig: Instr, t: nat, n: Id)
    requires IsRunBy(run, steps, walkers, orig) && t < |Last(run).walkers|
    requires Last(run).walkers[t].At? && Last(run).walkers[t].pos == NULL
    requires Shape(Last(run).b) && n in Linked(Last(run).b) && ActiveFlags(Last(run).b, n) != {}
    ensures Enabled(Last(run), Return(t)) && n in Last(run).walkers[t].visited
  {
    RunOf(run, steps, walkers, orig);
    EveryEnabledSessionIsReached(run, walkers, orig, |run| - 1, t);
  }
}
