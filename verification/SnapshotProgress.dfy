/**
 Snapshots come to an end: the barriers are passed once the schedulers have left the calls that they
 were recording, and the result is then what the tables held.
 */
module SnapshotProgress {
  import opened Wrappers
  import opened PidHash
  import opened TraceSnapshot

  function Last(run: seq<State>): State
    requires run != []
  {
    run[|run| - 1]
  }

  /** Steps that neither record a call nor ask for a snapshot. */
  predicate IsIdle(step: Step) {
    !step.Record? && !step.Prepare?
  }

  /** The run goes on by such steps. */
  ghost predicate GoesOn(run: seq<State>, steps: seq<Step>, run1: seq<State>, steps1: seq<Step>) {
    run <= run1 && steps <= steps1 && forall i :: |steps| <= i < |steps1| ==> IsIdle(steps1[i])
  }

  lemma GoesOnTwice(run: seq<State>, steps: seq<Step>, run1: seq<State>, steps1: seq<Step>,
                    run2: seq<State>, steps2: seq<Step>)
    requires GoesOn(run, steps, run1, steps1) && GoesOn(run1, steps1, run2, steps2)
    ensures GoesOn(run, steps, run2, steps2)
  {
    assert forall i :: |steps| <= i < |steps1| ==> steps2[i] == steps1[i];
  }

  lemma StaysHere(run: seq<State>, steps: seq<Step>)
    ensures GoesOn(run, steps, run, steps)
  {
  }

  lemma LastKeepsInv(run: seq<State>, steps: seq<Step>, n: nat, writers: nat, tables: seq<Totals>)
    requires IsRunBy(run, steps, n, writers, tables)
    ensures run != [] && Inv(Last(run), SumAll(tables))
  {
    hide Inv, SumAll, Enabled, Safe, Apply, Shape;
    RunOf(run, steps, n, writers, tables);
    RunsKeepInv(run, n, writers, tables, |run| - 1);
  }

  /** One more step. */
  lemma Extend(run: seq<State>, steps: seq<Step>, n: nat, writers: nat, tables: seq<Totals>, step: Step)
    returns (run1: seq<State>, steps1: seq<Step>)
    requires IsRunBy(run, steps, n, writers, tables) && Enabled(Last(run), step)
    ensures Safe(Last(run), step) && Shape(Last(run))
    ensures run1 == run + [Apply(Last(run), step)] && steps1 == steps + [step]
    ensures IsRunBy(run1, steps1, n, writers, tables)
    ensures IsIdle(step) ==> GoesOn(run, steps, run1, steps1)
  {
    hide SumAll, Enabled, Safe, Apply, Conserved, Collected, WriterOk;
    LastKeepsInv(run, steps, n, writers, tables);
    StepsAreSafe(Last(run), SumAll(tables), step);
    run1, steps1 := run + [Apply(Last(run), step)], steps + [step];
    forall i | 0 <= i < |run1| - 1
      ensures TakenAt(run1, steps1, i)
    {
      if i < |run| - 1 {
        assert TakenAt(run, steps, i);
      }
    }
  }

  // ---------------------------------------------------------------- the schedulers get out

  /** Nothing but the schedulers' own positions has changed. */
  predicate SameButWriters(s: State, s1: State) {
    s1 == s.(writers := s1.writers) && |s1.writers| == |s.writers|
  }

  ghost predicate AllOutside(s: State, k: nat) {
    k <= |s.writers| && forall t :: 0 <= t < k ==> s.writers[t] == OUTSIDE
  }

  lemma BringOut(run: seq<State>, steps: seq<Step>, n: nat, writers: nat, tables: seq<Totals>, t: nat)
    returns (run1: seq<State>, steps1: seq<Step>)
    requires IsRunBy(run, steps, n, writers, tables) && t < |Last(run).writers|
    ensures IsRunBy(run1, steps1, n, writers, tables) && GoesOn(run, steps, run1, steps1)
    ensures SameButWriters(Last(run), Last(run1)) && Last(run1).writers[t] == OUTSIDE
    ensures forall u :: 0 <= u < |Last(run).writers| && u != t ==> Last(run1).writers[u] == Last(run).writers[u]
  {
    var s := Last(run);
    if s.writers[t].chosen.Some? {
      var run2, steps2 := Extend(run, steps, n, writers, tables, Load(t));
      assert Last(run2) == Move(s, t, Loaded(s, t));
      run1, steps1 := Extend(run2, steps2, n, writers, tables, Leave(t));
      assert Last(run1) == Move(Last(run2), t, OUTSIDE);
      GoesOnTwice(run, steps, run2, steps2, run1, steps1);
    } else {
      run1, steps1 := Extend(run, steps, n, writers, tables, Leave(t));
      assert Last(run1) == Move(s, t, OUTSIDE);
    }
  }

  lemma {:induction false} AllComeOut(run: seq<State>, steps: seq<Step>, n: nat, writers: nat, tables: seq<Totals>,
                                      k: nat)
    returns (run1: seq<State>, steps1: seq<Step>)
    requires IsRunBy(run, steps, n, writers, tables) && k <= |Last(run).writers|
    ensures IsRunBy(run1, steps1, n, writers, tables) && GoesOn(run, steps, run1, steps1)
    ensures SameButWriters(Last(run), Last(run1)) && AllOutside(Last(run1), k)
  {
    hide GoesOn, TakenAt;
    if k == 0 {
      run1, steps1 := run, steps;
      StaysHere(run, steps);
    } else {
      var run2, steps2 := AllComeOut(run, steps, n, writers, tables, k - 1);
      run1, steps1 := BringOut(run2, steps2, n, writers, tables, k - 1);
      GoesOnTwice(run, steps, run2, steps2, run1, steps1);
    }
  }

  // ---------------------------------------------------------------- the stages

  function Unacked(s: State): set<nat> {
    set t | 0 <= t < |s.writers| && t !in s.acked
  }

  predicate AtBarrier(s: State) {
    s.ctl.Prepared? || s.ctl.Switched? || s.ctl.Restored?
  }

  function StagesLeft(s: State): int {
    match s.ctl
    case Quiet => 0
    case Consolidating(_) => 1
    case Restored => 2
    case Collecting(_) => 3
    case Switched => 4
    case Prepared => 5
  }

  function StageLeft(s: State): int {
    match s.ctl
    case Collecting(i) => s.n + 1 - i
    case Consolidating(i) => s.n + 1 - i
    case Quiet => 0
    case _ => |Unacked(s)|
  }

  /** The collecting is complete, or over. */
  predicate IsComplete(s: State) {
    s.ctl == Collecting(s.n + 1) || s.ctl.Restored? || s.ctl.Consolidating? || s.ctl.Quiet?
  }

  ghost predicate Nearer(s: State, s1: State) {
    && s1.n == s.n && s1.writers == s.writers && StagesLeft(s1) >= 0 && StageLeft(s1) >= 0
    && (IsComplete(s) ==> IsComplete(s1) && s1.result == s.result)
    && (s1.ctl.Quiet? ==> IsComplete(s))
    && (StagesLeft(s1) < StagesLeft(s) || (StagesLeft(s1) == StagesLeft(s) && StageLeft(s1) < StageLeft(s)))
  }

  lemma AckNearer(s: State, t: nat)
    requires AtBarrier(s) && t in Unacked(s) && s.writers[t] == OUTSIDE
    ensures Enabled(s, Ack(t)) && Nearer(s, s.(acked := s.acked + {t}))
  {
    var s1 := s.(acked := s.acked + {t});
    assert Unacked(s1) == Unacked(s) - {t};
  }

  lemma LoopNearer(s: State)
    requires Shape(s) && (s.ctl.Collecting? || s.ctl.Consolidating?)
    ensures Nearer(s, DoControl(s))
  {
    hide Sum, SumAll, Real, Temp;
  }

  lemma BarrierNearer(s: State)
    requires Shape(s) && AtBarrier(s)
    ensures Nearer(s, DoControl(s))
  {
    hide Sum, SumAll, Real, Temp;
  }

  lemma ControlNearer(s: State)
    requires Shape(s) && !s.ctl.Quiet?
    ensures Nearer(s, DoControl(s))
  {
    hide Nearer, DoControl, Shape;
    if AtBarrier(s) {
      BarrierNearer(s);
    } else {
      LoopNearer(s);
    }
  }

  /** With all schedulers outside there is always a step that helps. */
  lemma NextStage(s: State) returns (step: Step)
    requires Shape(s) && AllOutside(s, |s.writers|) && !s.ctl.Quiet?
    ensures Enabled(s, step) && Safe(s, step) && IsIdle(step) && Nearer(s, Apply(s, step))
  {
    hide Nearer, DoControl, Shape;
    if t :| AtBarrier(s) && t in Unacked(s) {
      step := Ack(t);
      AckNearer(s, t);
    } else {
      step := Control;
      AllAcked(s);
      ControlNearer(s);
    }
  }

  lemma AllAcked(s: State)
    requires !s.ctl.Quiet? && (AtBarrier(s) ==> forall t :: t !in Unacked(s))
    ensures Enabled(s, Control)
  {
    if AtBarrier(s) {
      forall w: nat | w < |s.writers|
        ensures w in s.acked
      {
        assert w !in Unacked(s);
      }
    }
  }

  lemma LastShape(run: seq<State>, steps: seq<Step>, n: nat, writers: nat, tables: seq<Totals>)
    requires IsRunBy(run, steps, n, writers, tables)
    ensures run != [] && Shape(Last(run))
  {
    LastKeepsInv(run, steps, n, writers, tables);
  }

  /** On to the point where everything has been collected. */
  lemma {:induction false} Gather(run: seq<State>, steps: seq<Step>, n: nat, writers: nat, tables: seq<Totals>)
    returns (run1: seq<State>, steps1: seq<Step>)
    requires IsRunBy(run, steps, n, writers, tables) && AllOutside(Last(run), |Last(run).writers|)
    requires Gathering(Last(run))
    ensures IsRunBy(run1, steps1, n, writers, tables) && GoesOn(run, steps, run1, steps1)
    ensures Last(run1).ctl == Collecting(Last(run1).n + 1) && AllOutside(Last(run1), |Last(run1).writers|)
    decreases StagesLeft(Last(run)), StageLeft(Last(run))
  {
    hide GoesOn, TakenAt, Shape, Enabled, Safe, Apply, StagesLeft, StageLeft, IsIdle;
    if Last(run).ctl == Collecting(Last(run).n + 1) {
      run1, steps1 := run, steps;
      StaysHere(run, steps);
    } else {
      LastShape(run, steps, n, writers, tables);
      var step := NextStage(Last(run));
      var run2, steps2 := Extend(run, steps, n, writers, tables, step);
      StillGathering(Last(run), step);
      run1, steps1 := Gather(run2, steps2, n, writers, tables);
      GoesOnTwice(run, steps, run2, steps2, run1, steps1);
    }
  }

  lemma StillGathering(s: State, step: Step)
    requires Shape(s) && Enabled(s, step) && Safe(s, step)
    requires Gathering(s) && s.ctl != Collecting(s.n + 1)
    ensures Gathering(Apply(s, step))
  {
    hide Sum, SumAll;
  }

  /** From there on to the end, with the result as it is. */
  lemma {:induction false} FinishUp(run: seq<State>, steps: seq<Step>, n: nat, writers: nat, tables: seq<Totals>)
    returns (run1: seq<State>, steps1: seq<Step>)
    requires IsRunBy(run, steps, n, writers, tables) && AllOutside(Last(run), |Last(run).writers|)
    requires IsComplete(Last(run))
    ensures IsRunBy(run1, steps1, n, writers, tables) && GoesOn(run, steps, run1, steps1)
    ensures Last(run1).ctl.Quiet? && Last(run1).result == Last(run).result
    decreases StagesLeft(Last(run)), StageLeft(Last(run))
  {
    hide GoesOn, TakenAt, Shape, Enabled, Safe, Apply, StagesLeft, StageLeft, IsIdle;
    if Last(run).ctl.Quiet? {
      run1, steps1 := run, steps;
      StaysHere(run, steps);
    } else {
      LastShape(run, steps, n, writers, tables);
      var step := NextStage(Last(run));
      var run2, steps2 := Extend(run, steps, n, writers, tables, step);
      run1, steps1 := FinishUp(run2, steps2, n, writers, tables);
      GoesOnTwice(run, steps, run2, steps2, run1, steps1);
    }
  }

  /** Every run can go on until no snapshot is being taken. */
  lemma SnapshotsEnd(run: seq<State>, steps: seq<Step>, n: nat, writers: nat, tables: seq<Totals>)
    returns (run1: seq<State>, steps1: seq<Step>)
    requires IsRunBy(run, steps, n, writers, tables)
    ensures IsRunBy(run1, steps1, n, writers, tables) && run <= run1 && steps <= steps1
    ensures forall i :: |steps| <= i < |steps1| ==> !steps1[i].Record? && !steps1[i].Prepare?
    ensures Last(run1).ctl.Quiet?
  {
    hide TakenAt;
    var run2, steps2 := AllComeOut(run, steps, n, writers, tables, |Last(run).writers|);
    if Gathering(Last(run2)) {
      var run3, steps3 := Gather(run2, steps2, n, writers, tables);
      GoesOnTwice(run, steps, run2, steps2, run3, steps3);
      run1, steps1 := FinishUp(run3, steps3, n, writers, tables);
      GoesOnTwice(run, steps, run3, steps3, run1, steps1);
    } else {
      run1, steps1 := FinishUp(run2, steps2, n, writers, tables);
      GoesOnTwice(run, steps, run2, steps2, run1, steps1);
    }
  }

  /**
   A snapshot can be asked for at any time when none is being taken, and be brought to an end; if no
   call is recorded meanwhile, it has for each process exactly what the tables held and what was
   recorded up to then.
   */
  lemma SnapshotTakes(run: seq<State>, steps: seq<Step>, n: nat, writers: nat, tables: seq<Totals>, p: Pid)
    returns (run1: seq<State>, steps1: seq<Step>)
    requires IsRunBy(run, steps, n, writers, tables) && Last(run).ctl.Quiet?
    ensures IsRunBy(run1, steps1, n, writers, tables) && run <= run1 && steps + [Prepare] <= steps1
    ensures Last(run1).ctl.Quiet?
    ensures CountIn(Last(run1).result, p) == CountAll(tables, p) + CountOf(Recorded(steps), p)
    ensures AccIn(Last(run1).result, p) == AccAll(tables, p) + AccOf(Recorded(steps), p)
  {
    var runA, stepsA := Extend(run, steps, n, writers, tables, Prepare);
    assert Gathering(Last(runA));
    hide TakenAt, Apply, Enabled, Safe, Shape, CountIn, AccIn;
    var runB, stepsB := AllComeOut(runA, stepsA, n, writers, tables, |Last(runA).writers|);
    var runC, stepsC := Gather(runB, stepsB, n, writers, tables);
    GoesOnTwice(runA, stepsA, runB, stepsB, runC, stepsC);
    NoneLate(runC, stepsC, n, writers, tables, |steps|, p);
    run1, steps1 := FinishUp(runC, stepsC, n, writers, tables);
    assert stepsC[..|steps|] == steps;
  }

  lemma {:induction false} LandedNone(run: seq<State>, steps: seq<Step>, j: nat, k: nat)
    requires k < |run| == |steps| + 1 && forall i :: j <= i < k ==> IsIdle(steps[i])
    ensures Landed(run, steps, j, k) == []
  {
    if k > j {
      LandedNone(run, steps, j, k - 1);
    }
  }

  lemma NoItems(p: Pid)
    ensures CountOf([], p) == 0 && AccOf([], p) == 0
  {
  }

  /** Nothing recorded since the snapshot was asked for at step `j`. */
  lemma NoneLate(run: seq<State>, steps: seq<Step>, n: nat, writers: nat, tables: seq<Totals>, j: nat, p: Pid)
    requires IsRunBy(run, steps, n, writers, tables) && Last(run).ctl == Collecting(Last(run).n + 1)
    requires j < |steps| && steps[j] == Prepare && forall i :: j < i < |steps| ==> IsIdle(steps[i])
    ensures CountIn(Last(run).result, p) == CountAll(tables, p) + CountOf(Recorded(steps[..j]), p)
    ensures AccIn(Last(run).result, p) == AccAll(tables, p) + AccOf(Recorded(steps[..j]), p)
  {
    hide TakenAt, CountIn, AccIn, CountOf, AccOf, Shape;
    var j1 := SnapshotIsExactForEach(run, steps, n, writers, tables, |steps|, p);
    assert j1 == j;
    LandedNone(run, steps, j + 1, |steps|);
    NoItems(p);
  }

  /** A scheduler that is not in the middle of reading a table pointer can record a call. */
  lemma CallIsRecorded(run: seq<State>, steps: seq<Step>, n: nat, writers: nat, tables: seq<Totals>, w: nat, p: Pid,
                       st: Stat) returns (run1: seq<State>, steps1: seq<Step>)
    requires IsRunBy(run, steps, n, writers, tables) && w < |Last(run).writers| && Last(run).writers[w].chosen.None?
    requires Dirty(Last(run), w) ==> !Last(run).ctl.Consolidating?
    ensures IsRunBy(run1, steps1, n, writers, tables) && run <= run1 && |run1| == |run| + 3
    ensures Recorded(steps1) == Recorded(steps) + [(p, st)]
  {
    hide TakenAt, Sum, SumAll, Accumulated;
    var s := Last(run);
    var runA, stepsA := Extend(run, steps, n, writers, tables, Choose(w));
    var runB, stepsB := Extend(runA, stepsA, n, writers, tables, Load(w));
    var o := s.half[s.activeIx];
    assert Last(runB) == Move(Last(runA), w, Loaded(Last(runA), w));
    run1, steps1 := Extend(runB, stepsB, n, writers, tables, Record(w, o, p, st));
    RecordedLast(steps, Choose(w));
    RecordedLast(stepsA, Load(w));
    RecordedLast(stepsB, Record(w, o, p, st));
  }

  lemma RecordedLast(steps: seq<Step>, step: Step)
    ensures Recorded(steps + [step]) == Recorded(steps) + if step.Record? then [(step.pid, step.stat)] else []
  {
    assert (steps + [step])[..|steps|] == steps;
  }
}
