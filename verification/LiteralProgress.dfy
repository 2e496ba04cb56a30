/**
 Release of literal areas happens: once the blocks that stand in the way have been given up, nothing
 but steps of the collector and thread progress is needed to release every area, and only a bounded
 number of them.
 */
module LiteralProgress {
  import opened Wrappers
  import opened LiteralRelease

  // ---------------------------------------------------------------- continuations of a run

  /** The steps can be done one after the other. */
  ghost predicate CanDo(s: State, steps: seq<Step>)
    decreases |steps|
  {
    Shape(s) && (steps != [] ==> Enabled(s, steps[0]) && CanDo(Apply(s, steps[0]), steps[1..]))
  }

  ghost function Do(s: State, steps: seq<Step>): State
    requires CanDo(s, steps)
    decreases |steps|
  {
    if steps == [] then s else Do(Apply(s, steps[0]), steps[1..])
  }

  /** The states that the steps lead through. */
  ghost function Trace(s: State, steps: seq<Step>): (states: seq<State>)
    requires CanDo(s, steps)
    ensures |states| == |steps|
    ensures Do(s, steps) == if states == [] then s else states[|states| - 1]
    decreases |steps|
  {
    if steps == [] then [] else [Apply(s, steps[0])] + Trace(Apply(s, steps[0]), steps[1..])
  }

  function Last(run: seq<State>): State
    requires run != []
  {
    run[|run| - 1]
  }

  lemma LastKeepsInv(run: seq<State>, n: nat)
    requires IsRun(run, n)
    ensures run != [] && Inv(Last(run)) && Last(run).n == n
  {
    hide Inv, Follows;
    RunsKeepInv(run, n, |run| - 1);
    RunOlder(run, n, 0, |run| - 1);
  }

  lemma RunStep(run: seq<State>, n: nat, step: Step)
    requires IsRun(run, n) && Shape(Last(run)) && Enabled(Last(run), step)
    ensures IsRun(run + [Apply(Last(run), step)], n)
  {
    hide Apply, Enabled, Shape;
    var run1 := run + [Apply(Last(run), step)];
    forall i | 0 <= i < |run1| - 1
      ensures FollowsAt(run1, i)
    {
      if i < |run| - 1 {
        assert FollowsAt(run, i);
      } else {
        assert Follows(Last(run), Apply(Last(run), step));
      }
    }
  }

  /** Continuing a run gives a run. */
  lemma {:induction false} RunContinues(run: seq<State>, n: nat, steps: seq<Step>)
    requires IsRun(run, n) && CanDo(Last(run), steps)
    ensures IsRun(run + Trace(Last(run), steps), n) && Last(run + Trace(Last(run), steps)) == Do(Last(run), steps)
    decreases |steps|
  {
    hide Apply, Enabled, Shape;
    if steps == [] {
      assert run + [] == run;
    } else {
      var s1 := Apply(Last(run), steps[0]);
      RunStep(run, n, steps[0]);
      RunContinues(run + [s1], n, steps[1..]);
      assert run + ([s1] + Trace(s1, steps[1..])) == (run + [s1]) + Trace(s1, steps[1..]);
    }
  }

  lemma {:induction false} DoConcat(s: State, a: seq<Step>, b: seq<Step>)
    requires CanDo(s, a) && CanDo(Do(s, a), b)
    ensures CanDo(s, a + b) && Do(s, a + b) == Do(Do(s, a), b)
    decreases |a|
  {
    hide Apply, Enabled, Shape;
    if a == [] {
      assert a + b == b;
    } else {
      DoConcat(Apply(s, a[0]), a[1..], b);
      assert (a + b)[0] == a[0] && (a + b)[1..] == a[1..] + b;
    }
  }

  // ---------------------------------------------------------------- the scan of the counters

  /** The old index has no outstanding block. */
  predicate OldIsFree(s: State) {
    forall id :: id in s.blocks ==> s.blocks[id].ix == s.blockIx
  }

  lemma FreeMeansOne(s: State, t: nat)
    requires Inv(s) && OldIsFree(s) && t < s.n
    ensures s.counter[Old(s)][t] == if Lent(s) == Some(t) then 0 else 1
  {
    assert CounterExact(s, Old(s), t);
    assert Held(s, Old(s), t) == {};
  }

  /** The area that awaits release is the first one that has not been released. */
  lemma NextToRelease(s: State)
    requires Inv(s) && s.blockState != NotBlocked
    ensures s.blockArea.Some? && |s.released| < |s.enqueued|
    ensures s.released + s.blockArea.ToSeq() == s.enqueued[..|s.released| + 1]
  {
    hide Shape, CountersExact, ViewsCurrent, OldDrained, StampsCurrent, StampsBounded, WakeUpSent, AreaSeen;
    assert Pipeline(s)[..|s.released| + 1] == s.released + s.blockArea.ToSeq();
  }

  /** The scan from scheduler `six` on. */
  lemma {:induction false} ScanFrom(s: State) returns (steps: seq<Step>)
    requires Inv(s) && s.pc.Check? && OldIsFree(s)
    ensures CanDo(s, steps) && |steps| == s.n - s.pc.six + 1 && forall i :: 0 <= i < |steps| ==> steps[i] == Collect
    ensures Do(s, steps).released == s.released + s.blockArea.ToSeq() && Do(s, steps).enqueued == s.enqueued
    decreases s.n - s.pc.six
  {
    var s1 := Apply(s, Collect);
    CollectKeeps(s);
    hide Inv, Shape, Apply;
    if s.pc.six == s.n {
      steps := [Collect];
      assert CanDo(s1, steps[1..]);
    } else {
      FreeMeansOne(s, s.pc.six);
      var rest := ScanFrom(s1);
      steps := [Collect] + rest;
      assert steps[1..] == rest;
    }
  }

  /**
   When the collector comes back to the counters, or is in the middle of them, and no block is left
   on the old index, then its own steps release exactly the next area, and not more of them than
   there are counters and one to begin and one to end.
   */
  lemma ScanReleases(run: seq<State>, n: nat) returns (steps: seq<Step>)
    requires IsRun(run, n) && Last(run).blockState != NotBlocked && OldIsFree(Last(run))
    requires Last(run).pc.Top? || Last(run).pc.Check?
    ensures |steps| <= n + 2 && forall i :: 0 <= i < |steps| ==> steps[i] == Collect
    ensures CanDo(Last(run), steps) && IsRun(run + Trace(Last(run), steps), n)
    ensures
      var s, s1 := Last(run), Last(run + Trace(Last(run), steps));
      s1.enqueued == s.enqueued && |s.released| < |s.enqueued| && s1.released == s.enqueued[..|s.released| + 1]
  {
    hide Follows, Inv, OldIsFree, CanDo, Do, Trace;
    LastKeepsInv(run, n);
    NextToRelease(Last(run));
    steps := ScanAll(Last(run));
    RunContinues(run, n, steps);
  }

  lemma ScanAll(s: State) returns (steps: seq<Step>)
    requires Inv(s) && (s.pc.Top? || s.pc.Check?) && s.blockState != NotBlocked && OldIsFree(s)
    ensures CanDo(s, steps) && |steps| <= s.n + 2 && forall i :: 0 <= i < |steps| ==> steps[i] == Collect
    ensures Do(s, steps).released == s.released + s.blockArea.ToSeq() && Do(s, steps).enqueued == s.enqueued
  {
    if s.pc.Top? {
      CollectKeeps(s);
      ScanBegins(s);
      hide Apply, Shape;
      var rest := ScanFrom(Apply(s, Collect));
      steps := [Collect] + rest;
      assert steps[1..] == rest;
    } else {
      steps := ScanFrom(s);
    }
  }

  lemma ScanBegins(s: State)
    requires Inv(s) && s.pc.Top? && s.blockState != NotBlocked
    ensures
      var s1 := Apply(s, Collect);
      && s1.pc.Check? && s1.n == s.n && s1.blocks == s.blocks && s1.blockIx == s.blockIx
      && s1.released == s.released && s1.enqueued == s.enqueued && s1.blockArea == s.blockArea
  {
  }

  // ---------------------------------------------------------------- what is left to do

  /** No block is outstanding or about to be taken. */
  predicate NoBlocks(s: State)
    requires Shape(s)
  {
    s.blocks == map[] && forall t: nat :: t < s.n ==> s.midBlock[t].None?
  }

  function Present(area: Option<Area>): nat {
    if area.Some? then 1 else 0
  }

  /** How far the areas that are not released are from it, all together. */
  function Weight(s: State): nat {
    4 * |s.queue| + (if s.pc.Popped? || s.pc.WaitPopped? then 3 * Present(s.pc.ref) else 0)
    + 2 * Present(s.copyArea) + Present(if s.pc.Published? then s.pc.prev else s.blockArea)
  }

  /** How far the collector is from bringing one of them nearer. */
  function Rank(s: State): int {
    match s.pc
    case Popped(prev, ref) => if prev.None? && ref.None? then 4 * s.n + 8 else 0
    case Published(_) => 4 * s.n + 7
    case WaitSetup(_) => 4 * s.n + 6
    case WaitPopped(_) => 4 * s.n + 5
    case Schedule(_) => 4 * s.n + 4
    case Suspended(missing, _) => 3 * s.n + 3 + |missing|
    case Parked => 3 * s.n + 2
    case Idle => 3 * s.n + 2
    case Top => 3 * s.n + 1
    case Check(six) => 3 * (s.n - six)
    case Decrement(six) => 3 * (s.n - six) - 1
    case Restore(six) => 3 * (s.n - six) - 2
  }

  function Variant(s: State): int {
    Weight(s) * (4 * s.n + 9) + Rank(s)
  }

  /** Steps that move the release on: the collector's own, and the thread progress it waits for. */
  predicate Drives(s: State, step: Step) {
    || step.Collect? || step.Call?
    || (step.Progress? && s.pc.Suspended? && step.sched in s.pc.missing)
  }

  /** Steps other than taking a block and handing in a new area. */
  predicate TakesNothing(step: Step) {
    !step.ReadIx? && !step.Enqueue?
  }

  lemma WeightBounds(s: State)
    requires Inv(s)
    ensures |s.enqueued| - |s.released| <= Weight(s) <= 4 * (|s.enqueued| - |s.released|)
    ensures Weight(s) == 0 <==> s.released == s.enqueued
  {
    hide Shape, CountersExact, ViewsCurrent, OldDrained, StampsCurrent, StampsBounded, WakeUpSent, AreaSeen;
    assert |Pipeline(s)| == |s.enqueued| && Pipeline(s)[..|s.released|] == s.released;
    if |s.enqueued| == |s.released| {
      assert Pipeline(s) == s.released;
    }
  }

  lemma {:induction false} Among(n: nat, r: set<nat>)
    requires forall t :: t in r ==> t < n
    ensures |r| <= n
  {
    if n > 0 {
      Among(n - 1, r - {n - 1});
    } else {
      assert r == {};
    }
  }

  lemma RankBounds(s: State)
    requires Shape(s)
    ensures 0 <= Rank(s) < 4 * s.n + 9
  {
    if s.pc.Suspended? {
      Among(s.n, s.pc.missing);
    }
  }

  /** Nearer to the release of everything, with no block taken and no area handed in. */
  ghost predicate Nearer(s: State, s1: State)
    requires Shape(s)
  {
    && Shape(s1) && NoBlocks(s1) && s1.n == s.n && s1.enqueued == s.enqueued
    && (Weight(s1) < Weight(s) || (Weight(s1) == Weight(s) && Rank(s1) < Rank(s)))
  }

  lemma NoneMeansFree(s: State)
    requires Inv(s) && NoBlocks(s)
    ensures OldIsFree(s)
    ensures s.pc.Check? && s.pc.six < s.n ==> s.counter[Old(s)][s.pc.six] == 1
    ensures s.pc.Decrement? ==> s.counter[Old(s)][s.pc.six] == 1
    ensures s.blockState == Waiting && s.pc.Parked? ==> s.mail > 0
  {
    hide ViewsCurrent, OldDrained, StampsCurrent, StampsBounded, AreaSeen;
    if s.pc.Check? && s.pc.six < s.n {
      FreeMeansOne(s, s.pc.six);
    } else if s.pc.Decrement? {
      FreeMeansOne(s, s.pc.six);
    } else if s.blockState == Waiting && s.pc.Parked? {
      FreeMeansOne(s, s.waitSchedIx);
    }
  }

  lemma OneMore(r: set<nat>, t: nat)
    requires t !in r
    ensures |r + {t}| == |r| + 1
  {
  }

  lemma {:induction false} SchedulersCount(n: nat)
    ensures |Schedulers(n)| == n
  {
    if n > 0 {
      SchedulersCount(n - 1);
      OneMore(Schedulers(n - 1), n - 1);
    }
  }

  lemma TopNearer(s: State)
    requires Inv(s) && NoBlocks(s) && s.pc.Top? && Weight(s) > 0 && Shape(DoCollect(s))
    ensures Nearer(s, DoCollect(s))
  {
  }

  lemma PublishNearer(s: State)
    requires Inv(s) && NoBlocks(s) && (s.pc.Popped? || s.pc.Published? || s.pc.Schedule?) && Shape(DoCollect(s))
    ensures Nearer(s, DoCollect(s))
  {
    SchedulersCount(s.n);
  }

  lemma ScanNearer(s: State)
    requires Inv(s) && NoBlocks(s) && (s.pc.Check? || s.pc.Decrement? || s.pc.Restore?) && Shape(DoCollect(s))
    ensures Nearer(s, DoCollect(s))
  {
    NoneMeansFree(s);
  }

  lemma WaitNearer(s: State)
    requires Inv(s) && NoBlocks(s) && (s.pc.WaitSetup? || s.pc.WaitPopped?) && Shape(DoCollect(s))
    ensures Nearer(s, DoCollect(s))
  {
  }

  lemma CollectNearer(s: State)
    requires Inv(s) && NoBlocks(s) && Enabled(s, Collect) && Weight(s) > 0
    ensures Nearer(s, DoCollect(s))
  {
    CollectKeeps(s);
    hide Inv, Nearer, DoCollect, NoBlocks, Shape;
    match s.pc
    case Top => TopNearer(s);
    case Popped(_, _) => PublishNearer(s);
    case Published(_) => PublishNearer(s);
    case Schedule(_) => PublishNearer(s);
    case WaitSetup(_) => WaitNearer(s);
    case WaitPopped(_) => WaitNearer(s);
    case _ => ScanNearer(s);
  }

  lemma CallNearer(s: State)
    requires Inv(s) && NoBlocks(s) && Enabled(s, Call)
    ensures Nearer(s, DoCall(s))
  {
    RankBounds(s);
  }

  lemma ProgressNearer(s: State, t: nat)
    requires Inv(s) && NoBlocks(s) && Enabled(s, Progress(t)) && Drives(s, Progress(t))
    ensures Nearer(s, DoProgress(s, t))
  {
    var missing := s.pc.missing;
    assert |missing - {t}| == |missing| - 1;
  }

  lemma NearerVariant(s: State, s1: State)
    requires Shape(s) && Nearer(s, s1)
    ensures Variant(s1) < Variant(s)
  {
    hide Shape, Weight, Rank, NoBlocks;
    RankBounds(s);
    RankBounds(s1);
    Lexicographic(Weight(s), Rank(s), Weight(s1), Rank(s1), 4 * s.n + 9);
  }

  lemma Lexicographic(w: int, r: int, w1: int, r1: int, m: nat)
    requires 0 <= r < m && 0 <= r1 < m && (w1 < w || (w1 == w && r1 < r))
    ensures w1 * m + r1 < w * m + r
  {
    if w1 < w {
      Apart(w, w1, m);
    }
  }

  lemma Apart(w: int, w1: int, m: nat)
    requires w1 < w
    ensures w1 * m + m <= w * m
  {
    var d := w - w1 - 1;
    assert w * m == w1 * m + m + d * m;
  }

  /** A driving step. */
  lemma DrivingNearer(s: State, step: Step)
    requires Inv(s) && NoBlocks(s) && Enabled(s, step) && Drives(s, step) && s.released != s.enqueued
    ensures Nearer(s, Apply(s, step)) && Variant(Apply(s, step)) < Variant(s)
  {
    WeightBounds(s);
    match step {
      case Collect => CollectNearer(s);
      case Call => CallNearer(s);
      case Progress(t) => ProgressNearer(s, t);
    }
    NearerVariant(s, Apply(s, step));
  }

  lemma SameVariant(s: State, s1: State)
    requires s1.n == s.n && s1.queue == s.queue && s1.copyArea == s.copyArea && s1.blockArea == s.blockArea
    requires s1.pc == s.pc
    ensures Variant(s1) == Variant(s)
  {
  }

  lemma OtherFrame(s: State, step: Step)
    requires Inv(s) && NoBlocks(s) && Enabled(s, step) && !Drives(s, step) && TakesNothing(step)
    ensures
      var s1 := Apply(s, step);
      && s1.n == s.n && s1.queue == s.queue && s1.copyArea == s.copyArea && s1.blockArea == s.blockArea
      && s1.pc == s.pc && s1.blocks == s.blocks && s1.midBlock == s.midBlock
      && s1.enqueued == s.enqueued && s1.released == s.released
  {
    if step.Progress? && s.pc.Suspended? {
      assert s.pc.missing - {step.sched} == s.pc.missing;
    }
  }

  /** Any other step neither helps nor hurts. */
  lemma OtherStep(s: State, step: Step)
    requires Inv(s) && NoBlocks(s) && Enabled(s, step) && !Drives(s, step) && TakesNothing(step)
    ensures
      var s1 := Apply(s, step);
      && Shape(s1) && NoBlocks(s1) && s1.n == s.n && s1.enqueued == s.enqueued && s1.released == s.released
      && Variant(s1) == Variant(s)
  {
    OtherFrame(s, step);
    StepKeeps(s, step);
    hide Apply, Inv, Variant;
    SameVariant(s, Apply(s, step));
  }

  // ---------------------------------------------------------------- every area is released

  /** How many of the steps drive. */
  ghost function DrivingSteps(s: State, steps: seq<Step>): nat
    requires CanDo(s, steps)
    decreases |steps|
  {
    if steps == [] then 0
    else (if Drives(s, steps[0]) then 1 else 0) + DrivingSteps(Apply(s, steps[0]), steps[1..])
  }

  /** What is released stays so, and with nothing handed in there is never more to release. */
  lemma AllStaysReleased(s: State, step: Step)
    requires Inv(s) && NoBlocks(s) && Enabled(s, step) && TakesNothing(step)
    ensures Shape(Apply(s, step)) && NoBlocks(Apply(s, step)) && Apply(s, step).n == s.n
    ensures Apply(s, step).enqueued == s.enqueued
    ensures s.released == s.enqueued ==> Apply(s, step).released == s.enqueued
  {
    StepKeeps(s, step);
    WeightBounds(s);
    WeightBounds(Apply(s, step));
    if !Drives(s, step) {
      OtherStep(s, step);
    } else {
      DrivingTakesNothing(s, step);
      NothingNewToRelease(s, step);
    }
  }

  lemma DrivingTakesNothing(s: State, step: Step)
    requires Inv(s) && NoBlocks(s) && Enabled(s, step) && Drives(s, step) && Shape(Apply(s, step))
    ensures NoBlocks(Apply(s, step)) && Apply(s, step).n == s.n && Apply(s, step).enqueued == s.enqueued
  {
  }

  lemma NothingNewToRelease(s: State, step: Step)
    requires Inv(s) && Enabled(s, step) && Inv(Apply(s, step)) && Apply(s, step).enqueued == s.enqueued
    ensures s.released == s.enqueued ==> Apply(s, step).released == s.enqueued
  {
    StepAreaFrom(s, step);
    WeightBounds(s);
    WeightBounds(Apply(s, step));
  }

  lemma {:induction false} DrivingIsBounded(s: State, steps: seq<Step>)
    requires Inv(s) && NoBlocks(s) && CanDo(s, steps) && forall i :: 0 <= i < |steps| ==> TakesNothing(steps[i])
    ensures Inv(Do(s, steps)) && Do(s, steps).enqueued == s.enqueued && Do(s, steps).n == s.n
    ensures s.released == s.enqueued ==> Do(s, steps).released == s.enqueued
    ensures Do(s, steps).released != s.enqueued ==> DrivingSteps(s, steps) + Variant(Do(s, steps)) <= Variant(s)
    decreases |steps|
  {
    hide Inv, NoBlocks, Shape, Enabled, Apply, Drives, Variant, TakesNothing;
    if steps != [] {
      var step := steps[0];
      StepKeeps(s, step);
      AllStaysReleased(s, step);
      if s.released != s.enqueued {
        if Drives(s, step) {
          DrivingNearer(s, step);
        } else {
          OtherStep(s, step);
        }
      }
      DrivingIsBounded(Apply(s, step), steps[1..]);
    }
  }

  /** The most driving steps that can be needed to release `areas` areas with `n` schedulers. */
  function Bound(areas: nat, n: nat): nat {
    (4 * areas + 1) * (4 * n + 9)
  }

  lemma VariantBound(s: State)
    requires Inv(s)
    ensures |s.released| <= |s.enqueued| && 0 <= Variant(s) < Bound(|s.enqueued| - |s.released|, s.n)
  {
    WeightBounds(s);
    RankBounds(s);
    Product(Weight(s), 4 * (|s.enqueued| - |s.released|), Rank(s), 4 * s.n + 9);
  }

  lemma Product(w: nat, w1: nat, r: nat, m: nat)
    requires w <= w1 && r < m
    ensures 0 <= w * m + r < (w1 + 1) * m
  {
    assert w * m <= w1 * m;
  }

  /**
   However the steps of schedulers and collector interleave: once all blocks have been given up, and
   while none is taken and no area is handed in, all areas are released after a bounded number of
   steps of the collector and of the thread progress that it waits for.
   */
  lemma EverythingIsReleased(run: seq<State>, n: nat, steps: seq<Step>)
    requires IsRun(run, n) && Shape(Last(run)) && NoBlocks(Last(run)) && CanDo(Last(run), steps)
    requires forall i :: 0 <= i < |steps| ==> TakesNothing(steps[i])
    ensures |Last(run).released| <= |Last(run).enqueued|
    ensures DrivingSteps(Last(run), steps) >= Bound(|Last(run).enqueued| - |Last(run).released|, n) ==>
      Do(Last(run), steps).released == Last(run).enqueued
  {
    hide Bound, Follows, CanDo, Do, DrivingSteps, Inv, NoBlocks, Variant;
    LastKeepsInv(run, n);
    DrivingIsBounded(Last(run), steps);
    VariantBound(Last(run));
    VariantBound(Do(Last(run), steps));
  }

  /** Until then there is always such a step to do: the collector is never stuck. */
  lemma SomethingDrives(run: seq<State>, n: nat) returns (step: Step)
    requires IsRun(run, n) && Shape(Last(run)) && NoBlocks(Last(run)) && Last(run).released != Last(run).enqueued
    ensures Enabled(Last(run), step) && Drives(Last(run), step) && TakesNothing(step)
  {
    LastKeepsInv(run, n);
    step := NextDriving(Last(run));
  }

  lemma NextDriving(s: State) returns (step: Step)
    requires Inv(s) && NoBlocks(s)
    ensures Enabled(s, step) && Drives(s, step) && TakesNothing(step)
  {
    NoneMeansFree(s);
    if s.pc.Suspended? && s.pc.missing != {} {
      var t :| t in s.pc.missing;
      step := Progress(t);
    } else if s.pc.Idle? || s.pc.Parked? || s.pc.Suspended? {
      step := Call;
    } else {
      step := Collect;
    }
  }

  lemma {:induction false} DriveOn(s: State) returns (steps: seq<Step>)
    requires Inv(s) && NoBlocks(s)
    ensures CanDo(s, steps) && forall i :: 0 <= i < |steps| ==> TakesNothing(steps[i])
    ensures Do(s, steps).released == s.enqueued && Do(s, steps).enqueued == s.enqueued
    decreases Variant(s)
  {
    hide NoBlocks, Shape, Enabled, Apply, Drives, Variant, TakesNothing;
    if s.released == s.enqueued {
      steps := [];
    } else {
      var step := NextDriving(s);
      DrivingNearer(s, step);
      StepKeeps(s, step);
      VariantBound(s);
      VariantBound(Apply(s, step));
      var rest := DriveOn(Apply(s, step));
      steps := [step] + rest;
      assert steps[1..] == rest;
    }
  }

  /** Schedulers that have read the block index and not incremented yet. */
  function Mid(s: State): set<nat>
    requires Shape(s)
  {
    set t | 0 <= t < s.n && s.midBlock[t].Some?
  }

  lemma IncrementGivesUp(s: State, t: nat)
    requires Inv(s) && t in Mid(s)
    ensures Shape(s) && Enabled(s, Increment(t))
    ensures var s1 := Apply(s, Increment(t));
      && Inv(s1) && Shape(s1) && s1.enqueued == s.enqueued && |Mid(s1)| == |Mid(s)| - 1
  {
    IncrementKeeps(s, t);
    assert Mid(Apply(s, Increment(t))) == Mid(s) - {t};
  }

  lemma UnblockGivesUp(s: State, id: nat)
    requires Inv(s) && id in s.blocks
    ensures Shape(s) && Enabled(s, Unblock(id))
    ensures var s1 := Apply(s, Unblock(id));
      && Inv(s1) && Shape(s1) && s1.enqueued == s.enqueued && Mid(s1) == Mid(s) && |s1.blocks| == |s.blocks| - 1
  {
    UnblockKeeps(s, id);
    UnblockFrame(s, id);
    assert (s.blocks - {id}).Keys == s.blocks.Keys - {id};
  }

  /** All blocks can be given up. */
  lemma {:induction false} GiveUp(s: State) returns (steps: seq<Step>)
    requires Inv(s) && Shape(s)
    ensures CanDo(s, steps) && forall i :: 0 <= i < |steps| ==> TakesNothing(steps[i])
    ensures Inv(Do(s, steps)) && NoBlocks(Do(s, steps)) && Do(s, steps).enqueued == s.enqueued
    decreases |Mid(s)|, |s.blocks|
  {
    hide Inv, Shape, Apply, NoBlocks;
    if t :| t in Mid(s) {
      IncrementGivesUp(s, t);
      var rest := GiveUp(Apply(s, Increment(t)));
      steps := [Increment(t)] + rest;
      assert steps[1..] == rest;
    } else if id :| id in s.blocks {
      UnblockGivesUp(s, id);
      var rest := GiveUp(Apply(s, Unblock(id)));
      steps := [Unblock(id)] + rest;
      assert steps[1..] == rest;
    } else {
      NoneLeft(s);
      steps := [];
    }
  }

  lemma NoneLeft(s: State)
    requires Shape(s) && Mid(s) == {} && forall id :: id !in s.blocks
    ensures NoBlocks(s)
  {
    forall t: nat | t < s.n
      ensures s.midBlock[t].None?
    {
      assert t !in Mid(s);
    }
    assert s.blocks == map[];
  }

  /** Every run can be continued, with no new block and no new area, until all areas are released. */
  lemma EveryRunCanRelease(run: seq<State>, n: nat) returns (steps: seq<Step>)
    requires IsRun(run, n)
    ensures CanDo(Last(run), steps) && IsRun(run + Trace(Last(run), steps), n)
    ensures forall i :: 0 <= i < |steps| ==> TakesNothing(steps[i])
    ensures
      var s1 := Last(run + Trace(Last(run), steps));
      s1.released == s1.enqueued == Last(run).enqueued
  {
    LastKeepsInv(run, n);
    steps := GiveUpAndDrive(Last(run));
    RunContinues(run, n, steps);
  }

  lemma GiveUpAndDrive(s: State) returns (steps: seq<Step>)
    requires Inv(s)
    ensures CanDo(s, steps) && forall i :: 0 <= i < |steps| ==> TakesNothing(steps[i])
    ensures Do(s, steps).released == s.enqueued && Do(s, steps).enqueued == s.enqueued
  {
    hide NoBlocks, CanDo, Do, TakesNothing;
    var first := GiveUp(s);
    var rest := DriveOn(Do(s, first));
    steps := first + rest;
    DoConcat(s, first, rest);
  }

  /** A scheduler can take a block at any time, on the index that it sees, and give it back with its word. */
  lemma BlockCanBeTaken(run: seq<State>, n: nat, t: nat)
    requires IsRun(run, n) && t < n && Shape(Last(run)) && Last(run).n == n && Last(run).midBlock[t].None?
    ensures CanDo(Last(run), [ReadIx(t), Increment(t)])
    ensures
      var s, s1 := Last(run), Do(Last(run), [ReadIx(t), Increment(t)]);
      && Shape(s1) && s.nextId !in s.blocks && s1.blocks == s.blocks[s.nextId := Block(s.seenIx[t], t, s.switches)]
      && Enabled(s1, Unblock(s.nextId)) && Apply(s1, Unblock(s.nextId)).blocks == s.blocks
  {
    hide Inv, Shape, Follows;
    LastKeepsInv(run, n);
    BlockTaken(Last(run), t);
    TwoSteps(Last(run), ReadIx(t), Increment(t));
  }

  lemma BlockTaken(s: State, t: nat)
    requires Inv(s) && t < s.n && s.midBlock[t].None?
    ensures Shape(Apply(s, ReadIx(t))) && Enabled(Apply(s, ReadIx(t)), Increment(t))
    ensures
      var s1 := Apply(Apply(s, ReadIx(t)), Increment(t));
      && Shape(s1) && s.nextId !in s.blocks && s1.blocks == s.blocks[s.nextId := Block(s.seenIx[t], t, s.switches)]
      && Enabled(s1, Unblock(s.nextId)) && Apply(s1, Unblock(s.nextId)).blocks == s.blocks
  {
    var a := Apply(s, ReadIx(t));
    StepKeeps(s, ReadIx(t));
    StepKeeps(a, Increment(t));
    var b := Apply(a, Increment(t));
    UnblockFrame(b, s.nextId);
    assert b.blocks - {s.nextId} == s.blocks;
  }

  lemma TwoSteps(s: State, step: Step, step1: Step)
    requires Shape(s) && Enabled(s, step) && Shape(Apply(s, step)) && Enabled(Apply(s, step), step1)
    requires Shape(Apply(Apply(s, step), step1))
    ensures CanDo(s, [step, step1]) && Do(s, [step, step1]) == Apply(Apply(s, step), step1)
  {
    hide Apply, Enabled, Shape;
    var steps, s1 := [step, step1], Apply(s, step);
    assert steps[1..] == [step1] && [step1][1..] == [];
    assert CanDo(Apply(s1, step1), []) && Do(Apply(s1, step1), []) == Apply(s1, step1);
    assert CanDo(s1, [step1]) && Do(s1, [step1]) == Apply(s1, step1);
  }

  /**
   Giving up a block sends a wake-up message exactly if it was the last one on the counter that the
   collector waits for, or is about to wait for.
   */
  lemma WakeUpExactly(run: seq<State>, n: nat, id: nat)
    requires IsRun(run, n) && Shape(Last(run)) && id in Last(run).blocks
    ensures
      var s := Last(run);
      var b := s.blocks[id];
      Apply(s, Unblock(id)).mail == s.mail +
        if b.ix == Old(s) && Lent(s) == Some(b.sched) && Held(s, b.ix, b.sched) == {id} then 1 else 0
  {
    var s := Last(run);
    var b := s.blocks[id];
    LastKeepsInv(run, n);
    WordRoundTrip(b.ix, b.sched);
    assert CounterExact(s, b.ix, b.sched);
    OnlyOne(Held(s, b.ix, b.sched), id);
    hide Inv, Held, Encode, DecodeIx, DecodeSched, Lent;
  }

  lemma OnlyOne(a: set<nat>, id: nat)
    requires id in a
    ensures |a| >= 1 && (|a| == 1 <==> a == {id})
  {
    if |a| == 1 {
      assert |a - {id}| == 0;
      assert a == {id};
    }
  }
}
