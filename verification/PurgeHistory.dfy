/**
 The purge of old code, told from what has happened: which module is being purged, who is suspended,
 when code can be staged, and that a purge can always be brought to its end.
 */
module PurgeHistory {
  import opened Wrappers
  import opened Purge

  ghost predicate TakenAt(run: seq<State>, steps: seq<Step>, i: int)
    requires 0 <= i < |run| - 1 == |steps|
  {
    Enabled(run[i], steps[i]) && run[i + 1] == Apply(run[i], steps[i])
  }

  /** A run together with the steps that were taken. */
  ghost predicate IsRunBy(run: seq<State>, steps: seq<Step>) {
    |run| == |steps| + 1 && run[0] == INIT && forall i :: 0 <= i < |run| - 1 ==> TakenAt(run, steps, i)
  }

  lemma RunOf(run: seq<State>, steps: seq<Step>)
    requires IsRunBy(run, steps)
    ensures IsRun(run)
  {
    hide Enabled, Apply;
    forall i | 0 <= i < |run| - 1
      ensures FollowsAt(run, i)
    {
      assert TakenAt(run, steps, i);
    }
  }

  // ---------------------------------------------------------------- the module

  /** The module for which a purge was last asked. */
  function Asked(steps: seq<Step>): Option<Mod> {
    if steps == [] then None
    else
      var last := steps[|steps| - 1];
      if last.PrepareSeize? then Some(last.m) else Asked(steps[..|steps| - 1])
  }

  /** The module being purged: the one asked for, from when its old code was found until the finalization. */
  function Purging(steps: seq<Step>): Option<Mod> {
    if steps == [] then None
    else
      var rest, last := steps[..|steps| - 1], steps[|steps| - 1];
      if last.PrepareMark? then Asked(rest) else if last.FinalizeLocked? then None else Purging(rest)
  }

  lemma ModuleAfter(s: State, e: Step)
    requires Enabled(s, e)
    ensures e.PrepareMark? ==> s.pc.Seized? && Apply(s, e).module_ == Some(s.pc.m)
    ensures e.FinalizeLocked? ==> Apply(s, e).module_ == None
    ensures !e.PrepareMark? && !e.FinalizeLocked? ==> Apply(s, e).module_ == s.module_
    ensures Apply(s, e).pc.Seized? ==> if e.PrepareSeize? then Apply(s, e).pc.m == e.m else Apply(s, e).pc == s.pc
  {
  }

  lemma {:induction false} ModuleBeingPurged(run: seq<State>, steps: seq<Step>, k: nat)
    requires IsRunBy(run, steps) && k < |run|
    ensures run[k].module_ == Purging(steps[..k])
    ensures run[k].pc.Seized? ==> Asked(steps[..k]) == Some(run[k].pc.m)
  {
    hide Apply, Enabled;
    if k > 0 {
      ModuleBeingPurged(run, steps, k - 1);
      assert TakenAt(run, steps, k - 1);
      ModuleAfter(run[k - 1], steps[k - 1]);
      assert steps[..k][..k - 1] == steps[..k - 1] && steps[..k][k - 1] == steps[k - 1];
    }
  }

  // ---------------------------------------------------------------- the suspended processes

  /** Step `i` is a call, by process `p`, of a fun in the module that is being purged at that time. */
  predicate CalledIn(steps: seq<Step>, i: int, p: Pid)
    requires 0 <= i < |steps|
  {
    steps[i].CallFun? && steps[i].p == p && Purging(steps[..i]) == Some(steps[i].m)
  }

  /** Step `j` ends the suspension of process `p`. */
  predicate EndsFor(steps: seq<Step>, j: int, p: Pid)
    requires 0 <= j < |steps|
  {
    steps[j].FinalizeLocked? || steps[j] == Exit(p)
  }

  /** Process `p` has made such a call and nothing has ended its suspension since. */
  ghost predicate MustWait(steps: seq<Step>, k: nat, p: Pid)
    requires k <= |steps|
  {
    exists i :: 0 <= i < k && CalledIn(steps, i, p) && forall j :: i < j < k ==> !EndsFor(steps, j, p)
  }

  lemma MustWaitStep(steps: seq<Step>, k: nat, p: Pid)
    requires k < |steps|
    ensures MustWait(steps, k + 1, p) <==> CalledIn(steps, k, p) || (MustWait(steps, k, p) && !EndsFor(steps, k, p))
  {
    if MustWait(steps, k, p) && !EndsFor(steps, k, p) {
      var i :| 0 <= i < k && CalledIn(steps, i, p) && forall j :: i < j < k ==> !EndsFor(steps, j, p);
      assert CalledIn(steps, i, p) && forall j :: i < j < k + 1 ==> !EndsFor(steps, j, p);
    }
    if MustWait(steps, k + 1, p) && !CalledIn(steps, k, p) {
      var i :| 0 <= i < k + 1 && CalledIn(steps, i, p) && forall j :: i < j < k + 1 ==> !EndsFor(steps, j, p);
      assert i < k && CalledIn(steps, i, p);
    }
  }

  lemma SuspendedStep(s: State, e: Step, p: Pid)
    requires ProcessesOk(s) && ModuleOk(s) && Enabled(s, e)
    ensures p in Apply(s, e).suspended <==>
      || (e.CallFun? && e.p == p && s.module_ == Some(e.m))
      || (p in s.suspended && !e.FinalizeLocked? && e != Exit(p))
  {
    hide Members, Resumed, Distinct, ProcessesOk, ModuleOk;
    if e.FinalizeLocked? {
      AllResumed(s);
    }
  }

  lemma AllResumed(s: State)
    requires ProcessesOk(s) && s.pc.Finalizing?
    ensures s.suspended - Members(s.sprocs) == {}
  {
  }

  /**
   A process is suspended exactly if it has called a fun of the module that was being purged, and
   since then the purge has not been finalized and the process has not exited.
   */
  lemma {:induction false} SuspendedExactly(run: seq<State>, steps: seq<Step>, k: nat, p: Pid)
    requires IsRunBy(run, steps) && k < |run|
    ensures p in run[k].suspended <==>
      exists i :: 0 <= i < k && CalledIn(steps, i, p) && forall j :: i < j < k ==> !EndsFor(steps, j, p)
  {
    assert p in run[k].suspended <==> MustWait(steps, k, p) by {
      hide Apply, Enabled, CalledIn, EndsFor, ProcessesOk, ModuleOk, Inv;
      if k > 0 {
        SuspendedExactly(run, steps, k - 1, p);
        SuspendedAfter(run, steps, k - 1, p);
      }
    }
  }

  lemma SuspendedAfter(run: seq<State>, steps: seq<Step>, k: nat, p: Pid)
    requires IsRunBy(run, steps) && k < |steps| && (p in run[k].suspended <==> MustWait(steps, k, p))
    ensures p in run[k + 1].suspended <==> MustWait(steps, k + 1, p)
  {
    hide Apply, Enabled, ProcessesOk, ModuleOk, PermissionOk, MustWait;
    RunOf(run, steps);
    RunsKeepInv(run, k);
    assert TakenAt(run, steps, k);
    SuspendedStep(run[k], steps[k], p);
    ModuleBeingPurged(run, steps, k);
    MustWaitStep(steps, k, p);
  }

  // ---------------------------------------------------------------- staging of code

  /** The funs of the module have, or are about to have, their markers. */
  predicate FunsPending(s: State) {
    s.feCount > 0 && s.module_.Some? && !s.pc.Finalizing?
  }

  /**
   While funs are marked nobody else can stage code, and once the purger has found that there are
   none, it does not keep others from it; provided no purge call was refused meanwhile.
   */
  lemma NoStagingWhileFunsPending(run: seq<State>, k: nat)
    requires IsRun(run) && k < |run| && run[k].allBadCalls == 0
    ensures FunsPending(run[k]) ==> run[k].stage == Purger && !Enabled(run[k], LoaderSeize)
    ensures run[k].feCount == 0 && (run[k].pc.Idle? || run[k].pc.Sleeping? || run[k].pc.Completing?) ==>
      run[k].stage != Purger
  {
    RunsKeepInv(run, k);
  }

  // ---------------------------------------------------------------- a purge can be ended

  /** How far the purger is from having nothing to do. */
  function Left(s: State): nat {
    match s.pc
    case Marked => 9
    case Counted => 8
    case Sleeping => 7
    case Idle => if s.module_.Some? then 6 else 0
    case Completing => 5
    case Releasing => 4
    case Aborting => 4
    case Finalizing => 3
    case Resetting => 2
    case Seized(_) => 1
  }

  /** The purger's next step towards the end. */
  function NextStep(s: State): Step {
    match s.pc
    case Marked => PrepareFuns(0)
    case Counted => PrepareSleep
    case Sleeping => WakeUp
    case Idle => if s.module_.Some? then Complete(s.module_.value) else BadCall
    case Completing => CompleteUnlock
    case Releasing => CompleteRelease
    case Aborting => AbortProgress
    case Finalizing => FinalizeLocked
    case Resetting => FinalizeReset
    case Seized(_) => PrepareNothing
  }

  lemma NextStepHelps(s: State)
    requires ModuleOk(s) && !Quiet(s)
    ensures Enabled(s, NextStep(s)) && !NextStep(s).BadCall? && Left(Apply(s, NextStep(s))) < Left(s)
  {
  }

  /**
   From every state of every run, at most nine steps of the purger alone end the purge; nobody is
   suspended then, and everybody who was has been resumed or is dead.
   */
  lemma {:induction false} PurgeCanEnd(run: seq<State>) returns (longer: seq<State>)
    requires IsRun(run)
    ensures IsRun(longer) && run <= longer && |longer| <= |run| + Left(run[|run| - 1])
    ensures
      var s := longer[|longer| - 1];
      && Quiet(s) && s.suspended == {} && s.suspensions == s.resumptions + s.deaths
      && s.allBadCalls == run[|run| - 1].allBadCalls && s.dead == run[|run| - 1].dead
    decreases Left(run[|run| - 1])
  {
    var s := run[|run| - 1];
    if Quiet(s) {
      longer := run;
      ResumedExactlyOnce(run, |run| - 1);
    } else {
      LastModuleOk(run);
      NextStepHelps(s);
      StepSame(s);
      hide IsRun, Enabled, Apply, Left, Quiet, NextStep;
      var next, s1 := Extend(run, NextStep(s));
      longer := PurgeCanEnd(next);
    }
  }

  lemma LastModuleOk(run: seq<State>)
    requires IsRun(run)
    ensures ModuleOk(run[|run| - 1])
  {
    RunsKeepInv(run, |run| - 1);
  }

  lemma StepSame(s: State)
    requires ModuleOk(s) && !Quiet(s) && Enabled(s, NextStep(s))
    ensures Apply(s, NextStep(s)).allBadCalls == s.allBadCalls && Apply(s, NextStep(s)).dead == s.dead
  {
  }
}
