/**
 Purging old code: prepare, then abort or complete, while processes that call a fun of the module
 are suspended. The purger's calls are split at the points where something else can happen.
 */
module Purge {
  import opened Wrappers

  type Pid = nat
  type Mod = nat

  /** Who has the permission to stage code. */
  datatype Holder = NoOne | Purger | Loader

  /** Where the purger is. */
  datatype Pc =
    | Idle                // between calls
    | Seized(m: Mod)      // prepare: has the stage permission
    | Marked              // prepare: the module is set
    | Counted             // prepare: the funs have their markers
    | Sleeping            // prepare: suspended until thread progress
    | Aborting            // abort: suspended until thread progress
    | Completing          // complete: has the modification permission
    | Releasing           // complete: has given that back
    | Finalizing          // about to enter the locked part of the finalization
    | Resetting           // after it

  datatype State = State(
    pc: Pc,
    module_: Option<Mod>,         // purge_state.module
    feCount: nat,
    sprocs: seq<Pid>,
    stage: Holder,
    suspended: set<Pid>,
    dead: set<Pid>,
    seized: nat,                  // how often the purger has taken the stage permission
    released: nat,                // how often it has given it back since it took it last
    badCalls: nat,                // refused calls with funs pending, since then
    allBadCalls: nat,             // and altogether
    faulty: bool,                 // a permission was given back that the purger did not have
    suspensions: multiset<Pid>,
    resumptions: multiset<Pid>,
    deaths: multiset<Pid>)        // of suspended processes

  datatype Step =
    | PrepareSeize(m: Mod) | PrepareNothing | PrepareMark | PrepareFuns(n: nat) | PrepareSleep | WakeUp
    | Abort(m: Mod) | AbortProgress
    | Complete(m: Mod) | CompleteUnlock | CompleteRelease
    | FinalizeLocked | FinalizeReset
    | BadCall
    | CallFun(p: Pid, m: Mod) | Exit(p: Pid)
    | LoaderSeize | LoaderRelease

  const INIT := State(Idle, None, 0, [], NoOne, {}, {}, 0, 0, 0, 0, false, multiset{}, multiset{}, multiset{})

  predicate Enabled(s: State, e: Step) {
    match e
    case PrepareSeize(_) => s.pc.Idle? && s.module_.None? && s.stage.NoOne?
    case PrepareNothing => s.pc.Seized?
    case PrepareMark => s.pc.Seized?
    case PrepareFuns(_) => s.pc.Marked?
    case PrepareSleep => s.pc.Counted?
    case WakeUp => s.pc.Sleeping?
    case Abort(m) => s.pc.Idle? && s.module_ == Some(m)
    case AbortProgress => s.pc.Aborting?
    case Complete(m) => s.pc.Idle? && s.module_ == Some(m)
    case CompleteUnlock => s.pc.Completing?
    case CompleteRelease => s.pc.Releasing?
    case FinalizeLocked => s.pc.Finalizing?
    case FinalizeReset => s.pc.Resetting?
    case BadCall => s.pc.Idle?
    case CallFun(p, _) => p !in s.suspended && p !in s.dead
    case Exit(p) => p !in s.dead
    case LoaderSeize => s.stage.NoOne?
    case LoaderRelease => s.stage.Loader?
  }

  /** `erts_release_code_stage_permission`, called by the purger. */
  function Release(s: State): State {
    s.(stage := NoOne, released := s.released + 1, faulty := s.faulty || s.stage != Purger)
  }

  /** The processes that the resume loop finds alive. */
  function Resumed(sprocs: seq<Pid>, dead: set<Pid>): multiset<Pid> {
    if sprocs == [] then multiset{}
    else (if sprocs[0] in dead then multiset{} else multiset{sprocs[0]}) + Resumed(sprocs[1..], dead)
  }

  function Members(s: seq<Pid>): set<Pid> {
    set p | p in s
  }

  /** `erts_suspend_process_on_pending_purge_lambda`. */
  function CallFunStep(s: State, p: Pid, m: Mod): State {
    if s.module_ == Some(m) then
      s.(sprocs := s.sprocs + [p], suspended := s.suspended + {p}, suspensions := s.suspensions + multiset{p})
    else s
  }

  function ExitStep(s: State, p: Pid): State {
    s.(dead := s.dead + {p}, suspended := s.suspended - {p},
       deaths := if p in s.suspended then s.deaths + multiset{p} else s.deaths)
  }

  function Apply(s: State, e: Step): State
    requires Enabled(s, e)
  {
    match e
    case PrepareSeize(m) => s.(pc := Seized(m), stage := Purger, seized := s.seized + 1, released := 0, badCalls := 0)
    case PrepareNothing => Release(s).(pc := Idle)
    case PrepareMark => s.(pc := Marked, module_ := Some(s.pc.m))
    case PrepareFuns(n) => s.(pc := Counted, feCount := n)
    case PrepareSleep => (if s.feCount == 0 then Release(s) else s).(pc := Sleeping)
    case WakeUp => s.(pc := Idle)
    case Abort(_) => s.(pc := if s.feCount > 0 then Aborting else Finalizing)
    case AbortProgress => Release(s).(pc := Finalizing)
    case Complete(_) => s.(pc := Completing)
    case CompleteUnlock => s.(pc := Releasing)
    case CompleteRelease => (if s.feCount > 0 then Release(s) else s).(pc := Finalizing)
    case FinalizeLocked =>
      s.(pc := Resetting, module_ := None, suspended := s.suspended - Members(s.sprocs),
         resumptions := s.resumptions + Resumed(s.sprocs, s.dead))
    case FinalizeReset => s.(pc := Idle, sprocs := [], feCount := 0)
    case BadCall =>
      if s.feCount > 0 then Release(s).(badCalls := s.badCalls + 1, allBadCalls := s.allBadCalls + 1) else s
    case CallFun(p, m) => CallFunStep(s, p, m)
    case Exit(p) => ExitStep(s, p)
    case LoaderSeize => s.(stage := Loader)
    case LoaderRelease => s.(stage := NoOne)
  }

  // ---------------------------------------------------------------- the stage permission

  /** The purger still has to give the stage permission back. */
  predicate Due(s: State) {
    match s.pc
    case Seized(_) => true
    case Marked => true
    case Counted => true
    case Idle => s.feCount > 0
    case Sleeping => s.feCount > 0
    case Aborting => true
    case Completing => s.feCount > 0
    case Releasing => s.feCount > 0
    case _ => false
  }

  predicate ModuleOk(s: State) {
    && (s.pc.Seized? || s.pc.Resetting? ==> s.module_.None?)
    && (!s.pc.Seized? && !s.pc.Resetting? && !s.pc.Idle? ==> s.module_.Some?)
    && (s.pc.Seized? || s.pc.Marked? ==> s.feCount == 0)
    && (s.pc.Aborting? ==> s.feCount > 0)
    && (s.pc.Idle? && s.module_.None? ==> s.feCount == 0)
    && (s.pc.Seized? || (s.pc.Idle? && s.module_.None?) ==> s.sprocs == [])
  }

  predicate PermissionOk(s: State) {
    && (s.seized == 0 ==> s.pc.Idle? && s.module_.None? && s.released == 0 && s.badCalls == 0)
    && (s.seized > 0 ==> s.released + (if Due(s) then 1 else 0) == 1 + s.badCalls)
    && (s.allBadCalls == 0 ==> !s.faulty && (s.stage.Purger? <==> Due(s)))
    && (s.allBadCalls > 0 ==> s.faulty || (Due(s) && !s.stage.Purger?))
    && s.badCalls <= s.allBadCalls
  }

  predicate IsPrepare(e: Step) {
    e.PrepareSeize? || e.PrepareNothing? || e.PrepareMark? || e.PrepareFuns? || e.PrepareSleep? || e.WakeUp?
  }

  predicate IsEnding(e: Step) {
    || e.Abort? || e.AbortProgress?
    || e.Complete? || e.CompleteUnlock? || e.CompleteRelease?
    || e.FinalizeLocked? || e.FinalizeReset?
  }

  lemma ModuleStep(s: State, e: Step)
    requires ModuleOk(s) && Enabled(s, e)
    ensures ModuleOk(Apply(s, e))
  {
  }

  lemma PrepareKeepsPermission(s: State, e: Step)
    requires ModuleOk(s) && PermissionOk(s) && Enabled(s, e) && IsPrepare(e)
    ensures PermissionOk(Apply(s, e))
  {
  }

  lemma EndingKeepsPermission(s: State, e: Step)
    requires ModuleOk(s) && PermissionOk(s) && Enabled(s, e) && IsEnding(e)
    ensures PermissionOk(Apply(s, e))
  {
  }

  lemma OthersKeepPermission(s: State, e: Step)
    requires ModuleOk(s) && PermissionOk(s) && Enabled(s, e) && !IsPrepare(e) && !IsEnding(e)
    ensures PermissionOk(Apply(s, e))
  {
  }

  lemma PermissionStep(s: State, e: Step)
    requires ModuleOk(s) && PermissionOk(s) && Enabled(s, e)
    ensures PermissionOk(Apply(s, e))
  {
    hide ModuleOk, PermissionOk, Apply;
    if IsPrepare(e) {
      PrepareKeepsPermission(s, e);
    } else if IsEnding(e) {
      EndingKeepsPermission(s, e);
    } else {
      OthersKeepPermission(s, e);
    }
  }

  // ---------------------------------------------------------------- the suspended processes

  ghost predicate Distinct(q: seq<Pid>) {
    forall i, j :: 0 <= i < j < |q| ==> q[i] != q[j]
  }

  ghost predicate ProcessesOk(s: State) {
    && Distinct(s.sprocs)
    && s.suspended == (if s.pc.Resetting? then {} else Members(s.sprocs) - s.dead)
    && s.suspensions == s.resumptions + s.deaths + multiset(s.suspended)
  }

  lemma {:induction false} ResumedAre(q: seq<Pid>, dead: set<Pid>)
    requires Distinct(q)
    ensures Resumed(q, dead) == multiset(Members(q) - dead)
  {
    if q != [] {
      ResumedAre(q[1..], dead);
      assert Members(q) == {q[0]} + Members(q[1..]) && q[0] !in Members(q[1..]);
      if q[0] in dead {
        assert Members(q) - dead == Members(q[1..]) - dead;
      } else {
        assert Members(q) - dead == {q[0]} + (Members(q[1..]) - dead);
      }
    }
  }

  lemma MembersSnoc(q: seq<Pid>, p: Pid)
    ensures Members(q + [p]) == Members(q) + {p}
  {
  }

  lemma DistinctSnoc(q: seq<Pid>, p: Pid)
    requires Distinct(q) && p !in Members(q)
    ensures Distinct(q + [p])
  {
  }

  lemma OneMore(a: set<Pid>, p: Pid)
    requires p !in a
    ensures multiset(a + {p}) == multiset(a) + multiset{p}
  {
  }

  lemma CallFunKeeps(s: State, p: Pid, m: Mod)
    requires ModuleOk(s) && ProcessesOk(s) && Enabled(s, CallFun(p, m))
    ensures ProcessesOk(CallFunStep(s, p, m))
  {
    if s.module_ == Some(m) {
      assert p !in Members(s.sprocs);
      hide Members, Distinct;
      MembersSnoc(s.sprocs, p);
      DistinctSnoc(s.sprocs, p);
      OneMore(s.suspended, p);
    }
  }

  lemma OneLess(a: set<Pid>, dead: set<Pid>, p: Pid)
    ensures a - (dead + {p}) == a - dead - {p}
    ensures p in a ==> multiset(a) == multiset(a - {p}) + multiset{p}
    ensures p !in a ==> a - {p} == a
  {
    if p in a {
      OneMore(a - {p}, p);
      assert a - {p} + {p} == a;
    }
  }

  lemma ExitKeeps(s: State, p: Pid)
    requires ProcessesOk(s) && p !in s.dead
    ensures ProcessesOk(ExitStep(s, p))
  {
    hide Members, Distinct;
    OneLess(Members(s.sprocs), s.dead, p);
    OneLess(s.suspended, {}, p);
    if p in s.suspended {
      Reorder(s.resumptions, s.deaths, multiset(s.suspended - {p}), multiset{p});
    }
  }

  lemma Reorder(a: multiset<Pid>, b: multiset<Pid>, c: multiset<Pid>, d: multiset<Pid>)
    ensures a + b + (c + d) == a + (b + d) + c
  {
  }

  lemma FinalizeKeeps(s: State)
    requires ModuleOk(s) && ProcessesOk(s) && s.pc.Finalizing?
    ensures ProcessesOk(Apply(s, FinalizeLocked))
  {
    ResumedAre(s.sprocs, s.dead);
    assert s.suspended - Members(s.sprocs) == {};
  }

  lemma ProcessesStep(s: State, e: Step)
    requires ModuleOk(s) && ProcessesOk(s) && Enabled(s, e)
    ensures ProcessesOk(Apply(s, e))
  {
    match e
    case CallFun(p, m) => CallFunKeeps(s, p, m);
    case Exit(p) => ExitKeeps(s, p);
    case FinalizeLocked => FinalizeKeeps(s);
    case _ =>
  }

  // ---------------------------------------------------------------- runs

  ghost predicate Inv(s: State) {
    ModuleOk(s) && PermissionOk(s) && ProcessesOk(s)
  }

  lemma StepKeeps(s: State, e: Step)
    requires Inv(s) && Enabled(s, e)
    ensures Inv(Apply(s, e))
  {
    hide ModuleOk, PermissionOk, ProcessesOk, Apply, Enabled;
    ModuleStep(s, e);
    PermissionStep(s, e);
    ProcessesStep(s, e);
  }

  ghost predicate FollowsAt(run: seq<State>, i: int)
    requires 0 <= i < |run| - 1
  {
    exists e :: Enabled(run[i], e) && run[i + 1] == Apply(run[i], e)
  }

  /** Any number of purges, interleaved with calls of funs, exits of processes and loading of code. */
  ghost predicate IsRun(run: seq<State>) {
    |run| > 0 && run[0] == INIT && forall i :: 0 <= i < |run| - 1 ==> FollowsAt(run, i)
  }

  lemma {:induction false} RunsKeepInv(run: seq<State>, k: nat)
    requires IsRun(run) && k < |run|
    ensures Inv(run[k])
  {
    if k > 0 {
      RunsKeepInv(run, k - 1);
      assert FollowsAt(run, k - 1);
      var e :| Enabled(run[k - 1], e) && run[k] == Apply(run[k - 1], e);
      StepKeeps(run[k - 1], e);
    }
  }

  /** No purge is going on. */
  predicate Quiet(s: State) {
    s.pc.Idle? && s.module_.None?
  }

  /**
   A purge that has ended gave the stage permission back once, and once more for every refused call
   that came while funs were pending.
   */
  lemma PermissionReleases(run: seq<State>, k: nat)
    requires IsRun(run) && k < |run| && Quiet(run[k]) && run[k].seized > 0
    ensures run[k].released == 1 + run[k].badCalls
  {
    RunsKeepInv(run, k);
  }

  /**
   Between purges, a permission has been given back that the purger did not have exactly when there
   was a refused call with funs pending.
   */
  lemma FaultExactlyAfterBadCall(run: seq<State>, k: nat)
    requires IsRun(run) && k < |run| && Quiet(run[k])
    ensures run[k].faulty <==> run[k].allBadCalls > 0
  {
    RunsKeepInv(run, k);
  }

  lemma Extend(run: seq<State>, e: Step) returns (longer: seq<State>, s: State)
    requires IsRun(run) && Enabled(run[|run| - 1], e)
    ensures s == Apply(run[|run| - 1], e) && longer == run + [s] && longer[|longer| - 1] == s && IsRun(longer)
  {
    s := Apply(run[|run| - 1], e);
    longer := run + [s];
    forall i | 0 <= i < |longer| - 1
      ensures FollowsAt(longer, i)
    {
      if i < |run| - 1 {
        assert FollowsAt(run, i);
        var e1 :| Enabled(run[i], e1) && run[i + 1] == Apply(run[i], e1);
        assert Enabled(longer[i], e1) && longer[i + 1] == Apply(longer[i], e1);
      } else {
        assert Enabled(longer[i], e) && longer[i + 1] == Apply(longer[i], e);
      }
    }
  }

  /** Prepare a purge of a module with one fun. */
  lemma Prepared() returns (run: seq<State>, s: State)
    ensures IsRun(run) && run[|run| - 1] == s
    ensures s == State(Idle, Some(1), 1, [], Purger, {}, {}, 1, 0, 0, 0, false, multiset{}, multiset{}, multiset{})
  {
    hide IsRun;
    run := [INIT];
    StartsRun();
    run, s := Extend(run, PrepareSeize(1));
    run, s := Extend(run, PrepareMark);
    run, s := Extend(run, PrepareFuns(1));
    run, s := Extend(run, PrepareSleep);
    run, s := Extend(run, WakeUp);
  }

  lemma StartsRun()
    ensures IsRun([INIT])
  {
  }

  /** A run with a refused call between prepare and complete. */
  lemma BadCallWitness() returns (run: seq<State>)
    ensures IsRun(run) && Quiet(run[|run| - 1]) && run[|run| - 1].faulty && run[|run| - 1].released == 2
  {
    hide IsRun;
    var s;
    run, s := Prepared();
    run, s := Extend(run, BadCall);
    run, s := Extend(run, Complete(1));
    run, s := Extend(run, CompleteUnlock);
    run, s := Extend(run, CompleteRelease);
    run, s := Extend(run, FinalizeLocked);
    run, s := Extend(run, FinalizeReset);
  }

  /**
   Every suspension ends with exactly one resumption, or with the death of the process; between
   purges none is left.
   */
  lemma ResumedExactlyOnce(run: seq<State>, k: nat)
    requires IsRun(run) && k < |run|
    ensures run[k].suspensions == run[k].resumptions + run[k].deaths + multiset(run[k].suspended)
    ensures run[k].module_.None? ==> run[k].suspended == {}
    ensures run[k].module_.None? ==> run[k].suspensions == run[k].resumptions + run[k].deaths
  {
    RunsKeepInv(run, k);
    if run[k].module_.None? {
      assert run[k].pc.Resetting? || run[k].sprocs == [];
    }
  }

  /** After the resume loop no process is added, although the list is emptied only later. */
  lemma NoneAddedAfterResuming(run: seq<State>, k: nat, p: Pid, m: Mod)
    requires IsRun(run) && k < |run| && run[k].pc.Resetting? && Enabled(run[k], CallFun(p, m))
    ensures Apply(run[k], CallFun(p, m)) == run[k]
  {
    RunsKeepInv(run, k);
  }
}
