/**
 The staged breakpoint protocol as a whole: what holds in every interleaving of schedulers with
 enable and disable operations.
 */
module BreakpointStaging {
  import opened BreakpointModel
  import opened BreakpointReaders
  import opened BreakpointUpdate

  lemma ControlKeepsBp(b: Bp)
    requires BpInv(b) && !b.ctl.Quiet? && (b.ctl.Freeing? ==> b.freeList == {})
    ensures BpInv(DoControl(b))
  {
    match b.ctl
    case Wait(op, k) =>
      if k == 0 {
        if op.enable { InstallKeeps(b); } else { CommitKeeps(b); }
      } else if k == 1 {
        if op.enable { CommitKeeps(b); } else { UninstallKeeps(b); }
      } else if k == 2 {
        if op.matched && b.head != NULL { StartConsolidatingKeeps(b); } else { SkipConsolidatingKeeps(b); }
      } else {
        StartFreeingKeeps(b);
      }
    case Consolidating(_, _, _) => ConsolidateKeeps(b);
    case Freeing => FinishKeeps(b);
  }

  lemma StageBound(b: Bp)
    requires BpInv(b) && b.ctl.Wait?
    ensures b.ctl.k <= 3
  {
  }

  lemma ControlWalker(b: Bp, a: bool, w: Walker)
    requires BpInv(b) && !b.ctl.Quiet? && BpInv(DoControl(b)) && WalkerOk(b, a, w) && (b.ctl.Wait? ==> a)
    ensures WalkerOk(DoControl(b), a && (DoControl(b).ctl.Consolidating? || DoControl(b).ctl.Freeing?), w)
  {
    hide WalkerOk, Structure, DataStaged, CodeStaged, ToInsertSet;
    match b.ctl
    case Wait(op, k) =>
      StageBound(b);
      if k == 0 {
        if op.enable { InstallWalker(b, w); } else { CommitWalker(b, w); }
      } else if k == 1 {
        if op.enable { CommitWalker(b, w); } else { UninstallWalker(b, w); }
      } else if k == 2 {
        StartConsolidatingWalker(b, w);
      } else {
        StartFreeingWalker(b, w);
      }
    case Consolidating(_, _, _) => ConsolidateWalker(b, a, w);
    case Freeing => FinishWalker(b, a, w);
  }

  lemma ControlKeeps(s: State)
    requires Inv(s) && Enabled(s, Control) && Safe(s, Control)
    ensures Inv(Apply(s, Control))
  {
    ControlKeepsBp(s.b);
    forall t: nat | t < |s.walkers|
      ensures WalkerOk(Apply(s, Control).b, t in Apply(s, Control).acked, s.walkers[t])
    {
      ControlWalker(s.b, t in s.acked, s.walkers[t]);
    }
  }

  lemma StepKeeps(s: State, step: Step)
    requires Inv(s) && Enabled(s, step)
    ensures Safe(s, step) && Inv(Apply(s, step))
  {
    hide WalkerOk, Structure, DataStaged, CodeStaged;
    StepsAreSafe(s, step);
    match step
    case Begin(op) =>
      BeginKeeps(s.b, op);
      forall t: nat | t < |s.walkers|
        ensures WalkerOk(DoBegin(s.b, op), false, s.walkers[t])
      {
        BeginWalker(s.b, op, t in s.acked, s.walkers[t]);
      }
    case Control => ControlKeeps(s);
    case Free(n) =>
      FreeKeeps(s.b, n);
      forall t: nat | t < |s.walkers|
        ensures WalkerOk(DoFree(s.b, n), t in s.acked, s.walkers[t])
      {
        FreeWalker(s.b, n, t in s.acked, s.walkers[t]);
      }
    case _ => WalkKeeps(s, step);
  }

  ghost predicate FollowsAt(run: seq<State>, i: int)
    requires 0 <= i < |run| - 1
  {
    var s := run[i];
    Shape(s.b) && exists step :: Enabled(s, step) && Safe(s, step) && run[i + 1] == Apply(s, step)
  }

  /** Any interleaving of any number of schedulers with any sequence of operations. */
  ghost predicate IsRun(run: seq<State>, walkers: nat, orig: Instr) {
    && orig.Plain? && |run| > 0 && run[0] == Init(walkers, orig)
    && forall i :: 0 <= i < |run| - 1 ==> FollowsAt(run, i)
  }

  lemma {:induction false} RunsKeepInv(run: seq<State>, walkers: nat, orig: Instr, k: nat)
    requires IsRun(run, walkers, orig) && k < |run|
    ensures Inv(run[k]) && run[k].b.orig == orig
  {
    hide Inv, Apply, Enabled, Safe;
    if k == 0 {
      InitEstablishes(walkers, orig);
    } else {
      RunsKeepInv(run, walkers, orig, k - 1);
      assert FollowsAt(run, k - 1);
      var step :| Enabled(run[k - 1], step) && Safe(run[k - 1], step) && run[k] == Apply(run[k - 1], step);
      StepKeeps(run[k - 1], step);
      StepKeepsOrig(run[k - 1], step);
    }
  }

  lemma StepKeepsOrig(s: State, step: Step)
    requires Shape(s.b) && Enabled(s, step) && Safe(s, step)
    ensures Apply(s, step).b.orig == s.b.orig
  {
  }

  /**
   No step of a run follows a NULL pointer or touches a freed node. In particular a scheduler that
   has fetched the breakpoint instruction finds `gen_bp` set, at the start of its loop and at the end.
   */
  lemma RunsAreSafe(run: seq<State>, walkers: nat, orig: Instr, k: nat, step: Step)
    requires IsRun(run, walkers, orig) && k < |run| && Enabled(run[k], step)
    ensures Safe(run[k], step)
  {
    RunsKeepInv(run, walkers, orig, k);
    StepsAreSafe(run[k], step);
  }

  /**
   A scheduler that reaches the end of its walk has visited every breakpoint that is linked and
   enabled, whatever was linked or unlinked meanwhile, and goes on with the function's own instruction.
   */
  lemma EveryEnabledSessionIsReached(run: seq<State>, walkers: nat, orig: Instr, k: nat, t: nat)
    requires IsRun(run, walkers, orig) && k < |run| && Enabled(run[k], Return(t)) && run[k].walkers[t].At?
    ensures Shape(run[k].b)
    ensures forall n :: n in Linked(run[k].b) && ActiveFlags(run[k].b, n) != {} ==> n in run[k].walkers[t].visited
    ensures run[k].b.head in run[k].b.heap && Returned(run[k].b) == orig
  {
    RunsKeepInv(run, walkers, orig, k);
    assert WalkerOk(run[k].b, t in run[k].acked, run[k].walkers[t]);
  }

  lemma EnabledNeedsCode(b: Bp, n: Id)
    requires BpInv(b) && n in Linked(b) && ActiveFlags(b, n) != {}
    ensures b.code == Breakpoint
  {
    assert DataAt(b, n);
  }

  /**
   A session that is linked and enabled has the breakpoint instruction in the code: breakpoints are
   installed before they are committed, and taken out only after all of them are disabled.
   */
  lemma EnabledMeansInstalled(run: seq<State>, walkers: nat, orig: Instr, k: nat)
    requires IsRun(run, walkers, orig) && k < |run|
    ensures Shape(run[k].b)
    ensures forall n :: n in Linked(run[k].b) && ActiveFlags(run[k].b, n) != {} ==> run[k].b.code == Breakpoint
  {
    RunsKeepInv(run, walkers, orig, k);
    forall n | n in Linked(run[k].b) && ActiveFlags(run[k].b, n) != {}
      ensures run[k].b.code == Breakpoint
    {
      EnabledNeedsCode(run[k].b, n);
    }
  }

  /** An update that spares the active half of every node. */
  predicate SparesActive(b: Bp, b1: Bp)
    requires Shape(b)
  {
    forall n :: n in b.heap ==>
      n in b1.heap && |b1.heap[n].data| == 2 && b1.heap[n].data[b.activeIx] == b.heap[n].data[b.activeIx]
  }

  lemma BeginSpares(b: Bp, op: Op)
    requires Shape(b)
    ensures SparesActive(b, DoBegin(b, op))
  {
  }

  lemma KeepSpares(b: Bp, op: Op, cur: Id)
    requires Shape(b) && cur in b.heap
    ensures SparesActive(b, KeepNode(b, op, cur))
  {
  }

  lemma UnlinkAfterSpares(b: Bp, op: Op, prev: Id, cur: Id)
    requires Shape(b) && cur in b.heap && prev in b.heap && prev != cur
    ensures SparesActive(b, UnlinkAfter(b, op, prev, cur))
  {
  }

  lemma UnlinkFirstSpares(b: Bp, op: Op, cur: Id)
    requires Shape(b) && cur in b.heap
    ensures SparesActive(b, UnlinkFirst(b, op, cur))
  {
  }

  lemma ConsolidateSpares(b: Bp)
    requires Shape(b) && b.ctl.Consolidating?
    ensures SparesActive(b, DoConsolidate(b))
  {
    hide KeepNode, UnlinkAfter, UnlinkFirst;
    var op, prev, cur := b.ctl.op, b.ctl.prev, b.ctl.cur;
    if cur in b.heap {
      KeepSpares(b, op, cur);
      UnlinkFirstSpares(b, op, cur);
      if prev in b.heap && prev != cur {
        UnlinkAfterSpares(b, op, prev, cur);
      }
    }
  }

  lemma ControlSpares(b: Bp)
    requires Shape(b)
    ensures SparesActive(b, DoControl(b))
  {
    if b.ctl.Consolidating? {
      hide DoConsolidate;
      ConsolidateSpares(b);
    }
  }

  /** The data half a scheduler looks at is not written while it looks, nor is its node freed. */
  lemma NoHalfChangesUnderAReader(s: State, step: Step, t: nat)
    requires Inv(s) && Enabled(s, step) && Safe(s, step) && t < |s.walkers| && s.walkers[t].Using?
    ensures var w := s.walkers[t]; var b1 := Apply(s, step).b;
      && w.ix < 2 && w.pos in s.b.heap && w.pos in b1.heap && |b1.heap[w.pos].data| == 2
      && b1.heap[w.pos].data[w.ix] == s.b.heap[w.pos].data[w.ix]
  {
    assert WalkerOk(s.b, t in s.acked, s.walkers[t]);
    match step
    case Begin(op) => BeginSpares(s.b, op);
    case Control => ControlSpares(s.b);
    case _ =>
  }

  /**
   Between operations nothing is left over: the heap holds exactly the linked nodes, both halves of
   each are the same and enabled, and the instruction is in the code exactly when there is a node.
   */
  lemma QuietMeansConsolidated(run: seq<State>, walkers: nat, orig: Instr, k: nat)
    requires IsRun(run, walkers, orig) && k < |run| && run[k].b.ctl.Quiet?
    ensures Shape(run[k].b) && run[k].b.heap.Keys == Linked(run[k].b)
    ensures forall n :: n in run[k].b.heap ==> run[k].b.heap[n].data[0] == run[k].b.heap[n].data[1] != {}
    ensures run[k].b.code == (if run[k].b.head == NULL then orig else Breakpoint)
    ensures run[k].b.count == (if run[k].b.head == NULL then 0 else 1)
  {
    RunsKeepInv(run, walkers, orig, k);
    var b := run[k].b;
    forall n | n in b.heap
      ensures Same(b, n)
    {
      assert DataAt(b, n);
    }
  }
}
