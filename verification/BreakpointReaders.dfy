/**
 Schedulers in the middle of a breakpoint instruction stay on safe ground, by their own steps and
 while the updating process takes its steps.
 */
module BreakpointReaders {
  import opened BreakpointModel
  import opened BreakpointUpdate

  lemma InitEstablishes(walkers: nat, orig: Instr)
    requires orig.Plain?
    ensures Inv(Init(walkers, orig))
  {
  }

  /** A scheduler never follows a NULL pointer and never looks at a freed node. */
  lemma StepsAreSafe(s: State, step: Step)
    requires Inv(s) && Enabled(s, step)
    ensures Safe(s, step)
  {
  }

  lemma AdvanceKeeps(b: Bp, acked: bool, w: Walker)
    requires BpInv(b) && WalkerOk(b, acked, w) && w.Using? && w.pos in b.heap
    ensures WalkerOk(b, acked, At(b.heap[w.pos].next, w.visited + {w.pos}))
  {
    assert LinkStays(b, w.pos);
    if w.pos in Linked(b) && b.heap[w.pos].next in b.heap {
      NextIsLinked(b, w.pos);
    }
    forall n | n in Linked(b) && n > b.heap[w.pos].next && (acked || ActiveFlags(b, n) != {})
      ensures n in w.visited + {w.pos}
    {
      assert ReachesOlder(b, w.pos);
    }
  }

  lemma WalkKeeps(s: State, step: Step)
    requires Inv(s) && Enabled(s, step) && Safe(s, step)
    requires !step.Begin? && !step.Control? && !step.Free?
    ensures Inv(Apply(s, step))
  {
    var t := step.t;
    assert WalkerOk(s.b, t in s.acked, s.walkers[t]);
    if step.Advance? {
      AdvanceKeeps(s.b, t in s.acked, s.walkers[t]);
    }
    assert WalkerOk(s.b, t in s.acked, Apply(s, step).walkers[t]);
  }

  /**
   What an update may do to a scheduler in flight: nodes that leave the list stay on the heap while
   it may stand on them, and nodes that it has not seen are not enabled under its feet.
   */
  lemma WalkerFrame(b: Bp, a: bool, b1: Bp, a1: bool, w: Walker)
    requires Shape(b) && Shape(b1) && WalkerOk(b, a, w)
    requires !w.Outside? ==> b1.head != NULL && (b1.code == Breakpoint || (Disable(b1, 2) && !a1))
    requires forall n :: n in Linked(b) ==> Standing(b1, a1, n)
    requires forall n :: n in b.freeList && Standing(b, a, n) ==> Standing(b1, a1, n)
    requires forall n :: n in Linked(b1) && (a1 || ActiveFlags(b1, n) != {}) ==>
      n in Linked(b) && (a || ActiveFlags(b, n) != {})
    requires b1.activeIx == b.activeIx || (JustCommitted(b1) && !a1)
    requires JustCommitted(b) && !a ==> JustCommitted(b1) && !a1
    ensures WalkerOk(b1, a1, w)
  {
  }

  lemma StageFlagsWalker(b: Bp, op: Op, g: Id, a: bool, w: Walker)
    requires Shape(b) && Structure(b) && b.ctl.Quiet? && g in b.heap && WalkerOk(b, a, w)
    ensures Shape(StageFlags(b, op, g)) && WalkerOk(StageFlags(b, op, g), false, w)
  {
    var b1 := StageFlags(b, op, g);
    ReachFrame(b.heap, b1.heap, b.head);
    WalkerFrame(b, a, b1, false, w);
  }

  lemma AddNextWalker(b: Bp, op: Op, a: bool, w: Walker)
    requires Shape(b) && Structure(b) && b.ctl.Quiet? && b.head in b.heap && WalkerOk(b, a, w)
    ensures Shape(AddNext(b, op)) && WalkerOk(AddNext(b, op), false, w)
  {
    var b1 := AddNext(b, op);
    ReachFrame(b.heap, b1.heap, b.head);
    WalkerFrame(b, a, b1, false, w);
  }

  lemma BeginElsewhereWalker(b: Bp, op: Op, a: bool, w: Walker)
    requires Shape(b) && Structure(b) && b.ctl.Quiet? && WalkerOk(b, a, w)
    ensures WalkerOk(b.(ctl := Wait(op, 0)), false, w)
  {
    WalkerFrame(b, a, b.(ctl := Wait(op, 0)), false, w);
  }

  lemma BeginWalker(b: Bp, op: Op, a: bool, w: Walker)
    requires BpInv(b) && b.ctl.Quiet? && op.flags != {} && WalkerOk(b, a, w) && Shape(DoBegin(b, op))
    ensures WalkerOk(DoBegin(b, op), false, w)
  {
    var g := Find(b.heap, b.head, op.session);
    if op.matched && g in b.heap {
      StageFlagsWalker(b, op, g, a, w);
    } else if op.matched && op.enable && b.head in b.heap {
      AddNextWalker(b, op, a, w);
    } else if op.matched && op.enable {
      assert w.Outside?;
    } else {
      BeginElsewhereWalker(b, op, a, w);
    }
  }

  lemma BeginKeeps(b: Bp, op: Op)
    requires BpInv(b) && b.ctl.Quiet? && op.flags != {}
    ensures BpInv(DoBegin(b, op))
  {
    var g := Find(b.heap, b.head, op.session);
    if op.matched && g in b.heap {
      StageFlagsKeeps(b, op, g);
    } else if op.matched && op.enable && b.head in b.heap {
      AddNextKeeps(b, op);
    } else if op.matched && op.enable {
      AddFirstKeeps(b, op);
    } else {
      BeginElsewhereKeeps(b, op);
    }
  }

  lemma InstallWalker(b: Bp, w: Walker)
    requires BpInv(b) && b.ctl.Wait? && b.ctl.k == 0 && b.ctl.op.enable && WalkerOk(b, true, w)
    requires BpInv(DoInstall(b, b.ctl.op))
    ensures WalkerOk(DoInstall(b, b.ctl.op), false, w)
  {
    var b1 := DoInstall(b, b.ctl.op);
    ReachFrame(b.heap, b1.heap, b.head);
    if Pending(b) != {} {
      InstallLinkStructure(b);
    }
    WalkerFrame(b, true, b1, false, w);
  }

  lemma InstallKeeps(b: Bp)
    requires BpInv(b) && b.ctl.Wait? && b.ctl.k == 0 && b.ctl.op.enable
    ensures BpInv(DoInstall(b, b.ctl.op))
  {
    if Pending(b) == {} {
      InstallSimplyKeeps(b);
    } else {
      InstallLinkKeeps(b);
    }
  }

  lemma CommitWalker(b: Bp, w: Walker)
    requires BpInv(b) && b.ctl.Wait? && b.ctl.k == (if b.ctl.op.enable then 1 else 0) && WalkerOk(b, true, w)
    ensures Shape(DoCommit(b, Wait(b.ctl.op, b.ctl.k + 1)))
    ensures WalkerOk(DoCommit(b, Wait(b.ctl.op, b.ctl.k + 1)), false, w)
  {
    WalkerFrame(b, true, DoCommit(b, Wait(b.ctl.op, b.ctl.k + 1)), false, w);
  }

  lemma UninstallWalker(b: Bp, w: Walker)
    requires BpInv(b) && b.ctl.Wait? && b.ctl.k == 1 && !b.ctl.op.enable && WalkerOk(b, true, w)
    ensures Shape(DoUninstall(b, b.ctl.op)) && WalkerOk(DoUninstall(b, b.ctl.op), false, w)
  {
    WalkerFrame(b, true, DoUninstall(b, b.ctl.op), false, w);
  }

  lemma StartConsolidatingWalker(b: Bp, w: Walker)
    requires BpInv(b) && b.ctl.Wait? && b.ctl.k == 2 && WalkerOk(b, true, w)
    ensures Shape(DoControl(b)) && WalkerOk(DoControl(b), DoControl(b).ctl.Consolidating?, w)
  {
    assert forall n :: n in Linked(b) ==> DataAt(b, n);
    WalkerFrame(b, true, DoControl(b), DoControl(b).ctl.Consolidating?, w);
  }

  lemma KeepNodeWalker(b: Bp, a: bool, w: Walker)
    requires BpInv(b) && b.ctl.Consolidating? && b.ctl.cur in b.heap && WalkerOk(b, a, w)
    ensures Shape(KeepNode(b, b.ctl.op, b.ctl.cur)) && WalkerOk(KeepNode(b, b.ctl.op, b.ctl.cur), a, w)
  {
    KeepNodeStructure(b, b.ctl.op, b.ctl.cur);
    WalkerFrame(b, a, KeepNode(b, b.ctl.op, b.ctl.cur), a, w);
  }

  lemma UnlinkFirstWalker(b: Bp, a: bool, w: Walker)
    requires BpInv(b) && b.ctl.Consolidating? && b.ctl.prev == NULL && b.ctl.cur in b.heap && WalkerOk(b, a, w)
    requires ActiveFlags(b, b.ctl.cur) == {}
    ensures Shape(UnlinkFirst(b, b.ctl.op, b.ctl.cur)) && WalkerOk(UnlinkFirst(b, b.ctl.op, b.ctl.cur), a, w)
  {
    UnlinkFirstStructure(b, b.ctl.op, b.ctl.cur);
    UnlinkFirstKeeps(b);
    WalkerFrame(b, a, UnlinkFirst(b, b.ctl.op, b.ctl.cur), a, w);
  }

  lemma UnlinkAfterWalker(b: Bp, a: bool, w: Walker)
    requires BpInv(b) && b.ctl.Consolidating? && b.ctl.prev != NULL && b.ctl.cur in b.heap && WalkerOk(b, a, w)
    ensures b.ctl.prev >= 0 && b.ctl.prev in b.heap && b.ctl.prev != b.ctl.cur
    ensures Shape(UnlinkAfter(b, b.ctl.op, b.ctl.prev, b.ctl.cur))
    ensures WalkerOk(UnlinkAfter(b, b.ctl.op, b.ctl.prev, b.ctl.cur), a, w)
  {
    UnlinkAfterStructure(b, b.ctl.op, b.ctl.prev, b.ctl.cur);
    WalkerFrame(b, a, UnlinkAfter(b, b.ctl.op, b.ctl.prev, b.ctl.cur), a, w);
  }

  lemma ConsolidateEndWalker(b: Bp, a: bool, w: Walker)
    requires BpInv(b) && b.ctl.Consolidating? && b.ctl.cur !in b.heap && WalkerOk(b, a, w)
    ensures WalkerOk(DoConsolidate(b), false, w)
  {
    assert forall n :: n in Linked(b) ==> DataAt(b, n);
    WalkerFrame(b, a, DoConsolidate(b), false, w);
  }

  lemma ConsolidateWalker(b: Bp, a: bool, w: Walker)
    requires BpInv(b) && b.ctl.Consolidating? && WalkerOk(b, a, w) && BpInv(DoConsolidate(b))
    ensures WalkerOk(DoConsolidate(b), a && DoConsolidate(b).ctl.Consolidating?, w)
  {
    hide WalkerOk, Structure, DataStaged, CodeStaged;
    if b.ctl.cur !in b.heap {
      ConsolidateEndWalker(b, a, w);
    } else if ActiveFlags(b, b.ctl.cur) != {} {
      KeepNodeWalker(b, a, w);
    } else if b.ctl.prev == NULL {
      UnlinkFirstWalker(b, a, w);
    } else {
      UnlinkAfterWalker(b, a, w);
    }
  }

  lemma ConsolidateKeeps(b: Bp)
    requires BpInv(b) && b.ctl.Consolidating?
    ensures BpInv(DoConsolidate(b))
  {
    if b.ctl.cur !in b.heap {
      ConsolidateEndKeeps(b);
    } else if ActiveFlags(b, b.ctl.cur) != {} {
      KeepNodeKeeps(b);
    } else if b.ctl.prev == NULL {
      UnlinkFirstKeeps(b);
    } else {
      UnlinkAfterKeeps(b);
    }
  }

  lemma FreeWalker(b: Bp, gone: Id, a: bool, w: Walker)
    requires BpInv(b) && b.ctl.Freeing? && gone in b.freeList && WalkerOk(b, a, w)
    ensures Shape(DoFree(b, gone)) && WalkerOk(DoFree(b, gone), a, w)
  {
    FreeStructure(b, gone);
    WalkerFrame(b, a, DoFree(b, gone), a, w);
  }

  lemma StartFreeingWalker(b: Bp, w: Walker)
    requires BpInv(b) && b.ctl.Wait? && b.ctl.k == 3 && WalkerOk(b, true, w)
    ensures WalkerOk(b.(ctl := Freeing), true, w)
  {
    WalkerFrame(b, true, b.(ctl := Freeing), true, w);
  }

  lemma FinishWalker(b: Bp, a: bool, w: Walker)
    requires BpInv(b) && b.ctl.Freeing? && WalkerOk(b, a, w)
    ensures WalkerOk(Done(b, Quiet, false), false, w)
  {
    WalkerFrame(b, a, Done(b, Quiet, false), false, w);
  }
}
