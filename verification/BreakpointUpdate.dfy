/**
 The updating process keeps the breakpoint invariant: staging, installing, committing, uninstalling,
 consolidating and freeing.
 */
module BreakpointUpdate {
  import opened BreakpointModel

  /** Changing anything but links, or adding newer nodes, changes no list. */
  lemma OlderFrame(b: Bp, b1: Bp, n: Id)
    requires Shape(b) && b1.head == b.head && n in b.heap && ReachesOlder(b, n)
    requires forall m :: m in b.heap ==> m in b1.heap && b1.heap[m].next == b.heap[m].next
    requires forall m :: m in b1.heap && m !in b.heap ==> m >= b.nextId
    ensures ReachesOlder(b1, n) && Linked(b1) == Linked(b)
  {
    ReachFrame(b.heap, b1.heap, b.head);
    ReachFrame(b.heap, b1.heap, n);
  }

  lemma StructureFrame(b: Bp, b1: Bp)
    requires Shape(b) && Structure(b) && Shape(b1) && !b.ctl.Freeing? && !b.ctl.Consolidating?
    requires b1.heap.Keys == b.heap.Keys && b1.head == b.head && b1.freeList == b.freeList
    requires forall n :: n in b.heap ==> b1.heap[n].next == b.heap[n].next
    requires b1.ctl.Wait? && b1.ctl.k <= 3 && (b.freeList != {} ==> b1.ctl.k == 3)
    requires Pending(b1) == Pending(b)
    ensures Structure(b1) && Linked(b1) == Linked(b)
  {
    ReachFrame(b.heap, b1.heap, b.head);
    forall n | n in b1.heap
      ensures LinkStays(b1, n) && ReachesOlder(b1, n)
    {
      assert LinkStays(b, n) && ReachesOlder(b, n);
      OlderFrame(b, b1, n);
    }
  }

  lemma StageFlagsStructure(b: Bp, op: Op, g: Id)
    requires Shape(b) && Structure(b) && ToInsertSet(b) && b.ctl.Quiet? && g in b.heap
    ensures var b1 := StageFlags(b, op, g);
      Shape(b1) && Structure(b1) && Linked(b1) == Linked(b) && ToInsertSet(b1)
  {
    StructureFrame(b, StageFlags(b, op, g));
  }

  lemma StageFlagsData(b: Bp, op: Op, g: Id, n: Id)
    requires Shape(b) && b.ctl.Quiet? && op.flags != {} && op.matched && g in b.heap && n in b.heap && DataAt(b, n)
    requires b.code == Breakpoint && Shape(StageFlags(b, op, g))
    ensures DataAt(StageFlags(b, op, g), n)
  {
  }

  lemma StageFlagsKeeps(b: Bp, op: Op, g: Id)
    requires BpInv(b) && b.ctl.Quiet? && op.flags != {} && op.matched && g in b.heap
    ensures BpInv(StageFlags(b, op, g))
  {
    hide LinksStay, OlderReachable, DataAt, ToInsertSet;
    var b1 := StageFlags(b, op, g);
    StageFlagsStructure(b, op, g);
    forall n | n in Linked(b1)
      ensures DataAt(b1, n)
    {
      assert DataAt(b, n);
      StageFlagsData(b, op, g, n);
    }
  }

  lemma AddFirstKeeps(b: Bp, op: Op)
    requires BpInv(b) && b.ctl.Quiet? && op.flags != {} && op.matched && op.enable && b.head !in b.heap
    ensures BpInv(AddFirst(b, op))
  {
    var b1 := AddFirst(b, op);
    assert b.heap == map[];
    assert Linked(b1) == {b.nextId};
  }

  lemma AddNextLinks(b: Bp, op: Op, n: Id)
    requires Shape(b) && Structure(b) && b.ctl.Quiet? && b.head in b.heap && n in AddNext(b, op).heap
    ensures LinkStays(AddNext(b, op), n) && ReachesOlder(AddNext(b, op), n) && Linked(AddNext(b, op)) == Linked(b)
  {
    var b1 := AddNext(b, op);
    ReachFrame(b.heap, b1.heap, b.head);
    if n != b.nextId {
      assert LinkStays(b, n) && ReachesOlder(b, n);
      OlderFrame(b, b1, n);
    } else {
      assert Reach(b1.heap, n) == {n} + Reach(b1.heap, b.head);
    }
  }

  lemma AddNextShape(b: Bp, op: Op)
    requires Shape(b) && b.head in b.heap
    ensures Shape(AddNext(b, op)) && AddNext(b, op).heap.Keys == b.heap.Keys + {b.nextId}
  {
  }

  lemma AddNextAllLinks(b: Bp, op: Op)
    requires Shape(b) && Structure(b) && b.ctl.Quiet? && b.head in b.heap
    ensures LinksStay(AddNext(b, op)) && OlderReachable(AddNext(b, op)) && Linked(AddNext(b, op)) == Linked(b)
  {
    hide Structure, LinkStays, ReachesOlder;
    var b1 := AddNext(b, op);
    AddNextShape(b, op);
    forall n | n in b1.heap
      ensures LinkStays(b1, n) && ReachesOlder(b1, n)
    {
      AddNextLinks(b, op, n);
    }
    AddNextLinks(b, op, b.head);
  }

  lemma AddNextStructure(b: Bp, op: Op)
    requires Shape(b) && Structure(b) && b.ctl.Quiet? && op.matched && op.enable && b.head in b.heap
    ensures Shape(AddNext(b, op)) && Structure(AddNext(b, op)) && Linked(AddNext(b, op)) == Linked(b)
  {
    hide LinksStay, OlderReachable, Shape;
    AddNextShape(b, op);
    AddNextAllLinks(b, op);
  }

  lemma AddNextToInsert(b: Bp, op: Op)
    requires BpInv(b) && b.ctl.Quiet? && op.flags != {} && op.matched && op.enable && b.head in b.heap
    requires Shape(AddNext(b, op)) && Linked(AddNext(b, op)) == Linked(b)
    ensures ToInsertSet(AddNext(b, op))
  {
    hide Structure, DataStaged;
  }

  lemma AddNextData(b: Bp, op: Op, n: Id)
    requires Shape(b) && b.ctl.Quiet? && op.matched && op.enable && b.head in b.heap && n in b.heap && DataAt(b, n)
    requires b.code == Breakpoint && Shape(AddNext(b, op))
    ensures DataAt(AddNext(b, op), n)
  {
  }

  lemma AddNextKeeps(b: Bp, op: Op)
    requires BpInv(b) && b.ctl.Quiet? && op.flags != {} && op.matched && op.enable && b.head in b.heap
    ensures BpInv(AddNext(b, op))
  {
    hide LinksStay, OlderReachable, DataAt, ToInsertSet;
    var b1 := AddNext(b, op);
    AddNextStructure(b, op);
    AddNextToInsert(b, op);
    forall n | n in Linked(b1)
      ensures DataAt(b1, n)
    {
      assert DataAt(b, n);
      AddNextData(b, op, n);
    }
  }

  lemma BeginElsewhereKeeps(b: Bp, op: Op)
    requires BpInv(b) && b.ctl.Quiet? && !(op.matched && op.enable)
    ensures BpInv(b.(ctl := Wait(op, 0)))
  {
    var b1 := b.(ctl := Wait(op, 0));
    StructureFrame(b, b1);
    forall n | n in Linked(b1)
      ensures DataAt(b1, n)
    {
      assert DataAt(b, n);
    }
  }

  lemma CommitKeeps(b: Bp)
    requires BpInv(b) && b.ctl.Wait? && b.ctl.k == (if b.ctl.op.enable then 1 else 0)
    ensures BpInv(DoCommit(b, Wait(b.ctl.op, b.ctl.k + 1)))
  {
    var b1 := DoCommit(b, Wait(b.ctl.op, b.ctl.k + 1));
    StructureFrame(b, b1);
    forall n | n in Linked(b1)
      ensures DataAt(b1, n)
    {
      assert DataAt(b, n);
    }
  }

  lemma UninstallKeeps(b: Bp)
    requires BpInv(b) && b.ctl.Wait? && b.ctl.k == 1 && !b.ctl.op.enable
    ensures BpInv(DoUninstall(b, b.ctl.op))
  {
    var b1 := DoUninstall(b, b.ctl.op);
    StructureFrame(b, b1);
    forall n | n in Linked(b1)
      ensures DataAt(b1, n)
    {
      assert DataAt(b, n);
    }
  }

  /** Installing where no node waits to be linked. */
  lemma InstallSimplyKeeps(b: Bp)
    requires BpInv(b) && b.ctl.Wait? && b.ctl.k == 0 && b.ctl.op.enable && Pending(b) == {}
    ensures BpInv(DoInstall(b, b.ctl.op))
  {
    var b1 := DoInstall(b, b.ctl.op);
    StructureFrame(b, b1);
    forall n | n in Linked(b1)
      ensures DataAt(b1, n)
    {
      assert DataAt(b, n);
    }
  }

  lemma InstallLinkShape(b: Bp)
    requires Shape(b) && ToInsertSet(b) && Enable(b, 0) && b.head in b.heap && b.heap[b.head].toInsert != NULL
    ensures Shape(DoInstall(b, b.ctl.op)) && DoInstall(b, b.ctl.op).heap.Keys == b.heap.Keys
  {
  }

  lemma InstallLinkLinks(b: Bp, n: Id)
    requires Shape(b) && ToInsertSet(b) && Enable(b, 0) && b.head in b.heap && b.heap[b.head].toInsert != NULL
    requires n in b.heap && n <= b.heap[b.head].toInsert && LinkStays(b, n) && ReachesOlder(b, n)
    ensures var b1, g := DoInstall(b, b.ctl.op), b.heap[b.head].toInsert;
      n in b1.heap && LinkStays(b1, n) && ReachesOlder(b1, n) && Linked(b1) == {g} + Linked(b)
  {
    var b1, g := DoInstall(b, b.ctl.op), b.heap[b.head].toInsert;
    ReachFrame(b.heap, b1.heap, b.head);
    ReachFrame(b.heap, b1.heap, n);
    assert Reach(b1.heap, g) == {g} + Reach(b1.heap, b.head);
  }

  lemma InstallLinkStructure(b: Bp)
    requires BpInv(b) && Enable(b, 0) && b.head in b.heap && b.heap[b.head].toInsert != NULL
    ensures var b1 := DoInstall(b, b.ctl.op);
      Shape(b1) && Structure(b1) && Linked(b1) == {b.heap[b.head].toInsert} + Linked(b)
  {
    hide DataStaged, CodeStaged, LinkStays, ReachesOlder;
    var b1 := DoInstall(b, b.ctl.op);
    InstallLinkShape(b);
    forall n | n in b1.heap
      ensures LinkStays(b1, n) && ReachesOlder(b1, n)
    {
      assert LinkStays(b, n) && ReachesOlder(b, n);
      assert n in Linked(b) || n in Pending(b);
      InstallLinkLinks(b, n);
    }
    assert LinkStays(b, b.head) && ReachesOlder(b, b.head);
    InstallLinkLinks(b, b.head);
  }

  lemma InstallLinkKeeps(b: Bp)
    requires BpInv(b) && Enable(b, 0) && b.head in b.heap && b.heap[b.head].toInsert != NULL
    ensures BpInv(DoInstall(b, b.ctl.op))
  {
    var b1 := DoInstall(b, b.ctl.op);
    InstallLinkStructure(b);
    forall n | n in Linked(b1)
      ensures DataAt(b1, n)
    {
      if n in Linked(b) {
        assert DataAt(b, n);
      }
    }
  }

  lemma SkipConsolidatingKeeps(b: Bp)
    requires BpInv(b) && b.ctl.Wait? && b.ctl.k == 2 && !(b.ctl.op.matched && b.head != NULL)
    ensures BpInv(Done(b, Wait(b.ctl.op, 3), false))
  {
    var b1 := Done(b, Wait(b.ctl.op, 3), false);
    StructureFrame(b, b1);
    forall n | n in Linked(b1)
      ensures DataAt(b1, n)
    {
      assert DataAt(b, n);
    }
  }

  lemma StartConsolidatingStructure(b: Bp)
    requires Shape(b) && Structure(b) && b.ctl.Wait? && b.ctl.k == 2 && b.ctl.op.matched && b.head != NULL
    ensures Structure(StartConsolidating(b, b.ctl.op))
  {
    var b1 := StartConsolidating(b, b.ctl.op);
    forall n | n in b1.heap
      ensures LinkStays(b1, n) && ReachesOlder(b1, n)
    {
      assert LinkStays(b, n) && ReachesOlder(b, n);
    }
  }

  lemma StartConsolidatingKeeps(b: Bp)
    requires BpInv(b) && b.ctl.Wait? && b.ctl.k == 2 && b.ctl.op.matched && b.head != NULL
    ensures BpInv(StartConsolidating(b, b.ctl.op))
  {
    var b1 := StartConsolidating(b, b.ctl.op);
    StartConsolidatingStructure(b);
    forall n | n in Linked(b1)
      ensures DataAt(b1, n)
    {
      assert DataAt(b, n);
    }
    if b.code == Breakpoint {
      assert b.head in Linked(b) && DataAt(b, b.head);
      var m :| m in Linked(b) && ActiveFlags(b, m) != {};
      assert m in Linked(b1) && ActiveFlags(b1, m) != {};
    }
  }

  lemma ConsolidateEndKeeps(b: Bp)
    requires BpInv(b) && b.ctl.Consolidating? && b.ctl.cur !in b.heap
    ensures BpInv(DoConsolidate(b))
  {
    var b1 := DoConsolidate(b);
    forall n | n in b1.heap
      ensures LinkStays(b1, n) && ReachesOlder(b1, n)
    {
      assert LinkStays(b, n) && ReachesOlder(b, n);
    }
    forall n | n in Linked(b1)
      ensures DataAt(b1, n)
    {
      assert DataAt(b, n);
    }
  }

  lemma CopiedFrame(b: Bp, cur: Id, p: int)
    requires Shape(b) && cur in b.heap
    ensures Reach(Copied(b, cur), p) == Reach(b.heap, p)
  {
    ReachFrame(b.heap, Copied(b, cur), p);
  }

  lemma KeepNodeStructure(b: Bp, op: Op, cur: Id)
    requires Shape(b) && Structure(b) && b.ctl.Consolidating? && b.ctl.op == op && b.ctl.cur == cur && cur in b.heap
    ensures Structure(KeepNode(b, op, cur)) && Linked(KeepNode(b, op, cur)) == Linked(b)
  {
    var b1 := KeepNode(b, op, cur);
    CopiedFrame(b, cur, b.head);
    assert LinkStays(b, cur);
    if b.heap[cur].next in b.heap {
      NextIsLinked(b, cur);
    }
    forall n | n in b1.heap
      ensures LinkStays(b1, n) && ReachesOlder(b1, n)
    {
      assert LinkStays(b, n) && ReachesOlder(b, n);
      CopiedFrame(b, cur, n);
    }
  }

  lemma KeepNodeData(b: Bp, n: Id)
    requires BpInv(b) && b.ctl.Consolidating? && b.ctl.cur in b.heap && ActiveFlags(b, b.ctl.cur) != {}
    requires n in Linked(b)
    ensures Shape(KeepNode(b, b.ctl.op, b.ctl.cur)) && DataAt(KeepNode(b, b.ctl.op, b.ctl.cur), n)
  {
    assert DataAt(b, n) && ReachesOlder(b, b.ctl.cur);
  }

  /** A node is kept only while the instruction is in the code. */
  lemma KeepNodeCode(b: Bp)
    requires BpInv(b) && b.ctl.Consolidating? && b.ctl.cur in b.heap && ActiveFlags(b, b.ctl.cur) != {}
    ensures b.code == Breakpoint
  {
    assert DataAt(b, b.ctl.cur);
  }

  lemma KeepNodeKeeps(b: Bp)
    requires BpInv(b) && b.ctl.Consolidating? && b.ctl.cur in b.heap && ActiveFlags(b, b.ctl.cur) != {}
    ensures BpInv(KeepNode(b, b.ctl.op, b.ctl.cur))
  {
    hide DataAt, LinksStay, OlderReachable;
    KeepNodeCode(b);
    var b1 := KeepNode(b, b.ctl.op, b.ctl.cur);
    KeepNodeStructure(b, b.ctl.op, b.ctl.cur);
    forall n | n in Linked(b1)
      ensures DataAt(b1, n)
    {
      KeepNodeData(b, n);
    }
    assert b.ctl.cur in Linked(b1) && ActiveFlags(b1, b.ctl.cur) != {};
  }

  lemma UnlinkFirstLists(b: Bp, op: Op, cur: Id, n: Id)
    requires Shape(b) && cur in b.heap && b.head == cur && n in b.heap && ReachesOlder(b, n)
    ensures Linked(UnlinkFirst(b, op, cur)) == Linked(b) - {cur} && ReachesOlder(UnlinkFirst(b, op, cur), n)
  {
    CopiedFrame(b, cur, b.heap[cur].next);
    CopiedFrame(b, cur, n);
    assert Linked(b) == {cur} + Reach(b.heap, b.heap[cur].next);
  }

  lemma UnlinkAfterLists(b: Bp, op: Op, prev: Id, cur: Id, n: Id)
    requires Shape(b) && cur in b.heap && prev in Linked(b) && b.heap[prev].next == cur
    requires n in b.heap && ReachesOlder(b, n)
    ensures Linked(UnlinkAfter(b, op, prev, cur)) == Linked(b) - {cur} && ReachesOlder(UnlinkAfter(b, op, prev, cur), n)
  {
    var b1 := UnlinkAfter(b, op, prev, cur);
    ReachUnlink(b.heap, b1.heap, prev, cur, b.head);
    ReachUnlink(b.heap, b1.heap, prev, cur, n);
  }

  /** Moving a node from the list to the free list keeps the heap accounted for. */
  lemma UnlinkAccounts(b: Bp, b1: Bp, cur: Id)
    requires HeapExact(b) && b.ctl.Consolidating? && b1.ctl.Consolidating?
    requires cur in Linked(b) && b1.heap.Keys == b.heap.Keys
    requires Linked(b1) == Linked(b) - {cur} && b1.freeList == b.freeList + {cur}
    requires b1.head == NULL || b1.head in b1.heap
    ensures HeapExact(b1)
  {
  }

  lemma UnlinkFirstLinks(b: Bp, op: Op, cur: Id)
    requires Shape(b) && Structure(b) && b.ctl == Consolidating(op, NULL, cur) && cur in b.heap
    ensures LinksStay(UnlinkFirst(b, op, cur)) && OlderReachable(UnlinkFirst(b, op, cur))
    ensures Linked(UnlinkFirst(b, op, cur)) == Linked(b) - {cur}
  {
    var b1 := UnlinkFirst(b, op, cur);
    forall n | n in b1.heap
      ensures LinkStays(b1, n) && ReachesOlder(b1, n)
    {
      assert LinkStays(b, n) && ReachesOlder(b, n);
      UnlinkFirstLists(b, op, cur, n);
    }
    assert ReachesOlder(b, cur);
    UnlinkFirstLists(b, op, cur, cur);
  }

  lemma UnlinkFirstStructure(b: Bp, op: Op, cur: Id)
    requires Shape(b) && Structure(b) && b.ctl == Consolidating(op, NULL, cur) && cur in b.heap
    ensures Shape(UnlinkFirst(b, op, cur)) && Structure(UnlinkFirst(b, op, cur))
    ensures Linked(UnlinkFirst(b, op, cur)) == Linked(b) - {cur}
  {
    assert LinkStays(b, cur);
    UnlinkFirstLinks(b, op, cur);
    UnlinkAccounts(b, UnlinkFirst(b, op, cur), cur);
  }

  lemma UnlinkFirstKeeps(b: Bp)
    requires BpInv(b) && b.ctl.Consolidating? && b.ctl.cur in b.heap && ActiveFlags(b, b.ctl.cur) == {}
    requires b.ctl.prev == NULL
    ensures BpInv(UnlinkFirst(b, b.ctl.op, b.ctl.cur))
  {
    var b1 := UnlinkFirst(b, b.ctl.op, b.ctl.cur);
    UnlinkFirstStructure(b, b.ctl.op, b.ctl.cur);
    forall n | n in Linked(b1)
      ensures DataAt(b1, n)
    {
      assert DataAt(b, n);
    }
    if b.code == Breakpoint {
      var m :| m in Linked(b) && ActiveFlags(b, m) != {};
      assert m in Linked(b1) && ActiveFlags(b1, m) != {};
    }
  }

  lemma UnlinkAfterLinks(b: Bp, op: Op, prev: Id, cur: Id)
    requires Shape(b) && Structure(b) && b.ctl == Consolidating(op, prev, cur) && cur in b.heap
    ensures prev != cur && prev in b.heap
    ensures LinksStay(UnlinkAfter(b, op, prev, cur)) && OlderReachable(UnlinkAfter(b, op, prev, cur))
    ensures Linked(UnlinkAfter(b, op, prev, cur)) == Linked(b) - {cur}
  {
    var b1 := UnlinkAfter(b, op, prev, cur);
    assert LinkStays(b, cur);
    forall n | n in b1.heap
      ensures LinkStays(b1, n) && ReachesOlder(b1, n)
    {
      assert LinkStays(b, n) && ReachesOlder(b, n);
      UnlinkAfterLists(b, op, prev, cur, n);
    }
    assert ReachesOlder(b, cur);
    UnlinkAfterLists(b, op, prev, cur, cur);
  }

  lemma UnlinkAfterShape(b: Bp, op: Op, prev: Id, cur: Id)
    requires Shape(b) && cur in b.heap && prev in b.heap && prev != cur && b.heap[prev].next == cur
    ensures Shape(UnlinkAfter(b, op, prev, cur))
  {
  }

  lemma UnlinkAfterStructure(b: Bp, op: Op, prev: Id, cur: Id)
    requires Shape(b) && Structure(b) && b.ctl == Consolidating(op, prev, cur) && cur in b.heap
    ensures prev != cur && prev in b.heap
    ensures Shape(UnlinkAfter(b, op, prev, cur)) && Structure(UnlinkAfter(b, op, prev, cur))
    ensures Linked(UnlinkAfter(b, op, prev, cur)) == Linked(b) - {cur}
  {
    assert LinkStays(b, cur);
    UnlinkAfterLinks(b, op, prev, cur);
    UnlinkAfterShape(b, op, prev, cur);
    UnlinkAccounts(b, UnlinkAfter(b, op, prev, cur), cur);
    if b.heap[cur].next in b.heap {
      NextIsLinked(b, cur);
    }
  }

  lemma UnlinkAfterKeeps(b: Bp)
    requires BpInv(b) && b.ctl.Consolidating? && b.ctl.cur in b.heap && ActiveFlags(b, b.ctl.cur) == {}
    requires b.ctl.prev != NULL
    ensures b.ctl.prev >= 0 && b.ctl.prev in b.heap && b.ctl.prev != b.ctl.cur
    ensures BpInv(UnlinkAfter(b, b.ctl.op, b.ctl.prev, b.ctl.cur))
  {
    UnlinkAfterStructure(b, b.ctl.op, b.ctl.prev, b.ctl.cur);
    var b1 := UnlinkAfter(b, b.ctl.op, b.ctl.prev, b.ctl.cur);
    assert ReachesOlder(b, b.ctl.cur);
    forall n | n in Linked(b1)
      ensures DataAt(b1, n)
    {
      assert DataAt(b, n);
    }
    if b.code == Breakpoint {
      var m :| m in Linked(b) && ActiveFlags(b, m) != {};
      assert m in Linked(b1) && ActiveFlags(b1, m) != {};
    }
  }

  lemma FreeLists(b: Bp, gone: Id, n: Id)
    requires Shape(b) && gone in b.heap && gone !in Linked(b) && n in Linked(b)
    requires LinkStays(b, n) && ReachesOlder(b, n)
    ensures n in DoFree(b, gone).heap && LinkStays(DoFree(b, gone), n)
    ensures Linked(DoFree(b, gone)) == Linked(b) && ReachesOlder(DoFree(b, gone), n)
  {
    var b1 := DoFree(b, gone);
    if b.heap[n].next in b.heap {
      NextIsLinked(b, n);
    }
    ReachTrans(b.heap, b.head, n);
    ReachFrame(b.heap, b1.heap, n);
    ReachFrame(b.heap, b1.heap, b.head);
  }

  lemma FreeStructure(b: Bp, gone: Id)
    requires Shape(b) && Structure(b) && b.ctl.Freeing? && gone in b.freeList
    ensures Structure(DoFree(b, gone)) && Linked(DoFree(b, gone)) == Linked(b)
  {
    var b1 := DoFree(b, gone);
    ReachFrame(b.heap, b1.heap, b.head);
    forall n | n in b1.heap && !Leaving(b1, n)
      ensures LinkStays(b1, n) && ReachesOlder(b1, n)
    {
      assert LinkStays(b, n) && ReachesOlder(b, n);
      FreeLists(b, gone, n);
    }
  }

  lemma FreeKeeps(b: Bp, gone: Id)
    requires BpInv(b) && b.ctl.Freeing? && gone in b.freeList
    ensures BpInv(DoFree(b, gone))
  {
    var b1 := DoFree(b, gone);
    FreeStructure(b, gone);
    forall n | n in Linked(b1)
      ensures DataAt(b1, n)
    {
      assert DataAt(b, n);
    }
  }

  lemma FinishKeeps(b: Bp)
    requires BpInv(b) && b.ctl.Freeing? && b.freeList == {}
    ensures BpInv(Done(b, Quiet, false))
  {
    var b1 := Done(b, Quiet, false);
    forall n | n in b1.heap
      ensures LinkStays(b1, n) && ReachesOlder(b1, n)
    {
      assert LinkStays(b, n) && ReachesOlder(b, n);
    }
    forall n | n in Linked(b1)
      ensures DataAt(b1, n)
    {
      assert DataAt(b, n);
    }
  }

  lemma StartFreeingKeeps(b: Bp)
    requires BpInv(b) && b.ctl.Wait? && b.ctl.k == 3
    ensures BpInv(b.(ctl := Freeing))
  {
    var b1 := b.(ctl := Freeing);
    forall n | n in b1.heap && !Leaving(b1, n)
      ensures LinkStays(b1, n) && ReachesOlder(b1, n)
    {
      assert LinkStays(b, n) && ReachesOlder(b, n);
    }
    forall n | n in Linked(b1)
      ensures DataAt(b1, n)
    {
      assert DataAt(b, n);
    }
  }
}
