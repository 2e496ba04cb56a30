/**
 What the staged breakpoint protocol is for: which flags each session has after any sequence of enable
 and disable operations, and which ones the schedulers see meanwhile.
 */
module BreakpointEffect {
  import opened BreakpointModel
  import opened BreakpointStaging

  // ---------------------------------------------------------------- what the operations ask for

  /** The flags of a session after one operation. */
  function Changed(op: Op, session: nat, flags: Flags): Flags {
    if !op.matched || op.session != session then flags
    else if op.enable then flags + op.flags
    else flags - op.flags
  }

  /** The flags of a session after all operations that have begun. */
  function Requested(steps: seq<Step>, session: nat): Flags {
    if steps == [] then {}
    else
      var rest, last := steps[..|steps| - 1], steps[|steps| - 1];
      if last.Begin? then Changed(last.op, session, Requested(rest, session)) else Requested(rest, session)
  }

  /** The steps before the last operation began. */
  function BeforeLast(steps: seq<Step>): seq<Step> {
    if steps == [] || steps[|steps| - 1].Begin? then steps[..if steps == [] then 0 else |steps| - 1]
    else BeforeLast(steps[..|steps| - 1])
  }

  // ---------------------------------------------------------------- what the nodes hold

  /** The operation has begun but its flags have not been committed. */
  predicate Uncommitted(b: Bp) {
    b.ctl.Wait? && b.ctl.k < if b.ctl.op.enable then 2 else 1
  }

  /** Nodes that are linked or about to be. */
  function InUse(b: Bp): set<Id> {
    b.heap.Keys - b.freeList
  }

  predicate SameSession(b: Bp, n: Id, m: Id)
    requires n in b.heap && m in b.heap
  {
    b.heap[n].session == b.heap[m].session
  }

  /** A session has at most one node. */
  predicate Distinct(b: Bp) {
    forall n, m :: n in InUse(b) && m in InUse(b) && SameSession(b, n, m) ==> n == m
  }

  ghost predicate HasNode(b: Bp, session: nat) {
    exists n :: n in InUse(b) && b.heap[n].session == session
  }

  /** One half of the session's node has these flags; without a node, there are none. */
  ghost predicate Holds(b: Bp, ix: int, session: nat, flags: Flags)
    requires Shape(b) && 0 <= ix < 2
  {
    && (forall n :: n in InUse(b) && b.heap[n].session == session ==> b.heap[n].data[ix] == flags)
    && (flags != {} ==> HasNode(b, session))
  }

  /** The flags the session has, and those it is about to have. */
  ghost predicate Ledger(b: Bp, session: nat, before: Flags, flags: Flags)
    requires Shape(b)
  {
    if Uncommitted(b) then Holds(b, b.activeIx, session, before) && Holds(b, Staging(b), session, flags)
    else Holds(b, b.activeIx, session, flags)
  }

  lemma {:induction false} FindExact(heap: map<Id, Node>, p: int, session: nat)
    requires Ordered(heap)
    ensures var g := Find(heap, p, session);
      && (g in heap ==> g in Reach(heap, p) && heap[g].session == session)
      && (g !in heap ==> forall n :: n in Reach(heap, p) ==> heap[n].session != session)
    decreases p
  {
    if p in heap && p >= 0 && heap[p].session != session && heap[p].next != NULL {
      FindExact(heap, heap[p].next, session);
    }
  }

  /** Between operations, the nodes in use are the linked ones, with equal halves. */
  lemma QuietNodes(b: Bp)
    requires BpInv(b) && b.ctl.Quiet?
    ensures InUse(b) == Linked(b) == b.heap.Keys
    ensures forall n :: n in b.heap ==> b.heap[n].data[0] == b.heap[n].data[1] != {}
  {
    forall n | n in b.heap
      ensures b.heap[n].data[0] == b.heap[n].data[1] != {}
    {
      assert DataAt(b, n);
    }
  }

  lemma QuietFree(b: Bp)
    requires BpInv(b) && b.ctl.Quiet?
    ensures b.freeList == {}
  {
  }

  // ---------------------------------------------------------------- the steps

  lemma StageFrame(b: Bp, op: Op, g: Id)
    requires Shape(b) && g in b.heap
    ensures
      var b1 := StageFlags(b, op, g);
      && InUse(b1) == InUse(b) && b1.activeIx == b.activeIx && b1.ctl == Wait(op, 0)
      && (forall n :: n in InUse(b) ==> b1.heap[n].session == b.heap[n].session)
      && (forall n :: n in InUse(b) && n != g ==> b1.heap[n].data == b.heap[n].data)
      && |b1.heap[g].data| == 2 && b1.heap[g].data[b.activeIx] == b.heap[g].data[b.activeIx]
      && b1.heap[g].data[Staging(b)] ==
           if op.enable then b.heap[g].data[Staging(b)] + op.flags else b.heap[g].data[Staging(b)] - op.flags
  {
  }

  lemma OneNode(b: Bp, n: Id, m: Id)
    requires Distinct(b) && n in InUse(b) && m in InUse(b) && SameSession(b, n, m)
    ensures n == m
  {
  }

  lemma IsNode(b: Bp, n: Id)
    requires n in InUse(b)
    ensures HasNode(b, b.heap[n].session)
  {
  }

  lemma StageEffect(b: Bp, op: Op, g: Id, session: nat, flags: Flags)
    requires Shape(b) && b.ctl.Quiet? && op.matched && Distinct(b)
    requires g in InUse(b) && b.heap[g].session == op.session && Shape(StageFlags(b, op, g))
    requires Holds(b, 0, session, flags) && Holds(b, 1, session, flags)
    ensures Distinct(StageFlags(b, op, g))
    ensures Ledger(StageFlags(b, op, g), session, flags, Changed(op, session, flags))
  {
    hide StageFlags, HasNode, Distinct;
    var b1 := StageFlags(b, op, g);
    StageFrame(b, op, g);
    SameNodes(b, b1, session);
    forall n | n in InUse(b) && b.heap[n].session == session
      ensures n == g <==> session == op.session
    {
      if session == op.session {
        OneNode(b, n, g);
      }
    }
    if session == op.session {
      IsNode(b, g);
    }
  }

  /** A new node in front of the others, or alone. */
  lemma AddEffect(b: Bp, b1: Bp, op: Op, session: nat, flags: Flags)
    requires Shape(b) && Shape(b1) && b.ctl.Quiet? && op.matched && op.enable && Distinct(b)
    requires forall n :: n in InUse(b) ==> b.heap[n].session != op.session
    requires Holds(b, 0, session, flags) && Holds(b, 1, session, flags)
    requires b.nextId !in b.heap && b1.heap.Keys == b.heap.Keys + {b.nextId} && b1.freeList == b.freeList == {}
    requires forall n :: n in b.heap ==> b1.heap[n].session == b.heap[n].session && b1.heap[n].data == b.heap[n].data
    requires b1.heap[b.nextId].session == op.session && b1.heap[b.nextId].data == FreshData(b, op)
    requires b1.ctl == Wait(op, 0) && b1.activeIx == b.activeIx
    ensures Distinct(b1) && Ledger(b1, session, flags, Changed(op, session, flags))
  {
    assert InUse(b1) == InUse(b) + {b.nextId};
    if session == op.session {
      assert !HasNode(b, session);
      assert b.nextId in InUse(b1) && b1.heap[b.nextId].session == session;
    } else if HasNode(b, session) {
      var n :| n in InUse(b) && b.heap[n].session == session;
      assert n in InUse(b1) && b1.heap[n].session == session;
    }
  }

  lemma SameNodes(b: Bp, b1: Bp, session: nat)
    requires Shape(b) && Shape(b1) && InUse(b1) == InUse(b)
    requires forall n :: n in InUse(b) ==> b1.heap[n].session == b.heap[n].session
    ensures Distinct(b) ==> Distinct(b1)
    ensures HasNode(b1, session) <==> HasNode(b, session)
  {
    if HasNode(b, session) {
      var n :| n in InUse(b) && b.heap[n].session == session;
      assert n in InUse(b1) && b1.heap[n].session == session;
    }
  }

  lemma ElsewhereEffect(b: Bp, op: Op, session: nat, flags: Flags)
    requires Shape(b) && b.ctl.Quiet? && Distinct(b)
    requires !op.matched || (!op.enable && forall n :: n in InUse(b) ==> b.heap[n].session != op.session)
    requires Holds(b, 0, session, flags) && Holds(b, 1, session, flags)
    ensures var b1 := b.(ctl := Wait(op, 0)); Distinct(b1) && Ledger(b1, session, flags, Changed(op, session, flags))
  {
    var b1 := b.(ctl := Wait(op, 0));
    SameNodes(b, b1, session);
    if op.matched && session == op.session {
      assert !HasNode(b, session);
    }
  }

  lemma BeginEffect(b: Bp, op: Op, session: nat, flags: Flags)
    requires Shape(b) && BpInv(b) && b.ctl.Quiet? && op.flags != {} && Distinct(b) && Shape(DoBegin(b, op))
    requires Holds(b, b.activeIx, session, flags)
    ensures Distinct(DoBegin(b, op)) && Ledger(DoBegin(b, op), session, flags, Changed(op, session, flags))
  {
    QuietNodes(b);
    FindExact(b.heap, b.head, op.session);
    QuietFree(b);
    hide Linked, Find, Distinct, Ledger, BpInv, StageFlags, AddNext, AddFirst, FreshData;
    var g := Find(b.heap, b.head, op.session);
    if !op.matched {
      ElsewhereEffect(b, op, session, flags);
    } else if g in b.heap {
      StageEffect(b, op, g, session, flags);
    } else if !op.enable {
      ElsewhereEffect(b, op, session, flags);
    } else {
      AddFrame(b, op);
      AddEffect(b, DoBegin(b, op), op, session, flags);
    }
  }

  lemma AddFrame(b: Bp, op: Op)
    requires Shape(b) && op.matched && op.enable && Find(b.heap, b.head, op.session) !in b.heap
    ensures
      var b1 := DoBegin(b, op);
      && b.nextId !in b.heap && b1.heap.Keys == b.heap.Keys + {b.nextId} && b1.freeList == b.freeList
      && (forall n :: n in b.heap ==> b1.heap[n].session == b.heap[n].session && b1.heap[n].data == b.heap[n].data)
      && b1.heap[b.nextId].session == op.session && b1.heap[b.nextId].data == FreshData(b, op)
      && b1.ctl == Wait(op, 0) && b1.activeIx == b.activeIx
  {
    hide Find;
  }

  /** Stages that change no flags and take no node out of use. */
  lemma PlainEffect(b: Bp, b1: Bp, session: nat, before: Flags, flags: Flags)
    requires Shape(b) && Shape(b1) && SameData(b, b1)
    requires b1.activeIx == (if Uncommitted(b) && !Uncommitted(b1) then Staging(b) else b.activeIx)
    requires Uncommitted(b1) ==> Uncommitted(b)
    requires Ledger(b, session, before, flags)
    ensures Distinct(b) ==> Distinct(b1)
    ensures Ledger(b1, session, before, flags)
  {
    SameNodes(b, b1, session);
  }

  lemma KeepEffect(b: Bp, cur: Id, session: nat, before: Flags, flags: Flags)
    requires Shape(b) && b.ctl.Consolidating? && cur in b.heap
    requires Ledger(b, session, before, flags) && Shape(KeepNode(b, b.ctl.op, cur))
    ensures Distinct(b) ==> Distinct(KeepNode(b, b.ctl.op, cur))
    ensures Ledger(KeepNode(b, b.ctl.op, cur), session, before, flags)
  {
    SameNodes(b, KeepNode(b, b.ctl.op, cur), session);
  }

  /** A node with no active flags goes out of use. */
  lemma UnlinkEffect(b: Bp, b1: Bp, cur: Id, session: nat, before: Flags, flags: Flags)
    requires Shape(b) && Shape(b1) && b.ctl.Consolidating? && b1.ctl.Consolidating? && b1.activeIx == b.activeIx
    requires cur in b.heap && ActiveFlags(b, cur) == {} && Ledger(b, session, before, flags)
    requires b1.heap.Keys == b.heap.Keys && b1.freeList == b.freeList + {cur}
    requires forall n :: n in b.heap ==> b1.heap[n].session == b.heap[n].session
    requires forall n :: n in b.heap ==> ActiveFlags(b1, n) == ActiveFlags(b, n)
    ensures Distinct(b) ==> Distinct(b1)
    ensures Ledger(b1, session, before, flags)
  {
    assert InUse(b1) == InUse(b) - {cur};
    if flags != {} {
      var n :| n in InUse(b) && b.heap[n].session == session;
      assert n in InUse(b1) && b1.heap[n].session == session;
    }
  }

  lemma ConsolidateEffect(b: Bp, session: nat, before: Flags, flags: Flags)
    requires Shape(b) && b.ctl.Consolidating? && Distinct(b) && Ledger(b, session, before, flags)
    requires Shape(DoConsolidate(b))
    ensures Distinct(DoConsolidate(b)) && Ledger(DoConsolidate(b), session, before, flags)
  {
    hide Distinct, Ledger;
    var op, prev, cur := b.ctl.op, b.ctl.prev, b.ctl.cur;
    if cur !in b.heap {
      PlainEffect(b, DoConsolidate(b), session, before, flags);
    } else if ActiveFlags(b, cur) != {} {
      KeepEffect(b, cur, session, before, flags);
    } else {
      UnlinkEffect(b, DoConsolidate(b), cur, session, before, flags);
    }
  }

  /** Same nodes in use, with the same sessions and flags. */
  predicate SameData(b: Bp, b1: Bp) {
    && InUse(b1) == InUse(b)
    && forall n :: n in InUse(b) ==> b1.heap[n].session == b.heap[n].session && b1.heap[n].data == b.heap[n].data
  }

  lemma InstallFrame(b: Bp, op: Op)
    requires Shape(b)
    ensures var b1 := DoInstall(b, op); SameData(b, b1) && b1.activeIx == b.activeIx && b1.ctl == Wait(op, 1)
  {
  }

  lemma ControlFrame(b: Bp)
    requires BpInv(b) && !b.ctl.Quiet? && !b.ctl.Consolidating?
    ensures
      var b1 := DoControl(b);
      && SameData(b, b1) && (Uncommitted(b1) ==> Uncommitted(b))
      && b1.activeIx == if Uncommitted(b) && !Uncommitted(b1) then Staging(b) else b.activeIx
  {
    hide Structure, DataStaged, CodeStaged, ToInsertSet, DoInstall, Shape;
    if b.ctl.Wait? && b.ctl.k == 0 && b.ctl.op.enable {
      InstallFrame(b, b.ctl.op);
    }
  }

  lemma ConsolidateControl(b: Bp)
    requires Shape(b) && b.ctl.Consolidating?
    ensures DoControl(b) == DoConsolidate(b)
  {
    hide DoConsolidate;
  }

  lemma ControlEffect(b: Bp, session: nat, before: Flags, flags: Flags)
    requires Shape(b) && BpInv(b) && !b.ctl.Quiet? && Distinct(b) && Ledger(b, session, before, flags)
    requires Shape(DoControl(b))
    ensures Distinct(DoControl(b)) && Ledger(DoControl(b), session, before, flags)
  {
    hide Distinct, Ledger, BpInv, DoControl;
    if b.ctl.Consolidating? {
      ConsolidateControl(b);
      ConsolidateEffect(b, session, before, flags);
    } else {
      ControlFrame(b);
      PlainEffect(b, DoControl(b), session, before, flags);
    }
  }

  lemma FreeEffect(b: Bp, n: Id, session: nat, before: Flags, flags: Flags)
    requires Shape(b) && b.ctl.Freeing? && n in b.freeList && Distinct(b) && Ledger(b, session, before, flags)
    requires Shape(DoFree(b, n))
    ensures Distinct(DoFree(b, n)) && Ledger(DoFree(b, n), session, before, flags)
  {
    assert InUse(DoFree(b, n)) == InUse(b);
    PlainEffect(b, DoFree(b, n), session, before, flags);
  }

  // ---------------------------------------------------------------- runs

  ghost predicate TakenAt(run: seq<State>, steps: seq<Step>, i: int)
    requires 0 <= i < |run| - 1 == |steps|
  {
    var s := run[i];
    Shape(s.b) && Enabled(s, steps[i]) && Safe(s, steps[i]) && run[i + 1] == Apply(s, steps[i])
  }

  /** A run together with the steps that were taken. */
  ghost predicate IsRunBy(run: seq<State>, steps: seq<Step>, walkers: nat, orig: Instr) {
    && orig.Plain? && |run| == |steps| + 1 && run[0] == Init(walkers, orig)
    && forall i :: 0 <= i < |run| - 1 ==> TakenAt(run, steps, i)
  }

  lemma RunOf(run: seq<State>, steps: seq<Step>, walkers: nat, orig: Instr)
    requires IsRunBy(run, steps, walkers, orig)
    ensures IsRun(run, walkers, orig)
  {
    hide Shape, Enabled, Safe, Apply;
    forall i | 0 <= i < |run| - 1
      ensures FollowsAt(run, i)
    {
      assert TakenAt(run, steps, i);
    }
  }

  lemma StepEffect(s: State, step: Step, session: nat, before: Flags, flags: Flags)
    requires Inv(s) && Enabled(s, step) && Safe(s, step) && Inv(Apply(s, step))
    requires Distinct(s.b) && Ledger(s.b, session, before, flags)
    ensures Distinct(Apply(s, step).b)
    ensures
      if step.Begin? then Ledger(Apply(s, step).b, session, flags, Changed(step.op, session, flags))
      else Ledger(Apply(s, step).b, session, before, flags)
  {
    hide Distinct, Holds, Changed, Structure, ToInsertSet, DataStaged, CodeStaged, WalkerOk, DoBegin, DoControl, DoFree;
    match step
    case Begin(op) => BeginEffect(s.b, op, session, flags);
    case Control => ControlEffect(s.b, session, before, flags);
    case Free(n) => FreeEffect(s.b, n, session, before, flags);
    case _ =>
  }

  lemma {:induction false} RunsKeepLedger(run: seq<State>, steps: seq<Step>, walkers: nat, orig: Instr, k: nat,
                                          session: nat)
    requires IsRunBy(run, steps, walkers, orig) && k < |run|
    ensures Inv(run[k]) && Distinct(run[k].b)
    ensures Ledger(run[k].b, session, Requested(BeforeLast(steps[..k]), session), Requested(steps[..k], session))
  {
    hide Inv, Enabled, Safe, Apply, Distinct, Ledger, Changed;
    RunOf(run, steps, walkers, orig);
    RunsKeepInv(run, walkers, orig, k);
    if k == 0 {
      FirstLedger(walkers, orig, session);
    } else {
      RunsKeepLedger(run, steps, walkers, orig, k - 1, session);
      assert TakenAt(run, steps, k - 1);
      var done := steps[..k - 1];
      StepEffect(run[k - 1], steps[k - 1], session, Requested(BeforeLast(done), session), Requested(done, session));
      assert steps[..k][..k - 1] == done && steps[..k][k - 1] == steps[k - 1];
    }
  }

  lemma FirstLedger(walkers: nat, orig: Instr, session: nat)
    requires orig.Plain?
    ensures Distinct(Init(walkers, orig).b) && Ledger(Init(walkers, orig).b, session, {}, {})
  {
  }

  // ---------------------------------------------------------------- the flags of a session

  /** The flags a scheduler finds for a session, read off its linked node. */
  function FlagsOf(b: Bp, session: nat): Flags
    requires Shape(b)
  {
    var g := Find(b.heap, b.head, session);
    if g in b.heap then ActiveFlags(b, g) else {}
  }

  /** The steps whose operations have been committed. */
  function Committed(b: Bp, steps: seq<Step>): seq<Step> {
    if Uncommitted(b) then BeforeLast(steps) else steps
  }

  lemma PendingHasNone(b: Bp, n: Id)
    requires BpInv(b) && n in InUse(b) && n !in Linked(b)
    ensures ActiveFlags(b, n) == {}
  {
  }

  lemma HeldIsFound(b: Bp, session: nat, flags: Flags)
    requires BpInv(b) && Holds(b, b.activeIx, session, flags)
    ensures FlagsOf(b, session) == flags
    ensures forall n :: n in Linked(b) && b.heap[n].session == session ==> ActiveFlags(b, n) == flags
  {
    FindExact(b.heap, b.head, session);
    assert Linked(b) <= InUse(b);
    forall n | n in InUse(b) && n !in Linked(b)
      ensures ActiveFlags(b, n) == {}
    {
      PendingHasNone(b, n);
    }
    hide Find, BpInv;
  }

  /**
   In every state of every run, each session has at most one linked node, and its active flags are
   what the committed operations have asked for, in their order: an operation takes effect for all
   schedulers and at once, whatever stage it has reached.
   */
  lemma SessionsHaveTheirFlags(run: seq<State>, steps: seq<Step>, walkers: nat, orig: Instr, k: nat, session: nat)
    requires IsRunBy(run, steps, walkers, orig) && k < |run|
    ensures Shape(run[k].b)
    ensures forall n, m :: n in Linked(run[k].b) && m in Linked(run[k].b) && SameSession(run[k].b, n, m) ==> n == m
    ensures FlagsOf(run[k].b, session) == Requested(Committed(run[k].b, steps[..k]), session)
    ensures forall n :: n in Linked(run[k].b) && run[k].b.heap[n].session == session ==>
      ActiveFlags(run[k].b, n) == Requested(Committed(run[k].b, steps[..k]), session)
  {
    RunsKeepLedger(run, steps, walkers, orig, k, session);
    HeldIsFound(run[k].b, session, Requested(Committed(run[k].b, steps[..k]), session));
    assert Linked(run[k].b) <= InUse(run[k].b);
  }

  lemma {:induction false} NothingRequested(steps: seq<Step>, i: nat, session: nat)
    requires i <= |steps| && forall j :: i <= j < |steps| ==> !steps[j].Begin?
    ensures Requested(steps, session) == Requested(steps[..i], session)
  {
    if i < |steps| {
      NothingRequested(steps[..|steps| - 1], i, session);
      assert steps[..|steps| - 1][..i] == steps[..i];
    } else {
      assert steps[..i] == steps;
    }
  }

  /**
   One whole operation: from between operations to the next time there is none. The session it names
   has its flags plus or minus the given ones, if this function is concerned; all other sessions have
   the flags they had.
   */
  lemma OperationEffect(run: seq<State>, steps: seq<Step>, walkers: nat, orig: Instr, i: nat, j: nat, session: nat)
    requires IsRunBy(run, steps, walkers, orig) && i < j < |run| && run[i].b.ctl.Quiet? && run[j].b.ctl.Quiet?
    requires steps[i].Begin? && forall m :: i < m < j ==> !steps[m].Begin?
    ensures Shape(run[i].b) && Shape(run[j].b)
    ensures
      var op, was, is_ := steps[i].op, FlagsOf(run[i].b, session), FlagsOf(run[j].b, session);
      is_ == if !op.matched || op.session != session then was else if op.enable then was + op.flags else was - op.flags
  {
    SessionsHaveTheirFlags(run, steps, walkers, orig, i, session);
    SessionsHaveTheirFlags(run, steps, walkers, orig, j, session);
    NothingRequested(steps[..j], i + 1, session);
    assert steps[..j][..i + 1] == steps[..i + 1] && steps[..i + 1][..i] == steps[..i];
  }
}
