/**
 The staged breakpoint protocol: a function's list of session breakpoints is read by schedulers
 without locks while it is being updated in stages that are separated by code barriers.

 One function is modelled, together with the global active index. Operations that match other
 functions appear as operations that do not match this one: all they do here is flip the index.
 Node identities grow with time, so links always lead from newer to older nodes.
 */
module BreakpointModel {

  type Id = nat
  type Flags = set<nat>

  const NULL: int := -1

  datatype Instr = Breakpoint | Plain(code: nat)

  datatype Node = Node(session: nat, orig: Instr, next: int, toInsert: int, data: seq<Flags>)

  /** An enable or disable operation; `matched` says whether it concerns this function. */
  datatype Op = Op(enable: bool, matched: bool, session: nat, flags: Flags)

  /** Where the updating process stands. */
  datatype Ctl =
    | Quiet
    | Wait(op: Op, k: nat)                          // the barrier before stage k
    | Consolidating(op: Op, prev: int, cur: int)    // in the loop of stage 2
    | Freeing                                       // in the loop of stage 3

  /** Where a scheduler stands in `erts_generic_breakpoint`. */
  datatype Walker =
    | Outside
    | Entered                                       // has fetched the breakpoint instruction
    | At(pos: int, visited: set<Id>)                // the loop variable
    | Using(pos: int, ix: nat, visited: set<Id>)    // has read the active index, looks at that half
    | Skipping                                      // sensitive process: goes straight to the return

  /** The breakpoint as the updating process sees it. */
  datatype Bp = Bp(
    heap: map<Id, Node>,
    nextId: Id,
    head: int,                 // ci->gen_bp
    code: Instr,               // the function's first instruction
    stale: bool,               // a scheduler may still see the breakpoint that was just removed
    activeIx: nat,
    freeList: set<Id>,         // breakpoint_free_list
    count: int,                // this function's share of num_breakpoints
    ctl: Ctl,
    orig: Instr                // the function's own first instruction
  )

  datatype State = State(
    b: Bp,
    acked: set<nat>,           // schedulers that have run the barrier since the last stage
    walkers: seq<Walker>
  )

  datatype Step =
    | Fetch(t: nat) | ReadHead(t: nat) | Skip(t: nat) | Capture(t: nat) | Advance(t: nat) | Return(t: nat)
    | Ack(t: nat)
    | Begin(op: Op)
    | Control
    | Free(n: Id)

  // ---------------------------------------------------------------- the list

  /** The nodes reached from `p` by following `next`. */
  function Reach(heap: map<Id, Node>, p: int): (r: set<Id>)
    ensures forall n :: n in r ==> n <= p && n in heap
    decreases if p < 0 then 0 else p + 1
  {
    if p < 0 || p !in heap then {}
    else if heap[p].next >= p then {p}
    else {p} + Reach(heap, heap[p].next)
  }

  function Linked(b: Bp): set<Id> {
    Reach(b.heap, b.head)
  }

  /** `get_bp_session` on the linked list. */
  function Find(heap: map<Id, Node>, p: int, session: nat): int
    decreases if p < 0 then 0 else p + 1
  {
    if p < 0 || p !in heap then NULL
    else if heap[p].session == session then p
    else if heap[p].next >= p then NULL
    else Find(heap, heap[p].next, session)
  }

  function Staging(b: Bp): int {
    1 - b.activeIx
  }

  // ---------------------------------------------------------------- steps

  predicate Shape(b: Bp) {
    && b.activeIx < 2
    && (forall n :: n in b.heap ==>
          |b.heap[n].data| == 2 && NULL <= b.heap[n].next < n < b.nextId && b.heap[n].orig == b.orig)
    && b.orig.Plain? && (b.code == Breakpoint || b.code == b.orig)
    && NULL <= b.head < b.nextId
  }

  function Init(walkers: nat, orig: Instr): State {
    State(Bp(map[], 0, NULL, orig, false, 0, {}, 0, Quiet, orig), {}, seq(walkers, _ => Outside))
  }

  predicate Enabled(s: State, step: Step) {
    match step
    case Fetch(t) =>
      t < |s.walkers| && s.walkers[t].Outside? && (s.b.code == Breakpoint || (s.b.stale && t !in s.acked))
    case ReadHead(t) => t < |s.walkers| && s.walkers[t].Entered?
    case Skip(t) => t < |s.walkers| && s.walkers[t].Entered?
    case Capture(t) => t < |s.walkers| && s.walkers[t].At? && s.walkers[t].pos != NULL
    case Advance(t) => t < |s.walkers| && s.walkers[t].Using?
    case Return(t) =>
      t < |s.walkers| && (s.walkers[t].Skipping? || (s.walkers[t].At? && s.walkers[t].pos == NULL))
    case Ack(t) => t < |s.walkers| && s.walkers[t].Outside?
    case Begin(op) => s.b.ctl.Quiet? && op.flags != {}
    case Control =>
      && !s.b.ctl.Quiet?
      && (s.b.ctl.Wait? ==> forall t: nat :: t < |s.walkers| ==> t in s.acked)
      && (s.b.ctl.Freeing? ==> s.b.freeList == {})
    case Free(n) => s.b.ctl.Freeing? && n in s.b.freeList
  }

  /** The step does not follow a pointer that is NULL or points to a freed node. */
  predicate Safe(s: State, step: Step) {
    match step
    case ReadHead(t) => s.b.head in s.b.heap
    case Return(t) => s.b.head in s.b.heap
    case Capture(t) => t < |s.walkers| && s.walkers[t].At? && s.walkers[t].pos in s.b.heap
    case Advance(t) => t < |s.walkers| && s.walkers[t].Using? && s.walkers[t].pos in s.b.heap
    case Control => ControlSafe(s.b)
    case Free(n) => n in s.b.heap
    case _ => true
  }

  predicate ControlSafe(b: Bp) {
    match b.ctl
    case Consolidating(_, prev, cur) => (prev == NULL || prev in b.heap) && (cur == NULL || cur in b.heap)
    case _ => b.head == NULL || b.head in b.heap
  }

  function SetData(node: Node, ix: int, flags: Flags): Node
    requires 0 <= ix < |node.data|
  {
    node.(data := node.data[ix := flags])
  }

  /** The session has a breakpoint: change its staging half. */
  function StageFlags(b: Bp, op: Op, g: Id): Bp
    requires Shape(b) && g in b.heap
  {
    var now := b.heap[g].data[Staging(b)];
    var flags := if op.enable then now + op.flags else now - op.flags;
    b.(ctl := Wait(op, 0), heap := b.heap[g := SetData(b.heap[g], Staging(b), flags)])
  }

  function FreshData(b: Bp, op: Op): seq<Flags>
    requires Shape(b)
  {
    [{}, {}][Staging(b) := op.flags]
  }

  /** The function's first breakpoint: its node becomes the list. */
  function AddFirst(b: Bp, op: Op): Bp
    requires Shape(b)
  {
    b.(ctl := Wait(op, 0), heap := b.heap[b.nextId := Node(op.session, b.code, NULL, NULL, FreshData(b, op))],
       head := b.nextId, nextId := b.nextId + 1)
  }

  /** A further session: its node is prepared for being linked first in the list. */
  function AddNext(b: Bp, op: Op): Bp
    requires Shape(b) && b.head in b.heap
  {
    b.(ctl := Wait(op, 0),
       heap := b.heap[b.head := b.heap[b.head].(toInsert := b.nextId)]
                     [b.nextId := Node(op.session, b.heap[b.head].orig, b.head, NULL, FreshData(b, op))],
       nextId := b.nextId + 1)
  }

  /** `set_function_break` for an enable, `clear_function_break` for a disable. */
  function DoBegin(b: Bp, op: Op): Bp
    requires Shape(b)
  {
    var g := Find(b.heap, b.head, op.session);
    if !op.matched then b.(ctl := Wait(op, 0))
    else if g in b.heap then StageFlags(b, op, g)
    else if !op.enable then b.(ctl := Wait(op, 0))
    else if b.head in b.heap then AddNext(b, op)
    else AddFirst(b, op)
  }

  /** Stage done: every scheduler has to run the barrier again. */
  function Done(b: Bp, ctl: Ctl, stale: bool): Bp {
    b.(ctl := ctl, stale := stale)
  }

  function DoCommit(b: Bp, ctl: Ctl): Bp
    requires b.activeIx < 2
  {
    Done(b, ctl, false).(activeIx := Staging(b))
  }

  function DoInstall(b: Bp, op: Op): Bp {
    var b0 := Done(b, Wait(op, 1), false);
    if !op.matched || b.head !in b.heap then b0
    else
      var b1 := if b.code == Breakpoint then b0 else b0.(code := Breakpoint, count := b.count + 1);
      var g := b.heap[b.head].toInsert;
      if g == NULL then b1
      else b1.(head := g, heap := b.heap[b.head := b.heap[b.head].(toInsert := NULL)])
  }

  function ActiveFlags(b: Bp, n: Id): Flags
    requires Shape(b) && n in b.heap
  {
    b.heap[n].data[b.activeIx]
  }

  /** `erts_sum_all_session_flags` is zero. */
  predicate AllDisabled(b: Bp)
    requires Shape(b)
  {
    forall n :: n in Linked(b) ==> ActiveFlags(b, n) == {}
  }

  function DoUninstall(b: Bp, op: Op): Bp
    requires Shape(b)
  {
    if op.matched && b.code == Breakpoint && b.head in b.heap && AllDisabled(b) then
      Done(b, Wait(op, 2), true).(code := b.heap[b.head].orig)
    else Done(b, Wait(op, 2), false)
  }

  /** The heap after `consolidate_bp_data_session` on one node: both halves are as the active one. */
  function Copied(b: Bp, cur: Id): map<Id, Node>
    requires Shape(b) && cur in b.heap
  {
    b.heap[cur := SetData(b.heap[cur], Staging(b), ActiveFlags(b, cur))]
  }

  /** The node under `cur` stays. */
  function KeepNode(b: Bp, op: Op, cur: Id): Bp
    requires Shape(b) && cur in b.heap
  {
    b.(heap := Copied(b, cur), ctl := Consolidating(op, cur, b.heap[cur].next))
  }

  /** The node under `cur` is disabled, and `prev` is the node before it. */
  function UnlinkAfter(b: Bp, op: Op, prev: Id, cur: Id): Bp
    requires Shape(b) && cur in b.heap && prev in b.heap && prev != cur
  {
    b.(heap := Copied(b, cur)[prev := b.heap[prev].(next := b.heap[cur].next)],
       freeList := b.freeList + {cur}, ctl := Consolidating(op, prev, b.heap[cur].next))
  }

  /** The node under `cur` is disabled, and it is the first one. */
  function UnlinkFirst(b: Bp, op: Op, cur: Id): Bp
    requires Shape(b) && cur in b.heap
  {
    b.(heap := Copied(b, cur), head := b.heap[cur].next,
       freeList := b.freeList + {cur}, ctl := Consolidating(op, NULL, b.heap[cur].next))
  }

  /** One round of the loop in `consolidate_bp_data`, or its end. */
  function DoConsolidate(b: Bp): Bp
    requires Shape(b) && b.ctl.Consolidating?
  {
    var Consolidating(op, prev, cur) := b.ctl;
    if cur !in b.heap then
      Done(b, Wait(op, 3), false).(count := if b.head == NULL then b.count - 1 else b.count)
    else if ActiveFlags(b, cur) != {} then KeepNode(b, op, cur)
    else if prev in b.heap && prev != cur then UnlinkAfter(b, op, prev, cur)
    else UnlinkFirst(b, op, cur)
  }

  function StartConsolidating(b: Bp, op: Op): Bp {
    b.(ctl := Consolidating(op, NULL, b.head), stale := false)
  }

  /** One step of `debug_bp_finisher`. */
  function DoControl(b: Bp): Bp
    requires Shape(b)
  {
    match b.ctl
    case Quiet => b
    case Wait(op, k) =>
      if k == 0 then (if op.enable then DoInstall(b, op) else DoCommit(b, Wait(op, 1)))
      else if k == 1 then (if op.enable then DoCommit(b, Wait(op, 2)) else DoUninstall(b, op))
      else if k == 2 then
        (if op.matched && b.head != NULL then StartConsolidating(b, op)
         else Done(b, Wait(op, 3), false))
      else b.(ctl := Freeing)
    case Consolidating(_, _, _) => DoConsolidate(b)
    case Freeing => Done(b, Quiet, false)
  }

  /** One round of the loop in `erts_free_breakpoints`. */
  function DoFree(b: Bp, n: Id): Bp {
    b.(heap := b.heap - {n}, freeList := b.freeList - {n})
  }

  function Move(s: State, t: nat, w: Walker): State
    requires t < |s.walkers|
  {
    s.(walkers := s.walkers[t := w])
  }

  /** A finished stage makes every scheduler run the barrier again. */
  function After(s: State, b1: Bp): State {
    State(b1, if b1.ctl.Wait? || b1.ctl.Quiet? then {} else s.acked, s.walkers)
  }

  function Apply(s: State, step: Step): State
    requires Shape(s.b) && Enabled(s, step) && Safe(s, step)
  {
    match step
    case Fetch(t) => Move(s, t, Entered)
    case ReadHead(t) => Move(s, t, At(s.b.head, {}))
    case Skip(t) => Move(s, t, Skipping)
    case Capture(t) => Move(s, t, Using(s.walkers[t].pos, s.b.activeIx, s.walkers[t].visited))
    case Advance(t) =>
      Move(s, t, At(s.b.heap[s.walkers[t].pos].next, s.walkers[t].visited + {s.walkers[t].pos}))
    case Return(t) => Move(s, t, Outside)
    case Ack(t) => s.(acked := s.acked + {t})
    case Begin(op) => After(s, DoBegin(s.b, op))
    case Control => After(s, DoControl(s.b))
    case Free(n) => s.(b := DoFree(s.b, n))
  }

  /** The instruction the scheduler goes on with. */
  function Returned(b: Bp): Instr
    requires b.head in b.heap
  {
    b.heap[b.head].orig
  }

  // ---------------------------------------------------------------- invariant

  predicate Enable(b: Bp, k: nat) { b.ctl.Wait? && b.ctl.op.matched && b.ctl.op.enable && b.ctl.k == k }

  predicate Disable(b: Bp, k: nat) { b.ctl.Wait? && b.ctl.op.matched && !b.ctl.op.enable && b.ctl.k == k }

  /** The barrier after the index flip has not been passed yet. */
  predicate JustCommitted(b: Bp) {
    b.ctl.Wait? && b.ctl.k == (if b.ctl.op.enable then 2 else 1)
  }

  /** The new node of an enable that is not linked yet, if there is one. */
  function Pending(b: Bp): set<Id> {
    if Enable(b, 0) && b.head in b.heap && b.heap[b.head].toInsert >= 0 then {b.heap[b.head].toInsert} else {}
  }

  /** What is on the heap: nodes that are linked, about to be linked, or about to be freed. */
  predicate HeapExact(b: Bp) {
    && b.heap.Keys == Linked(b) + Pending(b) + b.freeList
    && Linked(b) !! b.freeList
    && (b.head == NULL || b.head in b.heap)
  }

  predicate CtlShape(b: Bp) {
    && (b.freeList != {} ==> b.ctl.Consolidating? || b.ctl.Freeing? || (b.ctl.Wait? && b.ctl.k == 3))
    && (b.ctl.Wait? ==> b.ctl.k <= 3)
    && (b.ctl.Consolidating? ==> b.ctl.op.matched)
  }

  /** A freed node is about to leave the heap. */
  predicate Leaving(b: Bp, n: Id) {
    b.ctl.Freeing? && n in b.freeList
  }

  /** The link of node `n` does not lead off the heap. */
  predicate LinkStays(b: Bp, n: Id)
    requires n in b.heap
  {
    b.heap[n].next == NULL || b.heap[n].next in b.heap
  }

  predicate LinksStay(b: Bp) {
    forall n {:trigger LinkStays(b, n)} :: n in b.heap && !Leaving(b, n) ==> LinkStays(b, n)
  }

  /** All older linked nodes can be reached from node `n`, whether it is linked itself or not. */
  predicate ReachesOlder(b: Bp, n: Id) {
    forall m :: m in Linked(b) && m <= n ==> m in Reach(b.heap, n)
  }

  predicate OlderReachable(b: Bp) {
    forall n {:trigger ReachesOlder(b, n)} :: n in b.heap && !Leaving(b, n) ==> ReachesOlder(b, n)
  }

  predicate ToInsertSet(b: Bp)
    requires Shape(b)
  {
    forall n :: n in b.heap ==>
      var g := b.heap[n].toInsert;
      g == NULL
      || (Enable(b, 0) && n == b.head && b.code == Breakpoint
          && g in b.heap && g !in Linked(b) && g > n && b.heap[g].next == n
          && b.heap[g].data[b.activeIx] == {} && b.heap[g].data[Staging(b)] != {})
  }

  predicate Same(b: Bp, n: Id)
    requires Shape(b) && n in b.heap
  {
    b.heap[n].data[0] == b.heap[n].data[1] != {}
  }

  predicate StagedFlags(b: Bp, n: Id)
    requires Shape(b) && n in b.heap
  {
    b.heap[n].data[Staging(b)] != {}
  }

  /** What the two halves of a linked node can be at each stage. */
  predicate DataAt(b: Bp, n: Id)
    requires Shape(b) && n in b.heap
  {
    if Enable(b, 0) then StagedFlags(b, n) && (b.code == Breakpoint <==> ActiveFlags(b, n) != {})
    else if Enable(b, 1) then StagedFlags(b, n)
    else if Enable(b, 2) then ActiveFlags(b, n) != {}
    else if Disable(b, 0) then ActiveFlags(b, n) != {}
    else if Disable(b, 1) then StagedFlags(b, n)
    else if Disable(b, 2) then b.code != Breakpoint ==> ActiveFlags(b, n) == {}
    else if b.ctl.Consolidating? && n <= b.ctl.cur then
      if b.ctl.op.enable then ActiveFlags(b, n) != {}
      else b.code != Breakpoint ==> ActiveFlags(b, n) == {}
    else Same(b, n)
  }

  predicate DataStaged(b: Bp)
    requires Shape(b)
  {
    forall n :: n in Linked(b) ==> DataAt(b, n)
  }

  ghost predicate SomeEnabled(b: Bp)
    requires Shape(b)
  {
    exists n :: n in Linked(b) && ActiveFlags(b, n) != {}
  }

  /** When the breakpoint instruction is in the code. */
  ghost predicate CodeStaged(b: Bp)
    requires Shape(b)
  {
    && (b.code == Breakpoint ==> b.head != NULL)
    && (b.code != Breakpoint && b.head != NULL ==>
          Enable(b, 0) || Disable(b, 2) || (b.ctl.Consolidating? && !b.ctl.op.enable))
    && (b.code == Breakpoint && (Disable(b, 2) || b.ctl.Consolidating?) ==> SomeEnabled(b))
    && (b.code != Breakpoint && b.ctl.Consolidating? ==>
          b.ctl.prev == NULL && b.head == b.ctl.cur && !b.ctl.op.enable)
    && (b.ctl.Consolidating? && b.ctl.op.enable ==> b.code == Breakpoint)
    && (b.stale ==> Disable(b, 2) && b.head != NULL && b.code != Breakpoint)
    && b.count == (if b.code == Breakpoint || b.ctl.Consolidating? || (Disable(b, 2) && b.head != NULL) then 1 else 0)
  }

  /** The loop of stage 2: `prev` is the link that leads to `cur`. */
  predicate LoopLinks(b: Bp) {
    b.ctl.Consolidating? ==>
      && (b.ctl.cur == NULL || b.ctl.cur in Linked(b))
      && (if b.ctl.prev == NULL then b.head == b.ctl.cur
          else b.ctl.prev in Linked(b) && b.heap[b.ctl.prev].next == b.ctl.cur)
      && (forall n :: n in b.freeList ==> n > b.ctl.cur)
  }

  predicate Structure(b: Bp) {
    HeapExact(b) && CtlShape(b) && LinksStay(b) && OlderReachable(b) && LoopLinks(b)
  }

  /** What holds of the breakpoint itself. */
  ghost predicate BpInv(b: Bp) {
    && Shape(b)
    && Structure(b)
    && ToInsertSet(b)
    && DataStaged(b)
    && CodeStaged(b)
  }

  // ---- the schedulers

  /** The scheduler's position in the list: a node that is not freed before the scheduler leaves it. */
  predicate Standing(b: Bp, acked: bool, pos: int) {
    || pos == NULL
    || pos in Linked(b)
    || (pos in b.heap && pos in b.freeList && (b.ctl.Consolidating? || (b.ctl.Wait? && !acked)))
  }

  /** Nodes the scheduler has already passed have been visited. */
  predicate Covered(b: Bp, acked: bool, pos: int, visited: set<Id>)
    requires Shape(b)
  {
    forall n :: n in Linked(b) && n > pos && (acked || ActiveFlags(b, n) != {}) ==> n in visited
  }

  predicate WalkerOk(b: Bp, acked: bool, w: Walker)
    requires Shape(b)
  {
    && (!w.Outside? ==> b.head != NULL && (b.code == Breakpoint || (Disable(b, 2) && !acked)))
    && (w.At? || w.Using? ==> Standing(b, acked, w.pos) && Covered(b, acked, w.pos, w.visited))
    && (w.Using? ==> w.pos != NULL && w.ix < 2 && (w.ix == b.activeIx || (JustCommitted(b) && !acked)))
  }

  ghost predicate Inv(s: State) {
    && BpInv(s.b)
    && forall t: nat :: t < |s.walkers| ==> WalkerOk(s.b, t in s.acked, s.walkers[t])
  }

  // ---------------------------------------------------------------- facts about lists

  predicate Ordered(heap: map<Id, Node>) {
    forall n :: n in heap ==> NULL <= heap[n].next < n
  }

  /** A list depends only on the links of its own nodes. */
  lemma {:induction false} ReachFrame(heap: map<Id, Node>, heap1: map<Id, Node>, p: int)
    requires Ordered(heap)
    requires forall n :: n in Reach(heap, p) ==> n in heap1 && heap1[n].next == heap[n].next
    requires forall n :: n in heap1 && n <= p ==> n in heap
    ensures Reach(heap1, p) == Reach(heap, p)
    decreases p
  {
    if p in heap && heap[p].next != NULL {
      ReachFrame(heap, heap1, heap[p].next);
    }
  }

  /** Redirecting the link of `prev` past `cur` takes exactly `cur` out of every list through `prev`. */
  lemma {:induction false} ReachUnlink(heap: map<Id, Node>, heap1: map<Id, Node>, prev: Id, cur: Id, p: int)
    requires Ordered(heap) && heap1.Keys == heap.Keys && prev in heap && cur in heap
    requires heap[prev].next == cur && heap1[prev].next == heap[cur].next
    requires forall n :: n in heap && n != prev ==> heap1[n].next == heap[n].next
    ensures Reach(heap1, p) == if prev in Reach(heap, p) then Reach(heap, p) - {cur} else Reach(heap, p)
    decreases p
  {
    if p >= 0 && p in heap {
      if p == prev {
        if heap[cur].next != NULL {
          ReachUnlink(heap, heap1, prev, cur, heap[cur].next);
        }
      } else if heap[p].next != NULL {
        ReachUnlink(heap, heap1, prev, cur, heap[p].next);
      }
    }
  }

  lemma {:induction false} ReachTrans(heap: map<Id, Node>, p: int, q: Id)
    requires q in Reach(heap, p)
    ensures Reach(heap, q) <= Reach(heap, p)
    decreases p
  {
    if q != p {
      ReachTrans(heap, heap[p].next, q);
    }
  }

  /** The linked nodes are closed under following links. */
  lemma NextIsLinked(b: Bp, n: Id)
    requires Shape(b) && n in Linked(b) && b.heap[n].next in b.heap
    ensures b.heap[n].next in Linked(b)
  {
    ReachTrans(b.heap, b.head, n);
  }
}
