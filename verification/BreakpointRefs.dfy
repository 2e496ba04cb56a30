/**
 Sharing of trace data between the two halves of breakpoints. Counters, meta tracers and
 time/memory tables are allocated when a breakpoint is staged, shared by both halves once the
 breakpoint is consolidated, and reference counted by hand.
 */
module BreakpointRefs {

  type Obj = nat

  /** Parts of a breakpoint that own a reference-counted object. */
  datatype Kind = Meta | Count | Time | Memory

  /** Parts that own none. */
  datatype Plain = Local | Global | Debug

  /** A breakpoint: a function and a trace session. */
  datatype Key = Key(mfa: nat, session: nat)

  /**
   The place of a pointer: half `ix` of breakpoint `key`. A pointer whose flag is off is not
   followed by anybody; only pointers under a flag are part of the state.
   */
  datatype Ref = Ref(key: Key, ix: nat, kind: Kind)

  type Pointers = map<Ref, Obj>
  type RefCounts = map<Obj, nat>

  /** The flags of one half that guard no pointer: plain traces, and which counters are running. */
  datatype Flags = Flags(plain: set<Plain>, active: set<Kind>)

  /** All breakpoints, without the reference counts that go with them. */
  datatype View = View(nodes: map<Key, seq<Flags>>, ptr: Pointers)

  datatype BreakOp = BreakSet | BreakRestart | BreakPause

  datatype Request =
    | SetTrace(plain: Plain)
    | SetMeta
    | SetCounter(kind: Kind, op: BreakOp)

  // ---------------------------------------------------------------- reference counts

  /** The flagged pointers to object `o`. */
  function RefsTo(ptr: Pointers, o: Obj): set<Ref> {
    set r | r in ptr && ptr[r] == o
  }

  /**
   Each allocated object has as many references as there are flagged halves that point to it, and
   at least one; every flagged pointer leads to an allocated object.
   */
  predicate RefsExact(ptr: Pointers, refc: RefCounts) {
    && (forall o :: o in refc ==> refc[o] == |RefsTo(ptr, o)| > 0)
    && (forall r :: r in ptr ==> ptr[r] in refc)
  }

  /** `erts_refc_dectest` and the freeing that follows it at zero. */
  function Unref(refc: RefCounts, o: Obj): RefCounts
    requires o in refc
  {
    if refc[o] <= 1 then refc - {o} else refc[o := refc[o] - 1]
  }

  /** `erts_refc_inc`, or the initial count of a new object. */
  function AddRef(refc: RefCounts, o: Obj): RefCounts {
    refc[o := if o in refc then refc[o] + 1 else 1]
  }

  lemma AllocatedMeansReferenced(ptr: Pointers, refc: RefCounts, o: Obj)
    requires RefsExact(ptr, refc)
    ensures o in refc <==> RefsTo(ptr, o) != {}
  {
    if RefsTo(ptr, o) != {} {
      var r :| r in RefsTo(ptr, o);
      assert ptr[r] in refc;
    }
  }

  /** The reference counts are determined by the pointers: there is no other way to be exact. */
  lemma ExactCountsAreUnique(ptr: Pointers, refc: RefCounts, refc': RefCounts)
    requires RefsExact(ptr, refc) && RefsExact(ptr, refc')
    ensures refc == refc'
  {
    forall o
      ensures o in refc <==> o in refc'
    {
      AllocatedMeansReferenced(ptr, refc, o);
      AllocatedMeansReferenced(ptr, refc', o);
    }
  }

  lemma DropKeeps(ptr: Pointers, refc: RefCounts, r: Ref)
    requires RefsExact(ptr, refc) && r in ptr
    ensures RefsExact(ptr - {r}, Unref(refc, ptr[r]))
  {
    var ptr1, o := ptr - {r}, ptr[r];
    forall p | p in refc
      ensures RefsTo(ptr1, p) == RefsTo(ptr, p) - {r}
    {
    }
    assert RefsTo(ptr, o) == RefsTo(ptr1, o) + {r};
    forall q | q in ptr1
      ensures ptr1[q] in Unref(refc, o)
    {
      if ptr1[q] == o {
        assert q in RefsTo(ptr1, o);
      }
    }
  }

  lemma TakeKeeps(ptr: Pointers, refc: RefCounts, r: Ref, o: Obj)
    requires RefsExact(ptr, refc) && r !in ptr
    ensures RefsExact(ptr[r := o], AddRef(refc, o))
  {
    var ptr1 := ptr[r := o];
    assert o !in refc ==> RefsTo(ptr, o) == {};
    forall p | p in refc || p == o
      ensures RefsTo(ptr1, p) == if p == o then RefsTo(ptr, p) + {r} else RefsTo(ptr, p)
    {
    }
  }

  // ---------------------------------------------------------------- what the operations do to breakpoints

  const OFF := Flags({}, {})

  predicate Shape(v: View) {
    && (forall k :: k in v.nodes ==> |v.nodes[k]| == 2)
    && (forall r :: r in v.ptr ==> r.key in v.nodes && r.ix < 2)
    && (forall k, ix: nat, kind :: k in v.nodes && ix < 2 && kind in v.nodes[k][ix].active ==>
          kind != Meta && Ref(k, ix, kind) in v.ptr)
  }

  lemma TwoHalves(v: View, k: Key)
    requires Shape(v) && k in v.nodes
    ensures |v.nodes[k]| == 2
  {
  }

  /** No flag is set in this half. */
  predicate Off(v: View, k: Key, ix: nat)
    requires Shape(v) && k in v.nodes && ix < 2
  {
    v.nodes[k][ix].plain == {} && forall kind: Kind :: Ref(k, ix, kind) !in v.ptr
  }

  /** Two places hold the same pointer, or none. */
  predicate SamePointer(ptr: Pointers, r: Ref, ptr1: Pointers, r1: Ref) {
    (r in ptr <==> r1 in ptr1) && (r in ptr ==> r1 in ptr1 && ptr[r] == ptr1[r1])
  }

  lemma OffByKinds(v: View, k: Key, ix: nat)
    requires Shape(v) && k in v.nodes && ix < 2
    ensures Off(v, k, ix) <==> v.nodes[k][ix].plain == {} && v.ptr.Keys !! HalfRefs(k, ix)
  {
    forall kind: Kind
      ensures Ref(k, ix, kind) in HalfRefs(k, ix)
    {
      HalfRefsAll(k, ix, Ref(k, ix, kind));
    }
  }

  /** Both halves have the same flags and the same objects. */
  predicate SameHalves(v: View, k: Key)
    requires Shape(v) && k in v.nodes
  {
    && v.nodes[k][0] == v.nodes[k][1]
    && forall kind: Kind :: SamePointer(v.ptr, Ref(k, 0, kind), v.ptr, Ref(k, 1, kind))
  }

  /** Half `ix` of breakpoint `k` is the same in both views, or absent from both. */
  predicate SameHalfIn(v: View, v1: View, k: Key, ix: nat)
    requires Shape(v) && Shape(v1) && ix < 2
  {
    && (k in v.nodes <==> k in v1.nodes)
    && (k in v.nodes ==> v.nodes[k][ix] == v1.nodes[k][ix])
    && forall kind: Kind :: SamePointer(v.ptr, Ref(k, ix, kind), v1.ptr, Ref(k, ix, kind))
  }

  function SetFlags(v: View, k: Key, ix: nat, f: Flags): View
    requires Shape(v) && k in v.nodes && ix < 2
  {
    v.(nodes := v.nodes[k := v.nodes[k][ix := f]])
  }

  /** A request on half `ix` of an existing breakpoint; `obj` is the object it allocates, if it does. */
  function Requested(v: View, k: Key, ix: nat, req: Request, obj: Obj): View
    requires Shape(v) && k in v.nodes && ix < 2
  {
    var f := v.nodes[k][ix];
    match req
    case SetTrace(p) => SetFlags(v, k, ix, f.(plain := f.plain + {p}))
    case SetMeta => v.(ptr := v.ptr[Ref(k, ix, Meta) := obj])
    case SetCounter(kind, op) =>
      var r := Ref(k, ix, kind);
      if r in v.ptr && op == BreakPause then SetFlags(v, k, ix, f.(active := f.active - {kind}))
      else
        SetFlags(v, k, ix, f.(active := f.active + {kind})).(
          ptr := if r in v.ptr && kind == Count then v.ptr else v.ptr[r := obj])
  }

  /** `set_function_break`: only a set makes a new breakpoint. */
  function Staged(v: View, activeIx: nat, k: Key, req: Request, obj: Obj): View
    requires Shape(v) && activeIx < 2
  {
    if k in v.nodes then Requested(v, k, 1 - activeIx, req, obj)
    else if req.SetCounter? && req.op != BreakSet then v
    else Requested(WithNode(v, k), k, 1 - activeIx, req, obj)
  }

  /** `clear_function_break_session`. */
  function Cleared(v: View, activeIx: nat, k: Key, plain: set<Plain>, kinds: set<Kind>): View
    requires Shape(v) && activeIx < 2
  {
    if k !in v.nodes then v
    else
      var ix := 1 - activeIx;
      var f := v.nodes[k][ix];
      SetFlags(v, k, ix, Flags(f.plain - plain, f.active - kinds)).(
        ptr := v.ptr - set kind | kind in kinds :: Ref(k, ix, kind))
  }

  /** The pointers of one half. */
  function HalfRefs(k: Key, ix: nat): set<Ref> {
    {Ref(k, ix, Meta), Ref(k, ix, Count), Ref(k, ix, Time), Ref(k, ix, Memory)}
  }

  function CopyKind(ptr: Pointers, k: Key, from: nat, to: nat, kind: Kind): Pointers {
    if Ref(k, from, kind) in ptr then ptr[Ref(k, to, kind) := ptr[Ref(k, from, kind)]] else ptr
  }

  function CopyHalf(ptr: Pointers, k: Key, from: nat, to: nat): Pointers {
    CopyKind(CopyKind(CopyKind(CopyKind(ptr, k, from, to, Meta), k, from, to, Count), k, from, to, Time),
             k, from, to, Memory)
  }

  /** `consolidate_bp_data` for one breakpoint: both halves as the active one, or gone. */
  function Consolidated(v: View, activeIx: nat, k: Key): View
    requires Shape(v) && activeIx < 2
  {
    if k !in v.nodes then v
    else
      var others := v.ptr - HalfRefs(k, 1 - activeIx);
      if Off(v, k, activeIx) then View(v.nodes - {k}, others)
      else View(v.nodes[k := [v.nodes[k][activeIx], v.nodes[k][activeIx]]],
                CopyHalf(others, k, activeIx, 1 - activeIx))
  }

  lemma CopyHalfAt(ptr: Pointers, k: Key, from: nat, to: nat, r: Ref)
    requires from != to && ptr.Keys !! HalfRefs(k, to)
    ensures var ptr1 := CopyHalf(ptr, k, from, to);
      SamePointer(ptr1, r, ptr, if r.key == k && r.ix == to then Ref(k, from, r.kind) else r)
  {
    match r.kind
    case Meta =>
    case Count =>
    case Time =>
    case Memory =>
  }

  lemma HalfRefsAll(k: Key, ix: nat, r: Ref)
    ensures r in HalfRefs(k, ix) <==> r.key == k && r.ix == ix
  {
    match r.kind
    case Meta =>
    case Count =>
    case Time =>
    case Memory =>
  }

  lemma RequestedShape(v: View, k: Key, ix: nat, req: Request, obj: Obj)
    requires Shape(v) && k in v.nodes && ix < 2 && (req.SetCounter? ==> req.kind != Meta)
    ensures Shape(Requested(v, k, ix, req, obj))
  {
    match req
    case SetTrace(_) =>
    case SetMeta =>
    case SetCounter(_, _) =>
  }

  /** A request changes nothing but the one half it is about. */
  lemma RequestedFrame(v: View, k: Key, ix: nat, req: Request, obj: Obj, other: Key, jx: nat)
    requires Shape(v) && k in v.nodes && ix < 2 && jx < 2 && (other != k || jx != ix)
    requires Shape(Requested(v, k, ix, req, obj))
    ensures SameHalfIn(v, Requested(v, k, ix, req, obj), other, jx)
  {
  }

  function WithNode(v: View, k: Key): View
    requires k !in v.nodes
  {
    v.(nodes := v.nodes[k := [OFF, OFF]])
  }

  lemma WithNodeShape(v: View, k: Key)
    requires Shape(v) && k !in v.nodes
    ensures k in WithNode(v, k).nodes && Shape(WithNode(v, k))
    ensures Off(WithNode(v, k), k, 0) && Off(WithNode(v, k), k, 1)
  {
  }

  lemma WithNodeFrame(v: View, k: Key, other: Key, jx: nat)
    requires Shape(v) && k !in v.nodes && other != k && jx < 2 && Shape(WithNode(v, k))
    ensures SameHalfIn(v, WithNode(v, k), other, jx)
  {
  }

  lemma SameHalfSelf(v: View, k: Key, ix: nat)
    requires Shape(v) && ix < 2
    ensures SameHalfIn(v, v, k, ix)
  {
  }

  lemma StagedShape(v: View, activeIx: nat, k: Key, req: Request, obj: Obj)
    requires Shape(v) && activeIx < 2 && (req.SetCounter? ==> req.kind != Meta)
    ensures Shape(Staged(v, activeIx, k, req, obj))
  {
    if k in v.nodes {
      RequestedShape(v, k, 1 - activeIx, req, obj);
    } else {
      WithNodeShape(v, k);
      RequestedShape(WithNode(v, k), k, 1 - activeIx, req, obj);
    }
  }

  lemma StagedFrame(v: View, activeIx: nat, k: Key, req: Request, obj: Obj, other: Key, jx: nat)
    requires Shape(v) && activeIx < 2 && jx < 2 && Shape(Staged(v, activeIx, k, req, obj))
    requires other != k || (jx == activeIx && k in v.nodes)
    ensures SameHalfIn(v, Staged(v, activeIx, k, req, obj), other, jx)
  {
    hide Shape, Requested, WithNode, SameHalfIn;
    if k in v.nodes {
      RequestedFrame(v, k, 1 - activeIx, req, obj, other, jx);
    } else if req.SetCounter? && req.op != BreakSet {
      SameHalfSelf(v, other, jx);
    } else {
      WithNodeShape(v, k);
      WithNodeFrame(v, k, other, jx);
      RequestedFrame(WithNode(v, k), k, 1 - activeIx, req, obj, other, jx);
      SameHalfTrans(v, WithNode(v, k), Staged(v, activeIx, k, req, obj), other, jx);
    }
  }

  lemma ClearedKeeps(v: View, activeIx: nat, k: Key, plain: set<Plain>, kinds: set<Kind>, other: Key, jx: nat)
    requires Shape(v) && activeIx < 2 && jx < 2
    ensures Shape(Cleared(v, activeIx, k, plain, kinds))
    ensures other != k || jx == activeIx ==> SameHalfIn(v, Cleared(v, activeIx, k, plain, kinds), other, jx)
  {
  }

  /** The pointers after consolidation, one by one. */
  lemma ConsolidatedAt(v: View, activeIx: nat, k: Key, r: Ref)
    requires Shape(v) && activeIx < 2 && k in v.nodes
    ensures var ptr1 := Consolidated(v, activeIx, k).ptr;
      SamePointer(ptr1, r, v.ptr, if r.key == k && r.ix == 1 - activeIx then Ref(k, activeIx, r.kind) else r)
  {
    hide CopyHalf;
    HalfRefsAll(k, 1 - activeIx, r);
    HalfRefsAll(k, 1 - activeIx, Ref(k, activeIx, r.kind));
    CopyHalfAt(v.ptr - HalfRefs(k, 1 - activeIx), k, activeIx, 1 - activeIx, r);
  }

  lemma ConsolidatedShape(v: View, activeIx: nat, k: Key)
    requires Shape(v) && activeIx < 2
    ensures Shape(Consolidated(v, activeIx, k))
  {
    hide CopyHalf;
    if k in v.nodes {
      forall r
        ensures var v1 := Consolidated(v, activeIx, k); r in v1.ptr ==> r.key in v1.nodes && r.ix < 2
      {
        ConsolidatedAt(v, activeIx, k, r);
      }
      forall k1, ix: nat, kind | k1 in Consolidated(v, activeIx, k).nodes && ix < 2
        && kind in Consolidated(v, activeIx, k).nodes[k1][ix].active
        ensures kind != Meta && Ref(k1, ix, kind) in Consolidated(v, activeIx, k).ptr
      {
        ConsolidatedAt(v, activeIx, k, Ref(k1, ix, kind));
      }
    }
  }

  /** After consolidation both halves are what the active one was; other breakpoints are untouched. */
  lemma ConsolidatedHalves(v: View, activeIx: nat, k: Key, other: Key, jx: nat)
    requires Shape(v) && activeIx < 2 && jx < 2
    ensures Shape(Consolidated(v, activeIx, k))
    ensures k in Consolidated(v, activeIx, k).nodes <==> k in v.nodes && !Off(v, k, activeIx)
    ensures k in Consolidated(v, activeIx, k).nodes ==>
      SameHalves(Consolidated(v, activeIx, k), k) && SameHalfIn(v, Consolidated(v, activeIx, k), k, activeIx)
    ensures other != k ==> SameHalfIn(v, Consolidated(v, activeIx, k), other, jx)
  {
    hide CopyHalf;
    ConsolidatedShape(v, activeIx, k);
    if k in v.nodes {
      var v1 := Consolidated(v, activeIx, k);
      forall kind: Kind
        ensures SamePointer(v1.ptr, Ref(k, 0, kind), v1.ptr, Ref(k, 1, kind))
        ensures SamePointer(v.ptr, Ref(k, activeIx, kind), v1.ptr, Ref(k, activeIx, kind))
        ensures other != k ==> SamePointer(v.ptr, Ref(other, jx, kind), v1.ptr, Ref(other, jx, kind))
      {
        ConsolidatedAt(v, activeIx, k, Ref(k, 0, kind));
        ConsolidatedAt(v, activeIx, k, Ref(k, 1, kind));
        ConsolidatedAt(v, activeIx, k, Ref(other, jx, kind));
      }
    }
  }

  // ---------------------------------------------------------------- whole operations

  datatype Stage =
    | StageSet(key: Key, req: Request, obj: Obj)
    | StageClear(key: Key, plain: set<Plain>, kinds: set<Kind>)

  predicate StageOk(st: Stage) {
    st.StageSet? && st.req.SetCounter? ==> st.req.kind != Meta
  }

  function DoStage(v: View, activeIx: nat, st: Stage): View
    requires Shape(v) && activeIx < 2
  {
    match st
    case StageSet(k, req, obj) => Staged(v, activeIx, k, req, obj)
    case StageClear(k, plain, kinds) => Cleared(v, activeIx, k, plain, kinds)
  }

  lemma DoStageKeeps(v: View, activeIx: nat, st: Stage, other: Key, jx: nat)
    requires Shape(v) && activeIx < 2 && StageOk(st) && jx < 2
    ensures Shape(DoStage(v, activeIx, st))
    ensures other != st.key ==> SameHalfIn(v, DoStage(v, activeIx, st), other, jx)
  {
    match st
    case StageSet(k, req, obj) =>
      StagedShape(v, activeIx, k, req, obj);
      if other != k {
        StagedFrame(v, activeIx, k, req, obj, other, jx);
      }
    case StageClear(k, plain, kinds) => ClearedKeeps(v, activeIx, k, plain, kinds, other, jx);
  }

  /** All stages of an operation, on the staging halves. */
  function StageAll(v: View, activeIx: nat, stages: seq<Stage>): (v1: View)
    requires Shape(v) && activeIx < 2 && forall i :: 0 <= i < |stages| ==> StageOk(stages[i])
    ensures Shape(v1)
  {
    if stages == [] then v
    else
      var v0 := StageAll(v, activeIx, stages[..|stages| - 1]);
      var st := stages[|stages| - 1];
      DoStageKeeps(v0, activeIx, st, st.key, 0);
      DoStage(v0, activeIx, st)
  }

  function ConsolidateAll(v: View, activeIx: nat, keys: seq<Key>): (v1: View)
    requires Shape(v) && activeIx < 2
    ensures Shape(v1)
  {
    if keys == [] then v
    else
      var v0 := ConsolidateAll(v, activeIx, keys[..|keys| - 1]);
      ConsolidatedShape(v0, activeIx, keys[|keys| - 1]);
      Consolidated(v0, activeIx, keys[|keys| - 1])
  }

  lemma SameHalfTrans(v: View, v1: View, v2: View, k: Key, ix: nat)
    requires Shape(v) && Shape(v1) && Shape(v2) && ix < 2
    requires SameHalfIn(v, v1, k, ix) && SameHalfIn(v1, v2, k, ix)
    ensures SameHalfIn(v, v2, k, ix)
  {
    forall kind: Kind
      ensures SamePointer(v.ptr, Ref(k, ix, kind), v2.ptr, Ref(k, ix, kind))
    {
      assert SamePointer(v.ptr, Ref(k, ix, kind), v1.ptr, Ref(k, ix, kind));
      assert SamePointer(v1.ptr, Ref(k, ix, kind), v2.ptr, Ref(k, ix, kind));
    }
  }

  lemma {:induction false} StageAllFrame(v: View, activeIx: nat, stages: seq<Stage>, other: Key, jx: nat)
    requires Shape(v) && activeIx < 2 && jx < 2
    requires forall i :: 0 <= i < |stages| ==> StageOk(stages[i]) && stages[i].key != other
    ensures SameHalfIn(v, StageAll(v, activeIx, stages), other, jx)
  {
    if stages != [] {
      var v0 := StageAll(v, activeIx, stages[..|stages| - 1]);
      StageAllFrame(v, activeIx, stages[..|stages| - 1], other, jx);
      DoStageKeeps(v0, activeIx, stages[|stages| - 1], other, jx);
      SameHalfTrans(v, v0, StageAll(v, activeIx, stages), other, jx);
    }
  }

  lemma OffFrame(v: View, v1: View, k: Key, ix: nat)
    requires Shape(v) && Shape(v1) && ix < 2 && SameHalfIn(v, v1, k, ix) && k in v.nodes
    ensures Off(v, k, ix) <==> Off(v1, k, ix)
  {
    assert forall kind: Kind :: SamePointer(v.ptr, Ref(k, ix, kind), v1.ptr, Ref(k, ix, kind));
  }

  lemma SameHalvesFrame(v: View, v1: View, k: Key)
    requires Shape(v) && Shape(v1) && k in v.nodes && SameHalves(v, k)
    requires SameHalfIn(v, v1, k, 0) && SameHalfIn(v, v1, k, 1)
    ensures SameHalves(v1, k)
  {
    forall kind: Kind
      ensures SamePointer(v1.ptr, Ref(k, 0, kind), v1.ptr, Ref(k, 1, kind))
    {
      assert SamePointer(v.ptr, Ref(k, 0, kind), v.ptr, Ref(k, 1, kind));
      assert SamePointer(v.ptr, Ref(k, 0, kind), v1.ptr, Ref(k, 0, kind));
      assert SamePointer(v.ptr, Ref(k, 1, kind), v1.ptr, Ref(k, 1, kind));
    }
  }

  /** How consolidation leaves one breakpoint, given whether it was among those consolidated. */
  predicate ConsolidatedTo(v: View, v1: View, activeIx: nat, k: Key, among: bool)
    requires Shape(v) && Shape(v1) && activeIx < 2
  {
    if !among then SameHalfIn(v, v1, k, 0) && SameHalfIn(v, v1, k, 1)
    else
      && (k in v1.nodes <==> k in v.nodes && !Off(v, k, activeIx))
      && (k in v1.nodes ==> SameHalves(v1, k) && SameHalfIn(v, v1, k, activeIx))
  }

  lemma ConsolidatedToStep(v: View, v0: View, activeIx: nat, k: Key, among: bool, last: Key)
    requires Shape(v) && Shape(v0) && activeIx < 2 && ConsolidatedTo(v, v0, activeIx, k, among)
    ensures Shape(Consolidated(v0, activeIx, last))
    ensures ConsolidatedTo(v, Consolidated(v0, activeIx, last), activeIx, k, among || k == last)
  {
    var v1 := Consolidated(v0, activeIx, last);
    ConsolidatedHalves(v0, activeIx, last, k, 0);
    ConsolidatedHalves(v0, activeIx, last, k, 1);
    if k in v0.nodes {
      OffFrame(v, v0, k, activeIx);
      if k in v1.nodes {
        SameHalfTrans(v, v0, v1, k, activeIx);
      }
    }
    if k != last {
      if among {
        if k in v0.nodes { SameHalvesFrame(v0, v1, k); }
      } else {
        SameHalfTrans(v, v0, v1, k, 0);
        SameHalfTrans(v, v0, v1, k, 1);
      }
    }
  }

  /** Consolidation makes the halves of the given breakpoints equal and leaves all active halves alone. */
  lemma {:induction false} ConsolidateAllHalves(v: View, activeIx: nat, keys: seq<Key>, k: Key)
    requires Shape(v) && activeIx < 2
    ensures ConsolidatedTo(v, ConsolidateAll(v, activeIx, keys), activeIx, k, k in keys)
  {
    if keys != [] {
      var rest, last := keys[..|keys| - 1], keys[|keys| - 1];
      assert keys == rest + [last];
      ConsolidateAllHalves(v, activeIx, rest, k);
      ConsolidatedToStep(v, ConsolidateAll(v, activeIx, rest), activeIx, k, k in rest, last);
    }
  }

  predicate AllSame(v: View)
    requires Shape(v)
  {
    forall k :: k in v.nodes ==> SameHalves(v, k)
  }

  /**
   A whole operation: any stages, the index flip, then consolidation of at least the breakpoints
   that were staged. Afterwards both halves of every breakpoint are the same again, a staged
   breakpoint is as it was staged, and a breakpoint that was not consolidated is as it was before:
   the flip has not changed it.
   */
  lemma OperationRestoresHalves(v: View, activeIx: nat, stages: seq<Stage>, keys: seq<Key>, k: Key)
    requires Shape(v) && activeIx < 2 && AllSame(v)
    requires forall i :: 0 <= i < |stages| ==> StageOk(stages[i]) && stages[i].key in keys
    ensures var staged := StageAll(v, activeIx, stages);
      var v1 := ConsolidateAll(staged, 1 - activeIx, keys);
      && (k in v1.nodes ==> SameHalves(v1, k))
      && (k in keys ==> (k in v1.nodes <==> k in staged.nodes && !Off(staged, k, 1 - activeIx)))
      && (k in v1.nodes ==> SameHalfIn(staged, v1, k, 1 - activeIx))
      && (k !in keys ==> SameHalfIn(v, v1, k, 0) && SameHalfIn(v, v1, k, 1))
  {
    hide StageAll, ConsolidateAll, SameHalves, SameHalfIn, Off, Shape;
    var staged := StageAll(v, activeIx, stages);
    var v1 := ConsolidateAll(staged, 1 - activeIx, keys);
    ConsolidateAllHalves(staged, 1 - activeIx, keys, k);
    if k !in keys {
      StageAllFrame(v, activeIx, stages, k, 0);
      StageAllFrame(v, activeIx, stages, k, 1);
      SameHalfTrans(v, staged, v1, k, 0);
      SameHalfTrans(v, staged, v1, k, 1);
      if k in v.nodes {
        SameHalvesFrame(v, v1, k);
      }
    }
  }

  // ---- what the stages ask for

  /**
   What a trace session wants of a function: plain traces, objects for the other kinds, and the
   counters that run. A breakpoint that exists may want nothing.
   */
  datatype Wish = Nothing | Wish(plain: set<Plain>, objects: map<Kind, Obj>, running: set<Kind>)

  /** The objects of one half. */
  ghost function Objects(ptr: Pointers, k: Key, ix: nat): map<Kind, Obj> {
    map kind: Kind | Ref(k, ix, kind) in ptr :: ptr[Ref(k, ix, kind)]
  }

  lemma ObjectsWith(ptr: Pointers, k: Key, ix: nat, kind: Kind, obj: Obj)
    ensures Objects(ptr[Ref(k, ix, kind) := obj], k, ix) == Objects(ptr, k, ix)[kind := obj]
    ensures kind in Objects(ptr, k, ix) <==> Ref(k, ix, kind) in ptr
  {
  }

  /** What half `ix` of breakpoint `k` provides. */
  ghost function WishOf(v: View, k: Key, ix: nat): Wish
    requires Shape(v) && ix < 2
  {
    if k !in v.nodes then Nothing
    else
      Wish(v.nodes[k][ix].plain, Objects(v.ptr, k, ix), v.nodes[k][ix].active)
  }

  /** A set adds what it sets; a restart or a pause is only for a breakpoint that exists. */
  function Adds(w: Wish, req: Request, obj: Obj): Wish {
    match req
    case SetTrace(p) =>
      if w.Nothing? then Wish({p}, map[], {}) else w.(plain := w.plain + {p})
    case SetMeta =>
      if w.Nothing? then Wish({}, map[Meta := obj], {}) else w.(objects := w.objects[Meta := obj])
    case SetCounter(kind, op) =>
      if w.Nothing? then (if op == BreakSet then Wish({}, map[kind := obj], {kind}) else Nothing)
      else if kind !in w.objects then w.(objects := w.objects[kind := obj], running := w.running + {kind})
      else if op == BreakPause then w.(running := w.running - {kind})
      else if kind == Count then w.(running := w.running + {kind})
      else w.(objects := w.objects[kind := obj], running := w.running + {kind})
  }

  /** A clear takes away what it clears. */
  function Removes(w: Wish, plain: set<Plain>, kinds: set<Kind>): Wish {
    if w.Nothing? then w else Wish(w.plain - plain, w.objects - kinds, w.running - kinds)
  }

  function Stages(w: Wish, st: Stage, k: Key): Wish {
    if st.key != k then w
    else if st.StageSet? then Adds(w, st.req, st.obj)
    else Removes(w, st.plain, st.kinds)
  }

  /** The wish after all stages, one after the other. */
  function StagesAll(w: Wish, stages: seq<Stage>, k: Key): Wish {
    if stages == [] then w else Stages(StagesAll(w, stages[..|stages| - 1], k), stages[|stages| - 1], k)
  }

  /** A breakpoint that nobody wants anything of goes away. */
  function Kept(w: Wish): Wish {
    if w.Wish? && w.plain == {} && w.objects == map[] then Nothing else w
  }

  lemma RequestedWish(v: View, k: Key, ix: nat, req: Request, obj: Obj)
    requires Shape(v) && k in v.nodes && ix < 2 && Shape(Requested(v, k, ix, req, obj))
    ensures WishOf(Requested(v, k, ix, req, obj), k, ix) == Adds(WishOf(v, k, ix), req, obj)
  {
    TwoHalves(v, k);
    hide Objects, Shape;
    match req
    case SetTrace(_) =>
    case SetMeta => ObjectsWith(v.ptr, k, ix, Meta, obj);
    case SetCounter(kind, op) => ObjectsWith(v.ptr, k, ix, kind, obj);
  }

  lemma NewWish(v: View, k: Key, ix: nat)
    requires Shape(v) && k !in v.nodes && ix < 2 && Shape(WithNode(v, k))
    ensures WishOf(WithNode(v, k), k, ix) == Wish({}, map[], {})
  {
    assert WishOf(WithNode(v, k), k, ix).objects == map[];
  }

  lemma StagedWish(v: View, activeIx: nat, k: Key, req: Request, obj: Obj)
    requires Shape(v) && activeIx < 2 && (req.SetCounter? ==> req.kind != Meta)
    requires Shape(Staged(v, activeIx, k, req, obj))
    ensures WishOf(Staged(v, activeIx, k, req, obj), k, 1 - activeIx) == Adds(WishOf(v, k, 1 - activeIx), req, obj)
  {
    hide Requested, Shape;
    if k in v.nodes {
      RequestedWish(v, k, 1 - activeIx, req, obj);
    } else if !(req.SetCounter? && req.op != BreakSet) {
      WithNodeShape(v, k);
      NewWish(v, k, 1 - activeIx);
      RequestedWish(WithNode(v, k), k, 1 - activeIx, req, obj);
    }
  }

  lemma ClearedWish(v: View, activeIx: nat, k: Key, plain: set<Plain>, kinds: set<Kind>)
    requires Shape(v) && activeIx < 2 && Shape(Cleared(v, activeIx, k, plain, kinds))
    ensures
      var ix := 1 - activeIx;
      WishOf(Cleared(v, activeIx, k, plain, kinds), k, ix) == Removes(WishOf(v, k, ix), plain, kinds)
  {
    if k in v.nodes {
      var w, w1 := WishOf(v, k, 1 - activeIx), WishOf(Cleared(v, activeIx, k, plain, kinds), k, 1 - activeIx);
      assert w1.objects == w.objects - kinds;
    }
  }

  lemma SameWish(v: View, v1: View, k: Key, ix: nat)
    requires Shape(v) && Shape(v1) && ix < 2 && SameHalfIn(v, v1, k, ix)
    ensures WishOf(v1, k, ix) == WishOf(v, k, ix)
  {
    if k in v.nodes {
      forall kind: Kind
        ensures SamePointer(v.ptr, Ref(k, ix, kind), v1.ptr, Ref(k, ix, kind))
      {
      }
      assert WishOf(v1, k, ix).objects == WishOf(v, k, ix).objects;
    }
  }

  lemma StageWish(v: View, activeIx: nat, st: Stage, k: Key)
    requires Shape(v) && activeIx < 2 && StageOk(st)
    ensures Shape(DoStage(v, activeIx, st))
    ensures WishOf(DoStage(v, activeIx, st), k, 1 - activeIx) == Stages(WishOf(v, k, 1 - activeIx), st, k)
  {
    hide Shape, WishOf, Adds, Removes, Staged, Cleared, SameHalfIn;
    DoStageKeeps(v, activeIx, st, k, 1 - activeIx);
    if st.key != k {
      SameWish(v, DoStage(v, activeIx, st), k, 1 - activeIx);
    } else if st.StageSet? {
      StagedWish(v, activeIx, k, st.req, st.obj);
    } else {
      ClearedWish(v, activeIx, k, st.plain, st.kinds);
    }
  }

  lemma {:induction false} StageAllWish(v: View, activeIx: nat, stages: seq<Stage>, k: Key)
    requires Shape(v) && activeIx < 2 && forall i :: 0 <= i < |stages| ==> StageOk(stages[i])
    ensures WishOf(StageAll(v, activeIx, stages), k, 1 - activeIx) == StagesAll(WishOf(v, k, 1 - activeIx), stages, k)
  {
    hide Shape, WishOf, Stages, DoStage, StageOk;
    if stages != [] {
      StageAllWish(v, activeIx, stages[..|stages| - 1], k);
      StageWish(StageAll(v, activeIx, stages[..|stages| - 1]), activeIx, stages[|stages| - 1], k);
    }
  }

  lemma OffMeansNothing(v: View, k: Key, ix: nat)
    requires Shape(v) && k in v.nodes && ix < 2
    ensures Off(v, k, ix) <==> Kept(WishOf(v, k, ix)) == Nothing
  {
    var w := WishOf(v, k, ix);
    if w.objects == map[] {
      forall kind: Kind
        ensures Ref(k, ix, kind) !in v.ptr
      {
        assert kind !in w.objects;
      }
    }
  }

  lemma BothHalvesWish(v: View, k: Key)
    requires Shape(v) && (k in v.nodes ==> SameHalves(v, k))
    ensures WishOf(v, k, 0) == WishOf(v, k, 1)
  {
    if k in v.nodes {
      forall kind: Kind
        ensures SamePointer(v.ptr, Ref(k, 0, kind), v.ptr, Ref(k, 1, kind))
      {
      }
      assert WishOf(v, k, 0).objects == WishOf(v, k, 1).objects;
    }
  }

  /**
   What a whole operation does: both halves of each breakpoint that is consolidated provide what the
   session wanted before and what the stages have added to that and taken from it, in their order; the
   breakpoint is gone if that is nothing. All other breakpoints provide what they did.
   */
  lemma OperationGrantsWishes(v: View, activeIx: nat, stages: seq<Stage>, keys: seq<Key>, k: Key, ix: nat)
    requires Shape(v) && activeIx < 2 && AllSame(v) && ix < 2
    requires forall i :: 0 <= i < |stages| ==> StageOk(stages[i]) && stages[i].key in keys
    ensures
      var v1 := ConsolidateAll(StageAll(v, activeIx, stages), 1 - activeIx, keys);
      WishOf(v1, k, ix) ==
        if k in keys then Kept(StagesAll(WishOf(v, k, ix), stages, k)) else WishOf(v, k, ix)
  {
    hide Shape, WishOf, StageAll, ConsolidateAll, SameHalves, SameHalfIn, Off, StagesAll;
    var staged := StageAll(v, activeIx, stages);
    var v1 := ConsolidateAll(staged, 1 - activeIx, keys);
    OperationRestoresHalves(v, activeIx, stages, keys, k);
    BothHalvesWish(v, k);
    BothHalvesWish(v1, k);
    StageAllWish(v, activeIx, stages, k);
    if k !in keys {
      SameWish(v, v1, k, ix);
    } else if k in v1.nodes {
      OffMeansNothing(staged, k, 1 - activeIx);
      SameWish(staged, v1, k, 1 - activeIx);
    } else {
      if k in staged.nodes {
        OffMeansNothing(staged, k, 1 - activeIx);
      }
      AbsentWish(v1, k, ix);
      AbsentKept(staged, k, 1 - activeIx);
    }
  }

  lemma AbsentWish(v: View, k: Key, ix: nat)
    requires Shape(v) && ix < 2 && k !in v.nodes
    ensures WishOf(v, k, ix) == Nothing
  {
  }

  lemma AbsentKept(v: View, k: Key, ix: nat)
    requires Shape(v) && ix < 2 && (k in v.nodes ==> Kept(WishOf(v, k, ix)) == Nothing)
    ensures Kept(WishOf(v, k, ix)) == Nothing
  {
  }

  /**
   Pausing a counter that is not set on a breakpoint that exists for another reason starts it. The
   counter runs in the staging half after a pause exactly when the breakpoint exists without it.
   */
  lemma PauseStartsCounter(v: View, activeIx: nat, k: Key, kind: Kind, obj: Obj)
    requires Shape(v) && activeIx < 2 && kind != Meta
    ensures var v1 := Staged(v, activeIx, k, SetCounter(kind, BreakPause), obj);
      k in v1.nodes && |v1.nodes[k]| == 2 && kind in v1.nodes[k][1 - activeIx].active
      <==> k in v.nodes && Ref(k, 1 - activeIx, kind) !in v.ptr
  {
    StagedShape(v, activeIx, k, SetCounter(kind, BreakPause), obj);
  }

  lemma PauseStartsCounterWitness()
    ensures var k := Key(0, 0);
      var v := View(map[k := [Flags({Local}, {}), Flags({Local}, {})]], map[]);
      var v1 := Staged(v, 0, k, SetCounter(Time, BreakPause), 7);
      Shape(v) && Time in v1.nodes[k][1].active
  {
  }

  // ---------------------------------------------------------------- the operations as they update memory

  datatype Action =
    | DoSet(key: Key, req: Request)
    | DoClear(key: Key, plain: set<Plain>, kinds: set<Kind>)
    | DoCommit
    | DoConsolidate(key: Key)

  /** All breakpoints with their objects; an object is allocated as long as it is in `refc`. */
  class Breakpoints {
    var nodes: map<Key, seq<Flags>>
    var ptr: Pointers
    var refc: RefCounts
    var nextObj: Obj
    var activeIx: nat

    ghost function V(): View
      reads this
    {
      View(nodes, ptr)
    }

    ghost predicate Counted()
      reads this
    {
      RefsExact(ptr, refc) && forall o :: o in refc ==> o < nextObj
    }

    ghost predicate Valid()
      reads this
    {
      activeIx < 2 && Shape(V()) && Counted()
    }

    constructor ()
      ensures Valid() && V() == View(map[], map[]) && activeIx == 0
    {
      nodes, ptr, refc := map[], map[], map[];
      nextObj, activeIx := 0, 0;
    }

    /** `bp_meta_unref`, `bp_count_unref` and `bp_calltrace_unref`, for a flag that is being cleared. */
    method Drop(r: Ref)
      requires Counted()
      modifies this`ptr, this`refc
      ensures Counted() && ptr == old(ptr) - {r}
    {
      if r in ptr {
        DropKeeps(ptr, refc, r);
        refc := Unref(refc, ptr[r]);
        ptr := ptr - {r};
      }
    }

    /** One more reference to an allocated object. */
    method Share(r: Ref, o: Obj)
      requires Counted() && r !in ptr && o in refc
      modifies this`ptr, this`refc
      ensures Counted() && ptr == old(ptr)[r := o]
    {
      TakeKeeps(ptr, refc, r, o);
      refc := AddRef(refc, o);
      ptr := ptr[r := o];
    }

    /** A new object with one reference. */
    method Allocate(r: Ref)
      requires Counted() && r !in ptr
      modifies this`ptr, this`refc, this`nextObj
      ensures Counted() && ptr == old(ptr)[r := old(nextObj)]
    {
      TakeKeeps(ptr, refc, r, nextObj);
      refc := AddRef(refc, nextObj);
      ptr := ptr[r := nextObj];
      nextObj := nextObj + 1;
    }

    /** `bp_hash_reset`, and setting a meta tracer: unreference the old object if any, allocate a new one. */
    method Replace(r: Ref)
      requires Counted()
      modifies this`ptr, this`refc, this`nextObj
      ensures Counted() && ptr == old(ptr)[r := old(nextObj)]
    {
      Drop(r);
      Allocate(r);
      assert ptr == old(ptr)[r := old(nextObj)];
    }

    /** The part of `set_function_break` that works on a half of an existing breakpoint. */
    method SetHalf(k: Key, ix: nat, req: Request)
      requires Shape(V()) && Counted() && k in nodes && ix < 2
      modifies this`nodes, this`ptr, this`refc, this`nextObj
      ensures Counted() && V() == Requested(old(V()), k, ix, req, old(nextObj))
    {
      hide RefsExact;
      var f := nodes[k][ix];
      match req {
        case SetTrace(p) =>
          nodes := nodes[k := nodes[k][ix := f.(plain := f.plain + {p})]];
        case SetMeta =>
          Replace(Ref(k, ix, Meta));
        case SetCounter(kind, op) =>
          var r := Ref(k, ix, kind);
          if r in ptr && op == BreakPause {
            nodes := nodes[k := nodes[k][ix := f.(active := f.active - {kind})]];
          } else {
            nodes := nodes[k := nodes[k][ix := f.(active := f.active + {kind})]];
            if !(r in ptr && kind == Count) {
              Replace(r);
            }
          }
      }
    }

    /** `set_function_break`. */
    method SetFunctionBreak(k: Key, req: Request)
      requires Valid() && (req.SetCounter? ==> req.kind != Meta)
      modifies this`nodes, this`ptr, this`refc, this`nextObj
      ensures Valid() && V() == Staged(old(V()), activeIx, k, req, old(nextObj))
    {
      hide RefsExact, Requested, Shape;
      StagedShape(V(), activeIx, k, req, nextObj);
      if k !in nodes {
        if req.SetCounter? && req.op != BreakSet {
          return;
        }
        WithNodeShape(V(), k);
        nodes := nodes[k := [OFF, OFF]];
      }
      SetHalf(k, 1 - activeIx, req);
    }

    method DropIf(cleared: bool, r: Ref)
      requires Counted()
      modifies this`ptr, this`refc
      ensures Counted() && ptr == old(ptr) - (if cleared then {r} else {})
    {
      if cleared {
        Drop(r);
      }
    }

    /** `clear_function_break_session`. */
    method ClearFunctionBreak(k: Key, plain: set<Plain>, kinds: set<Kind>)
      requires Valid()
      modifies this`nodes, this`ptr, this`refc
      ensures Valid() && V() == Cleared(old(V()), activeIx, k, plain, kinds)
    {
      ClearedKeeps(V(), activeIx, k, plain, kinds, k, 0);
      if k in nodes {
        var ix := 1 - activeIx;
        var f := nodes[k][ix];
        nodes := nodes[k := nodes[k][ix := Flags(f.plain - plain, f.active - kinds)]];
        DropKinds(k, ix, kinds);
      }
    }

    method DropKinds(k: Key, ix: nat, kinds: set<Kind>)
      requires Counted()
      modifies this`ptr, this`refc
      ensures Counted() && ptr == old(ptr) - set kind | kind in kinds :: Ref(k, ix, kind)
    {
      hide RefsExact;
      DropIf(Meta in kinds, Ref(k, ix, Meta));
      DropIf(Count in kinds, Ref(k, ix, Count));
      DropIf(Time in kinds, Ref(k, ix, Time));
      DropIf(Memory in kinds, Ref(k, ix, Memory));
      forall r
        ensures r in ptr <==> r in old(ptr) && !(r.key == k && r.ix == ix && r.kind in kinds)
      {
        match r.kind
        case Meta =>
        case Count =>
        case Time =>
        case Memory =>
      }
    }

    /** `erts_commit_staged_bp`. */
    method Commit()
      requires Valid()
      modifies this`activeIx
      ensures Valid() && activeIx == 1 - old(activeIx)
    {
      activeIx := 1 - activeIx;
    }

    /** `consolidate_bp_data_session`: first all references of the staging half are dropped... */
    method DropHalf(k: Key, ix: nat)
      requires Counted()
      modifies this`ptr, this`refc
      ensures Counted() && ptr == old(ptr) - HalfRefs(k, ix)
    {
      hide RefsExact;
      Drop(Ref(k, ix, Meta));
      Drop(Ref(k, ix, Count));
      Drop(Ref(k, ix, Time));
      Drop(Ref(k, ix, Memory));
    }

    method ShareKind(k: Key, from: nat, to: nat, kind: Kind)
      requires Counted() && Ref(k, to, kind) !in ptr
      modifies this`ptr, this`refc
      ensures Counted() && ptr == CopyKind(old(ptr), k, from, to, kind)
    {
      if Ref(k, from, kind) in ptr {
        Share(Ref(k, to, kind), ptr[Ref(k, from, kind)]);
      }
    }

    /** ... then those of the active half are taken again. */
    method ShareHalf(k: Key, from: nat, to: nat)
      requires Counted() && from != to && ptr.Keys !! HalfRefs(k, to)
      modifies this`ptr, this`refc
      ensures Counted() && ptr == CopyHalf(old(ptr), k, from, to)
    {
      ShareKind(k, from, to, Meta);
      ShareKind(k, from, to, Count);
      ShareKind(k, from, to, Time);
      ShareKind(k, from, to, Memory);
    }

    method IsOff(k: Key, ix: nat) returns (off: bool)
      requires Shape(V()) && k in nodes && ix < 2
      ensures off == Off(V(), k, ix)
    {
      OffByKinds(V(), k, ix);
      off := nodes[k][ix].plain == {}
        && Ref(k, ix, Meta) !in ptr && Ref(k, ix, Count) !in ptr
        && Ref(k, ix, Time) !in ptr && Ref(k, ix, Memory) !in ptr;
    }

    /** `consolidate_bp_data_session` and what follows it for one breakpoint. */
    method ConsolidateNode(k: Key, off: bool)
      requires Counted() && k in nodes && activeIx < 2 == |nodes[k]|
      modifies this`nodes, this`ptr, this`refc
      ensures Counted()
      ensures off ==> nodes == old(nodes) - {k} && ptr == old(ptr) - HalfRefs(k, 1 - activeIx)
      ensures !off ==>
        && nodes == old(nodes)[k := [old(nodes)[k][activeIx], old(nodes)[k][activeIx]]]
        && ptr == CopyHalf(old(ptr) - HalfRefs(k, 1 - activeIx), k, activeIx, 1 - activeIx)
    {
      hide RefsExact, CopyHalf;
      DropHalf(k, 1 - activeIx);
      if off {
        nodes := nodes - {k};
      } else {
        ShareHalf(k, activeIx, 1 - activeIx);
        nodes := nodes[k := [nodes[k][activeIx], nodes[k][activeIx]]];
      }
    }

    /** `consolidate_bp_data` for one breakpoint: equalise its halves, or unlink and free it. */
    method Consolidate(k: Key)
      requires Valid()
      modifies this`nodes, this`ptr, this`refc
      ensures Valid() && V() == Consolidated(old(V()), activeIx, k)
    {
      hide RefsExact, CopyHalf, Off, Shape, HalfRefs;
      ConsolidatedShape(V(), activeIx, k);
      if k in nodes {
        TwoHalves(V(), k);
        var off := IsOff(k, activeIx);
        ConsolidateNode(k, off);
      }
    }

    /** Every sequence of operations, in any order, keeps the reference counts exact. */
    method Perform(actions: seq<Action>)
      requires Valid()
      requires forall i :: 0 <= i < |actions| && actions[i].DoSet? && actions[i].req.SetCounter? ==>
        actions[i].req.kind != Meta
      modifies this
      ensures Valid()
    {
      for i := 0 to |actions|
        invariant Valid()
      {
        match actions[i]
        case DoSet(k, req) => SetFunctionBreak(k, req);
        case DoClear(k, plain, kinds) => ClearFunctionBreak(k, plain, kinds);
        case DoCommit => Commit();
        case DoConsolidate(k) => Consolidate(k);
      }
    }
  }
}
