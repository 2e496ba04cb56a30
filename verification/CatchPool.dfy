/**
 The pool of catch entries. Each code index has a pool descriptor; the vectors of entries are
 shared between descriptors. A module's catches are chained through the entries, and so are the
 free ones.
 */
module CatchPool {
  import opened Wrappers

  const NIL: int := -1
  const NUM_CODE_IX: nat := 3

  /** A loaded instance of a module. */
  type Mod = nat

  datatype Catch = Catch(cp: nat, cdr: int)

  datatype Pool = Pool(freeList: int, highMark: nat, tabsize: nat, vec: nat)

  type Vec = seq<Catch>

  // ---------------------------------------------------------------- layout of a vector

  /** Which chain a slot belongs to, and where in that chain it is. */
  datatype Place = OnFree(k: nat) | OnModule(m: Mod, k: nat)

  /**
   The chains in a vector, each listed from its end to its head, and for every slot the place it
   has in them. Slots and places being in one-to-one correspondence, the chains have no cycles,
   are disjoint, and cover every slot.
   */
  datatype Layout = Layout(free: seq<nat>, chains: map<Mod, seq<nat>>, place: seq<Place>)

  function ChainOf(l: Layout, m: Mod): seq<nat> {
    if m in l.chains then l.chains[m] else []
  }

  function Top(s: seq<nat>): int {
    if s == [] then NIL else s[|s| - 1]
  }

  /** Following `cdr` from `head` visits exactly the slots of `s`, last one first. */
  predicate ListAt(v: Vec, head: int, s: seq<nat>) {
    && head == Top(s)
    && forall k: nat {:trigger LinkAt(v, s, k)} :: k < |s| ==> LinkAt(v, s, k)
  }

  predicate LinkAt(v: Vec, s: seq<nat>, k: nat)
    requires k < |s|
  {
    s[k] < |v| && v[s[k]].cdr == if k == 0 then NIL else s[k - 1]
  }

  lemma ListFrame(v: Vec, v1: Vec, head: int, s: seq<nat>)
    requires ListAt(v, head, s)
    requires forall k: nat :: k < |s| ==> s[k] < |v1| && (s[k] < |v| ==> v1[s[k]] == v[s[k]])
    ensures ListAt(v1, head, s)
  {
    forall k: nat | k < |s|
      ensures LinkAt(v1, s, k)
    {
      assert LinkAt(v, s, k);
    }
  }

  lemma ListPop(v: Vec, head: int, s: seq<nat>)
    requires ListAt(v, head, s) && s != []
    ensures 0 <= head < |v| && ListAt(v, v[head].cdr, s[..|s| - 1])
  {
    var s1 := s[..|s| - 1];
    assert LinkAt(v, s, |s| - 1);
    forall k: nat | k < |s1|
      ensures LinkAt(v, s1, k)
    {
      assert LinkAt(v, s, k);
    }
  }

  lemma ListPush(v: Vec, head: int, s: seq<nat>, i: nat, cp: nat)
    requires ListAt(v, head, s) && i < |v| && i !in s
    ensures ListAt(v[i := Catch(cp, head)], i, s + [i])
  {
    var v1, s1 := v[i := Catch(cp, head)], s + [i];
    forall k: nat | k < |s1|
      ensures LinkAt(v1, s1, k)
    {
      if k < |s| {
        assert LinkAt(v, s, k);
      }
    }
  }

  predicate PlaceOk(l: Layout, i: nat)
    requires i < |l.place|
  {
    match l.place[i]
    case OnFree(k) => k < |l.free| && l.free[k] == i
    case OnModule(m, k) => k < |ChainOf(l, m)| && ChainOf(l, m)[k] == i
  }

  predicate ChainPlaced(l: Layout, m: Mod) {
    forall k: nat :: k < |ChainOf(l, m)| ==>
      ChainOf(l, m)[k] < |l.place| && l.place[ChainOf(l, m)[k]] == OnModule(m, k)
  }

  ghost predicate Partition(l: Layout, high: nat) {
    && |l.place| == high
    && (forall i: nat :: i < high ==> PlaceOk(l, i))
    && (forall k: nat :: k < |l.free| ==> l.free[k] < high && l.place[l.free[k]] == OnFree(k))
    && (forall m :: ChainPlaced(l, m))
  }

  predicate ChainAt(v: Vec, l: Layout, m: Mod) {
    ListAt(v, Top(ChainOf(l, m)), ChainOf(l, m))
  }

  ghost predicate PoolOk(p: Pool, v: Vec, l: Layout) {
    && 0 < p.tabsize == |v| && p.highMark <= p.tabsize
    && Partition(l, p.highMark)
    && ListAt(v, p.freeList, l.free)
    && forall m :: ChainAt(v, l, m)
  }

  /** The code pointers of a chain. */
  function CodeOf(v: Vec, chain: seq<nat>): seq<nat>
    requires forall k :: 0 <= k < |chain| ==> chain[k] < |v|
  {
    seq(|chain|, k requires 0 <= k < |chain| => v[chain[k]].cp)
  }

  /** Two vectors agree on every entry of the chain. */
  predicate SameEntries(v: Vec, v1: Vec, chain: seq<nat>) {
    forall k :: 0 <= k < |chain| ==> chain[k] < |v| && chain[k] < |v1| && v[chain[k]] == v1[chain[k]]
  }

  // ---------------------------------------------------------------- allocation of one entry

  /** `beam_catches_cons`: the slot it takes. */
  function SlotFor(p: Pool): int {
    if p.freeList >= 0 then p.freeList else p.highMark
  }

  predicate MustGrow(p: Pool) {
    p.freeList < 0 && p.highMark >= p.tabsize
  }

  /** New entries; what is in them is not specified, and nobody reads it before it is written. */
  function Blank(n: nat): (v: Vec)
    ensures |v| == n
  {
    seq(n, _ => Catch(0, NIL))
  }

  /** The doubled vector; its new part is not initialised. */
  function Grown(v: Vec, rest: Vec): Vec {
    v + rest
  }

  function LayoutAfterCons(l: Layout, m: Mod): Layout {
    var chain := ChainOf(l, m);
    if l.free != [] then
      var i := l.free[|l.free| - 1];
      if i < |l.place| then
        Layout(l.free[..|l.free| - 1], l.chains[m := chain + [i]], l.place[i := OnModule(m, |chain|)])
      else l
    else
      Layout(l.free, l.chains[m := chain + [|l.place|]], l.place + [OnModule(m, |chain|)])
  }

  lemma GrowKeeps(p: Pool, v: Vec, rest: Vec, l: Layout)
    requires PoolOk(p, v, l)
    ensures PoolOk(p.(tabsize := |v| + |rest|), Grown(v, rest), l)
    ensures forall m :: SameEntries(v, Grown(v, rest), ChainOf(l, m))
  {
    ListFrame(v, Grown(v, rest), p.freeList, l.free);
    forall m
      ensures ChainAt(Grown(v, rest), l, m) && SameEntries(v, Grown(v, rest), ChainOf(l, m))
    {
      assert ChainAt(v, l, m) && ChainPlaced(l, m);
      ListFrame(v, Grown(v, rest), Top(ChainOf(l, m)), ChainOf(l, m));
    }
  }

  lemma ConsPartition(l: Layout, high: nat, m: Mod)
    requires Partition(l, high)
    ensures Partition(LayoutAfterCons(l, m), if l.free != [] then high else high + 1)
  {
    var l1 := LayoutAfterCons(l, m);
    var chain := ChainOf(l, m);
    assert ChainOf(l1, m) == chain + [if l.free != [] then l.free[|l.free| - 1] else high];
    assert forall m1 :: m1 != m ==> ChainOf(l1, m1) == ChainOf(l, m1);
    forall i: nat | i < |l1.place|
      ensures PlaceOk(l1, i)
    {
      if i < high {
        assert PlaceOk(l, i);
      }
    }
    forall m1
      ensures ChainPlaced(l1, m1)
    {
      assert ChainPlaced(l, m1);
    }
  }

  /** The descriptor after taking a slot from a vector with room. */
  function PoolAfterCons(p: Pool, v: Vec): Pool
    requires p.freeList < |v|
  {
    if p.freeList >= 0 then p.(freeList := v[p.freeList].cdr) else p.(highMark := p.highMark + 1)
  }

  /** Slots of different chains are different, and none is the slot about to be taken. */
  lemma SlotIsFree(p: Pool, v: Vec, l: Layout, m: Mod, k: nat)
    requires PoolOk(p, v, l) && k < |ChainOf(l, m)|
    ensures ChainOf(l, m)[k] != SlotFor(p)
  {
    assert ChainPlaced(l, m);
    if l.free != [] {
      assert l.place[l.free[|l.free| - 1]] == OnFree(|l.free| - 1);
    }
  }

  lemma ConsFreeList(p: Pool, v: Vec, l: Layout, c: Catch)
    requires PoolOk(p, v, l) && !MustGrow(p)
    ensures 0 <= SlotFor(p) < |v|
    ensures
      var free := if l.free == [] then [] else l.free[..|l.free| - 1];
      ListAt(v[SlotFor(p) := c], PoolAfterCons(p, v).freeList, free)
  {
    if l.free != [] {
      var s := l.free[..|l.free| - 1];
      ListPop(v, p.freeList, l.free);
      forall k: nat | k < |s|
        ensures s[k] != SlotFor(p)
      {
        assert l.place[l.free[k]] == OnFree(k) && l.place[l.free[|l.free| - 1]] == OnFree(|l.free| - 1);
      }
      ListFrame(v, v[SlotFor(p) := c], v[p.freeList].cdr, s);
    }
  }

  lemma ConsChain(p: Pool, v: Vec, l: Layout, m: Mod, cp: nat, cdr: int, m1: Mod)
    requires PoolOk(p, v, l) && 0 <= SlotFor(p) < |v| && cdr == Top(ChainOf(l, m))
    requires ChainOf(LayoutAfterCons(l, m), m) == ChainOf(l, m) + [SlotFor(p)]
    ensures ChainAt(v[SlotFor(p) := Catch(cp, cdr)], LayoutAfterCons(l, m), m1)
  {
    var i := SlotFor(p);
    assert ChainAt(v, l, m1) && ChainPlaced(l, m1);
    forall k: nat | k < |ChainOf(l, m1)|
      ensures ChainOf(l, m1)[k] != i
    {
      SlotIsFree(p, v, l, m1, k);
    }
    if m1 == m {
      ListPush(v, cdr, ChainOf(l, m), i, cp);
    } else {
      ListFrame(v, v[i := Catch(cp, cdr)], Top(ChainOf(l, m1)), ChainOf(l, m1));
    }
  }

  lemma ConsKeeps(p: Pool, v: Vec, l: Layout, m: Mod, cp: nat, cdr: int)
    requires PoolOk(p, v, l) && !MustGrow(p) && cdr == Top(ChainOf(l, m))
    ensures 0 <= SlotFor(p) < |v|
    ensures PoolOk(PoolAfterCons(p, v), v[SlotFor(p) := Catch(cp, cdr)], LayoutAfterCons(l, m))
    ensures ChainOf(LayoutAfterCons(l, m), m) == ChainOf(l, m) + [SlotFor(p)]
  {
    ConsPartition(l, p.highMark, m);
    ConsFreeList(p, v, l, Catch(cp, cdr));
    var v1, l1 := v[SlotFor(p) := Catch(cp, cdr)], LayoutAfterCons(l, m);
    forall m1
      ensures ChainAt(v1, l1, m1)
    {
      ConsChain(p, v, l, m, cp, cdr, m1);
    }
  }

  /** Taking a slot leaves the entries of all chains alone. */
  lemma ConsSpares(p: Pool, v: Vec, l: Layout, cp: nat, cdr: int, m: Mod)
    requires PoolOk(p, v, l) && !MustGrow(p) && 0 <= SlotFor(p) < |v|
    ensures SameEntries(v, v[SlotFor(p) := Catch(cp, cdr)], ChainOf(l, m))
  {
    assert ChainAt(v, l, m) && ChainPlaced(l, m);
    forall k: nat | k < |ChainOf(l, m)|
      ensures ChainOf(l, m)[k] != SlotFor(p)
    {
      SlotIsFree(p, v, l, m, k);
    }
  }

  /** A write to a slot on no list keeps the pool. */
  lemma WriteOutside(p: Pool, v: Vec, l: Layout, i: nat, c: Catch)
    requires PoolOk(p, v, l) && i < |v| && i !in l.free
    requires forall m :: i !in ChainOf(l, m)
    ensures PoolOk(p, v[i := c], l)
  {
    var v1 := v[i := c];
    ListFrame(v, v1, p.freeList, l.free);
    forall m
      ensures SameEntries(v, v1, ChainOf(l, m))
    {
      assert ChainAt(v, l, m) && ChainPlaced(l, m);
    }
    SameLists(p, v, v1, l);
  }

  /** A pool is as it should be with any vector that has its lists where they were. */
  lemma SameLists(p: Pool, v: Vec, v1: Vec, l: Layout)
    requires PoolOk(p, v, l) && |v1| == |v| && ListAt(v1, p.freeList, l.free)
    requires forall m :: SameEntries(v, v1, ChainOf(l, m))
    ensures PoolOk(p, v1, l)
  {
    forall m
      ensures ChainAt(v1, l, m)
    {
      assert ChainAt(v, l, m) && ChainPlaced(l, m) && SameEntries(v, v1, ChainOf(l, m));
      ListFrame(v, v1, Top(ChainOf(l, m)), ChainOf(l, m));
    }
  }

  // ---------------------------------------------------------------- staging that is given up

  /**
   A staged copy of a pool: its descriptor, its vector, and the vector of the active pool, which is
   the same one until the copy has to grow.
   */
  datatype Copy = Copy(pool: Pool, vec: Vec, active: Vec, shared: bool)

  function GrownIfFull(s: Copy): Copy {
    if MustGrow(s.pool) then
      Copy(s.pool.(tabsize := 2 * s.pool.tabsize), s.vec + Blank(s.pool.tabsize), s.active, false)
    else s
  }

  /** `beam_catches_cons` with whatever entry it is given. */
  function ConsOn(s: Copy, c: Catch): Copy {
    var g := GrownIfFull(s);
    var i := SlotFor(g.pool);
    if 0 <= i < |g.vec| then
      var vec := g.vec[i := c];
      Copy(PoolAfterCons(g.pool, g.vec), vec, if g.shared then vec else g.active, g.shared)
    else s
  }

  function ConsAll(s: Copy, es: seq<Catch>): Copy {
    if es == [] then s else ConsOn(ConsAll(s, es[..|es| - 1]), es[|es| - 1])
  }

  /** The slot of the free list that entry `k` is put in. */
  function FreeSlot(l: Layout, k: nat): nat
    requires k < |l.free|
  {
    l.free[|l.free| - 1 - k]
  }

  /** While entries come from the free list, the two pools share the vector, and the list read so far is the old one. */
  ghost predicate Draining(p: Pool, v: Vec, l: Layout, es: seq<Catch>, s: Copy) {
    && |es| <= |l.free| && s.shared && s.vec == s.active && |s.vec| == |v|
    && (forall k: nat {:trigger FreeSlot(l, k)} :: k < |l.free| ==> FreeSlot(l, k) < |v|)
    && s.pool == p.(freeList := Top(l.free[..|l.free| - |es|]))
    && (forall i: nat :: i < |v| && i !in l.free ==> s.vec[i] == v[i])
    && (forall k: nat {:trigger FreeSlot(l, k)} :: k < |l.free| ==>
          s.vec[FreeSlot(l, k)] == if k < |es| then es[k] else v[FreeSlot(l, k)])
  }

  /** Afterwards nothing below the active pool's high mark is written. */
  ghost predicate Drained(p: Pool, v: Vec, l: Layout, es: seq<Catch>, s: Copy) {
    && |l.free| <= |es| && |s.active| == |v| && p.highMark <= |v| && (s.shared ==> s.vec == s.active)
    && (forall k: nat {:trigger FreeSlot(l, k)} :: k < |l.free| ==> FreeSlot(l, k) < |v|)
    && s.pool.freeList == NIL && p.highMark <= s.pool.highMark <= s.pool.tabsize == |s.vec| && 0 < s.pool.tabsize
    && (forall i: nat :: i < p.highMark && i !in l.free ==> s.active[i] == v[i])
    && (forall k: nat {:trigger FreeSlot(l, k)} :: k < |l.free| ==> s.active[FreeSlot(l, k)] == es[k])
  }

  lemma FreeSlotsDiffer(p: Pool, v: Vec, l: Layout, j: nat, k: nat)
    requires PoolOk(p, v, l) && j < |l.free| && k < |l.free|
    ensures FreeSlot(l, k) < p.highMark <= |v|
    ensures j != k ==> FreeSlot(l, j) != FreeSlot(l, k)
  {
    var n := |l.free|;
    assert l.place[l.free[n - 1 - j]] == OnFree(n - 1 - j) && l.place[l.free[n - 1 - k]] == OnFree(n - 1 - k);
  }

  /** The link of a free slot leads to the next one. */
  lemma FreeSlotLink(p: Pool, v: Vec, l: Layout, k: nat)
    requires PoolOk(p, v, l) && k < |l.free|
    ensures FreeSlot(l, k) < |v| && v[FreeSlot(l, k)].cdr == Top(l.free[..|l.free| - 1 - k])
  {
    assert LinkAt(v, l.free, |l.free| - 1 - k);
  }

  lemma DrainingStep(p: Pool, v: Vec, l: Layout, es: seq<Catch>, s: Copy, c: Catch)
    requires PoolOk(p, v, l) && Draining(p, v, l, es, s) && |es| < |l.free|
    ensures Draining(p, v, l, es + [c], ConsOn(s, c))
  {
    var n, k := |l.free|, |es|;
    var s1, slot := ConsOn(s, c), FreeSlot(l, k);
    FreeSlotLink(p, v, l, k);
    assert s.pool.freeList == slot && s.vec[slot] == v[slot];
    assert s1.vec == s.vec[slot := c] && s1.pool == p.(freeList := Top(l.free[..n - 1 - k]));
    assert slot in l.free;
    forall j: nat | j < n
      ensures s1.vec[FreeSlot(l, j)] == if j < k + 1 then (es + [c])[j] else v[FreeSlot(l, j)]
    {
      FreeSlotsDiffer(p, v, l, j, k);
    }
  }

  lemma DrainedStep(p: Pool, v: Vec, l: Layout, es: seq<Catch>, s: Copy, c: Catch)
    requires PoolOk(p, v, l) && Drained(p, v, l, es, s)
    ensures Drained(p, v, l, es + [c], ConsOn(s, c))
  {
    var s1 := ConsOn(s, c);
    forall k: nat | k < |l.free|
      ensures s1.active[FreeSlot(l, k)] == (es + [c])[k]
    {
      FreeSlotsDiffer(p, v, l, k, k);
    }
  }

  lemma {:induction false} ConsAllEffect(p: Pool, v: Vec, l: Layout, es: seq<Catch>)
    requires PoolOk(p, v, l)
    ensures var s := ConsAll(Copy(p, v, v, true), es);
      if |es| < |l.free| then Draining(p, v, l, es, s) else Drained(p, v, l, es, s)
  {
    hide ConsOn;
    if es == [] {
      assert l.free[..|l.free|] == l.free;
    } else {
      var init, c := es[..|es| - 1], es[|es| - 1];
      ConsAllEffect(p, v, l, init);
      var s := ConsAll(Copy(p, v, v, true), init);
      assert es == init + [c];
      if |init| < |l.free| {
        DrainingStep(p, v, l, init, s, c);
        if |es| == |l.free| {
          DrainingEnds(p, v, l, es, ConsOn(s, c));
        }
      } else {
        DrainedStep(p, v, l, init, s, c);
      }
    }
  }

  lemma DrainingEnds(p: Pool, v: Vec, l: Layout, es: seq<Catch>, s: Copy)
    requires PoolOk(p, v, l) && Draining(p, v, l, es, s) && |es| == |l.free|
    ensures Drained(p, v, l, es, s)
  {
    assert l.free[..0] == [];
  }

  /** The entries put in slots of the free list have the links that were there. */
  ghost predicate SameLinks(v: Vec, l: Layout, es: seq<Catch>) {
    forall k: nat {:trigger FreeSlot(l, k)} :: k < |es| && k < |l.free| ==>
      FreeSlot(l, k) < |v| && es[k].cdr == v[FreeSlot(l, k)].cdr
  }

  /**
   Staging that is given up. Whatever entries were taken, the active pool is as it was exactly when
   every entry put in a slot of its free list has the link that was there.
   */
  lemma AbortedStaging(p: Pool, v: Vec, l: Layout, es: seq<Catch>)
    requires PoolOk(p, v, l)
    ensures var v1 := ConsAll(Copy(p, v, v, true), es).active;
      && (ListAt(v1, p.freeList, l.free) <==> SameLinks(v, l, es))
      && (PoolOk(p, v1, l) <==> SameLinks(v, l, es))
  {
    hide ConsAll;
    var v1 := ConsAll(Copy(p, v, v, true), es).active;
    ConsAllEffect(p, v, l, es);
    AbortedList(p, v, l, es, v1);
    if SameLinks(v, l, es) {
      forall m
        ensures SameEntries(v, v1, ChainOf(l, m))
      {
        AbortedChain(p, v, l, v1, m);
      }
      SameLists(p, v, v1, l);
    }
  }

  lemma AbortedLink(v: Vec, l: Layout, es: seq<Catch>, v1: Vec, k: nat)
    requires k < |l.free| && FreeSlot(l, k) < |v| && |v1| == |v| && LinkAt(v, l.free, |l.free| - 1 - k)
    requires v1[FreeSlot(l, k)] == if k < |es| then es[k] else v[FreeSlot(l, k)]
    ensures LinkAt(v1, l.free, |l.free| - 1 - k) <==> (k < |es| ==> es[k].cdr == v[FreeSlot(l, k)].cdr)
  {
  }

  lemma AbortedList(p: Pool, v: Vec, l: Layout, es: seq<Catch>, v1: Vec)
    requires ListAt(v, p.freeList, l.free) && |v1| == |v|
    requires forall k: nat {:trigger FreeSlot(l, k)} :: k < |l.free| ==> FreeSlot(l, k) < |v|
    requires forall k: nat {:trigger FreeSlot(l, k)} :: k < |l.free| ==>
      v1[FreeSlot(l, k)] == if k < |es| then es[k] else v[FreeSlot(l, k)]
    ensures ListAt(v1, p.freeList, l.free) <==> SameLinks(v, l, es)
  {
    hide LinkAt;
    var n := |l.free|;
    forall k: nat | k < n
      ensures LinkAt(v1, l.free, n - 1 - k) <==> (k < |es| ==> es[k].cdr == v[FreeSlot(l, k)].cdr)
    {
      assert LinkAt(v, l.free, n - 1 - k);
      AbortedLink(v, l, es, v1, k);
    }
    if SameLinks(v, l, es) {
      forall j: nat | j < n
        ensures LinkAt(v1, l.free, j)
      {
        assert FreeSlot(l, n - 1 - j) < |v|;
      }
    }
  }

  lemma AbortedChain(p: Pool, v: Vec, l: Layout, v1: Vec, m: Mod)
    requires PoolOk(p, v, l) && |v1| == |v|
    requires forall i: nat :: i < p.highMark && i !in l.free ==> v1[i] == v[i]
    ensures SameEntries(v, v1, ChainOf(l, m))
  {
    assert ChainPlaced(l, m);
    forall k | 0 <= k < |ChainOf(l, m)|
      ensures ChainOf(l, m)[k] !in l.free
    {
      forall j | 0 <= j < |l.free|
        ensures l.free[j] != ChainOf(l, m)[k]
      {
        assert l.place[l.free[j]] == OnFree(j);
      }
    }
  }

  /**
   In staging that loads modules, the first entry taken begins a chain. Then the active pool is as
   it was exactly when nothing was taken, or its free list had at most one slot.
   */
  lemma AbortedLoading(p: Pool, v: Vec, l: Layout, es: seq<Catch>)
    requires PoolOk(p, v, l) && (es != [] ==> es[0].cdr == NIL)
    ensures PoolOk(p, ConsAll(Copy(p, v, v, true), es).active, l) <==> es == [] || |l.free| <= 1
  {
    hide ConsAll, PoolOk;
    AbortedStaging(p, v, l, es);
    if es != [] && l.free != [] {
      FreeSlotLink(p, v, l, 0);
      assert SameLinks(v, l, es) ==> es[0].cdr == v[FreeSlot(l, 0)].cdr;
    }
  }

  // ---------------------------------------------------------------- purging a module

  /** One round of the loop in `beam_catches_delmod`: the head of the chain becomes the head of the free list. */
  function LayoutAfterFree(l: Layout, m: Mod): Layout
    requires ChainOf(l, m) != [] && Top(ChainOf(l, m)) < |l.place|
  {
    var chain := ChainOf(l, m);
    var i := chain[|chain| - 1];
    Layout(l.free + [i], l.chains[m := chain[..|chain| - 1]], l.place[i := OnFree(|l.free|)])
  }

  lemma FreeChain(p: Pool, v: Vec, l: Layout, m: Mod, m1: Mod)
    requires PoolOk(p, v, l) && ChainOf(l, m) != []
    requires 0 <= Top(ChainOf(l, m)) < |v| && Top(ChainOf(l, m)) < |l.place|
    ensures var v1 := v[Top(ChainOf(l, m)) := Catch(0, p.freeList)];
      && ChainAt(v1, LayoutAfterFree(l, m), m1)
      && (m1 != m ==> SameEntries(v, v1, ChainOf(l, m1)) && ChainOf(LayoutAfterFree(l, m), m1) == ChainOf(l, m1))
  {
    hide PoolOk;
    if m1 == m {
      FreeChainSelf(p, v, l, m);
    } else {
      FreeChainOther(p, v, l, m, m1);
    }
  }

  lemma FreeChainSelf(p: Pool, v: Vec, l: Layout, m: Mod)
    requires PoolOk(p, v, l) && ChainOf(l, m) != []
    requires 0 <= Top(ChainOf(l, m)) < |v| && Top(ChainOf(l, m)) < |l.place|
    ensures ChainAt(v[Top(ChainOf(l, m)) := Catch(0, p.freeList)], LayoutAfterFree(l, m), m)
  {
    var chain := ChainOf(l, m);
    var i, init := chain[|chain| - 1], chain[..|chain| - 1];
    var v1 := v[i := Catch(0, p.freeList)];
    assert ChainAt(v, l, m) && ChainPlaced(l, m);
    ListPop(v, i, chain);
    forall k: nat | k < |init|
      ensures init[k] != i
    {
      assert l.place[chain[k]] == OnModule(m, k) && l.place[i] == OnModule(m, |init|);
    }
    ListFrame(v, v1, v[i].cdr, init);
  }

  lemma FreeChainOther(p: Pool, v: Vec, l: Layout, m: Mod, m1: Mod)
    requires PoolOk(p, v, l) && ChainOf(l, m) != [] && m1 != m
    requires 0 <= Top(ChainOf(l, m)) < |v| && Top(ChainOf(l, m)) < |l.place|
    ensures var v1 := v[Top(ChainOf(l, m)) := Catch(0, p.freeList)];
      && ChainAt(v1, LayoutAfterFree(l, m), m1) && SameEntries(v, v1, ChainOf(l, m1))
      && ChainOf(LayoutAfterFree(l, m), m1) == ChainOf(l, m1)
  {
    var chain, chain1 := ChainOf(l, m), ChainOf(l, m1);
    var i := chain[|chain| - 1];
    assert ChainAt(v, l, m1) && ChainPlaced(l, m1) && ChainPlaced(l, m);
    forall k: nat | k < |chain1|
      ensures chain1[k] != i
    {
      assert l.place[chain1[k]] == OnModule(m1, k) && l.place[i] == OnModule(m, |chain| - 1);
    }
    ListFrame(v, v[i := Catch(0, p.freeList)], Top(chain1), chain1);
  }

  lemma FreeKeeps(p: Pool, v: Vec, l: Layout, m: Mod)
    requires PoolOk(p, v, l) && ChainOf(l, m) != []
    ensures var i := Top(ChainOf(l, m));
      && 0 <= i < |l.place| && i < |v| && v[i].cdr == Top(ChainOf(LayoutAfterFree(l, m), m))
      && PoolOk(p.(freeList := i), v[i := Catch(0, p.freeList)], LayoutAfterFree(l, m))
  {
    var chain := ChainOf(l, m);
    var i := chain[|chain| - 1];
    assert ChainPlaced(l, m) && ChainAt(v, l, m);
    ListPop(v, i, chain);
    FreePartition(l, p.highMark, m);
    forall k: nat | k < |l.free|
      ensures l.free[k] != i
    {
      assert l.place[l.free[k]] == OnFree(k);
    }
    ListPush(v, p.freeList, l.free, i, 0);
    var v1, l1 := v[i := Catch(0, p.freeList)], LayoutAfterFree(l, m);
    forall m1
      ensures ChainAt(v1, l1, m1)
    {
      FreeChain(p, v, l, m, m1);
    }
  }

  lemma FreePartition(l: Layout, high: nat, m: Mod)
    requires Partition(l, high) && ChainOf(l, m) != [] && Top(ChainOf(l, m)) < high
    ensures Partition(LayoutAfterFree(l, m), high)
  {
    var l1, chain := LayoutAfterFree(l, m), ChainOf(l, m);
    assert ChainPlaced(l, m);
    assert forall m1 :: m1 != m ==> ChainOf(l1, m1) == ChainOf(l, m1);
    forall i: nat | i < high
      ensures PlaceOk(l1, i)
    {
      assert PlaceOk(l, i);
    }
    forall m1
      ensures ChainPlaced(l1, m1)
    {
      assert ChainPlaced(l, m1);
    }
  }

  // ---------------------------------------------------------------- the pools

  predicate ChainIn(v: Vec, chain: seq<nat>) {
    forall k :: 0 <= k < |chain| ==> chain[k] < |v|
  }

  lemma ChainInVec(p: Pool, v: Vec, l: Layout, m: Mod)
    requires PoolOk(p, v, l)
    ensures ChainIn(v, ChainOf(l, m))
  {
    assert ChainPlaced(l, m);
  }

  /** The chains of the loaded modules are the same in the vector `va` and, unchanged, in the staged layout. */
  ghost predicate LiveIn(va: Vec, v: Vec, live: Layout, staged: Layout, m: Mod) {
    SameEntries(va, v, ChainOf(live, m)) && (ChainOf(live, m) != [] ==> ChainOf(staged, m) == ChainOf(live, m))
  }

  /** The head of the active pool's free list has become the end of a staged chain. */
  ghost predicate HeadTaken(va: Vec, live: Layout, staged: Layout)
    requires live.free != []
  {
    var i := live.free[|live.free| - 1];
    i < |va| && va[i].cdr == NIL && i < |staged.place| && staged.place[i].OnModule?
  }

  /**
   Active pool and vector, and staged pool and vector, while staging goes on. The active pool is as
   it was as long as nothing has been taken, and also if its free list has at most one slot.
   */
  ghost predicate StagingOk(pa: Pool, va: Vec, ps: Pool, vs: Vec, live: Layout, staged: Layout, taken: bool) {
    && PoolOk(ps, vs, staged)
    && (forall m :: LiveIn(va, vs, live, staged, m))
    && (!taken ==> ps == pa && vs == va && staged == live)
    && (!taken || |live.free| <= 1 ==> PoolOk(pa, va, live))
    && (taken && live.free != [] ==> HeadTaken(va, live, staged))
  }

  lemma StagingStarts(p: Pool, v: Vec, l: Layout)
    requires PoolOk(p, v, l)
    ensures StagingOk(p, v, p, v, l, l, false)
  {
    forall m
      ensures LiveIn(v, v, l, l, m)
    {
      ChainInVec(p, v, l, m);
    }
  }

  /** Once something was taken from a free list of two or more slots, that list is broken. */
  lemma AbortedPool(pa: Pool, va: Vec, ps: Pool, vs: Vec, live: Layout, staged: Layout, taken: bool)
    requires StagingOk(pa, va, ps, vs, live, staged, taken)
    ensures taken && |live.free| > 1 ==> !ListAt(va, pa.freeList, live.free)
    ensures PoolOk(pa, va, live) <==> !taken || |live.free| <= 1
  {
    if taken && |live.free| > 1 {
      assert !LinkAt(va, live.free, |live.free| - 1);
    }
  }

  lemma LiveChainIn(va: Vec, vs: Vec, live: Layout, staged: Layout, m: Mod)
    requires LiveIn(va, vs, live, staged, m)
    ensures ChainIn(va, ChainOf(live, m))
  {
  }

  /** Copying the staged vector keeps every chain and every code pointer. */
  lemma GrowStaged(p: Pool, v: Vec, rest: Vec, l: Layout, u: nat)
    requires PoolOk(p, v, l) && |rest| == p.tabsize
    ensures PoolOk(p.(tabsize := 2 * p.tabsize, vec := u), v + rest, l)
    ensures forall m {:trigger ChainOf(l, m)} ::
      ChainIn(v, ChainOf(l, m)) && CodeOf(v + rest, ChainOf(l, m)) == CodeOf(v, ChainOf(l, m))
  {
    GrowKeeps(p, v, rest, l);
    forall m
      ensures ChainIn(v, ChainOf(l, m)) && CodeOf(v + rest, ChainOf(l, m)) == CodeOf(v, ChainOf(l, m))
    {
      ChainInVec(p, v, l, m);
    }
  }

  lemma GrowStaging(pa: Pool, va: Vec, ps: Pool, vs: Vec, live: Layout, staged: Layout, taken: bool, rest: Vec, u: nat)
    requires StagingOk(pa, va, ps, vs, live, staged, taken) && MustGrow(ps) && |rest| == ps.tabsize
    ensures StagingOk(pa, va, ps.(tabsize := 2 * ps.tabsize, vec := u), vs + rest, live, staged, true)
  {
    GrowStaged(ps, vs, rest, staged, u);
    forall m
      ensures LiveIn(va, vs + rest, live, staged, m)
    {
      assert LiveIn(va, vs, live, staged, m);
    }
  }

  /** Taking a slot extends one chain by one code pointer and leaves the other chains alone. */
  lemma TakeStaged(p: Pool, v: Vec, l: Layout, m: Mod, cp: nat, cdr: int, m1: Mod)
    requires PoolOk(p, v, l) && !MustGrow(p) && cdr == Top(ChainOf(l, m)) && 0 <= SlotFor(p) < |v|
    requires ChainOf(LayoutAfterCons(l, m), m) == ChainOf(l, m) + [SlotFor(p)]
    ensures
      var v1, chain, chain1 := v[SlotFor(p) := Catch(cp, cdr)], ChainOf(l, m1), ChainOf(LayoutAfterCons(l, m), m1);
      && ChainIn(v, chain) && ChainIn(v1, chain1)
      && CodeOf(v1, chain1) == CodeOf(v, chain) + (if m1 == m then [cp] else [])
      && (m1 != m ==> chain1 == chain)
  {
    hide PoolOk;
    ChainInVec(p, v, l, m1);
    ConsSpares(p, v, l, cp, cdr, m1);
  }

  /** No entry of a loaded module is in the slot about to be taken. */
  lemma SlotNotLive(va: Vec, ps: Pool, vs: Vec, live: Layout, staged: Layout, m: Mod)
    requires PoolOk(ps, vs, staged) && LiveIn(va, vs, live, staged, m)
    ensures SlotFor(ps) !in ChainOf(live, m)
  {
    forall k: nat | k < |ChainOf(live, m)|
      ensures ChainOf(live, m)[k] != SlotFor(ps)
    {
      SlotIsFree(ps, vs, staged, m, k);
    }
  }

  /** Neither active vector nor staged one has its live entries changed. */
  lemma TakeLive(va: Vec, ps: Pool, vs: Vec, live: Layout, staged: Layout, m: Mod, c: Catch, m1: Mod)
    requires PoolOk(ps, vs, staged) && !MustGrow(ps) && 0 <= SlotFor(ps) < |vs|
    requires LiveIn(va, vs, live, staged, m1) && ChainOf(live, m) == []
    ensures
      var v1, l1 := vs[SlotFor(ps) := c], LayoutAfterCons(staged, m);
      && LiveIn(va, v1, live, l1, m1) && LiveIn(v1, v1, live, l1, m1)
      && ChainIn(vs, ChainOf(live, m1)) && CodeOf(v1, ChainOf(live, m1)) == CodeOf(vs, ChainOf(live, m1))
  {
    SlotNotLive(va, ps, vs, live, staged, m1);
  }

  /** The first slot taken is the head of the active pool's free list, if that has one. */
  lemma TakeHead(p: Pool, v: Vec, l: Layout, m: Mod, c: Catch)
    requires PoolOk(p, v, l) && !MustGrow(p) && 0 <= SlotFor(p) < |v| && c.cdr == NIL
    ensures l.free != [] ==> HeadTaken(v[SlotFor(p) := c], l, LayoutAfterCons(l, m))
    ensures |l.free| <= 1 ==> PoolOk(p, v[SlotFor(p) := c], l)
  {
    var i := SlotFor(p);
    if l.free == [] {
      OutsideChains(p, v, l);
      WriteOutside(p, v, l, i, c);
    } else {
      assert l.place[i] == OnFree(|l.free| - 1);
      if |l.free| == 1 {
        assert LinkAt(v[i := c], l.free, 0);
        forall m1
          ensures SameEntries(v, v[i := c], ChainOf(l, m1))
        {
          ConsSpares(p, v, l, c.cp, c.cdr, m1);
        }
        SameLists(p, v, v[i := c], l);
      }
    }
  }

  lemma OutsideChains(p: Pool, v: Vec, l: Layout)
    requires PoolOk(p, v, l)
    ensures forall m :: SlotFor(p) !in ChainOf(l, m)
  {
    forall m
      ensures SlotFor(p) !in ChainOf(l, m)
    {
      forall k: nat | k < |ChainOf(l, m)|
        ensures ChainOf(l, m)[k] != SlotFor(p)
      {
        SlotIsFree(p, v, l, m, k);
      }
    }
  }

  /** A slot taken later is not that head. */
  lemma TakeLater(pa: Pool, va: Vec, ps: Pool, vs: Vec, live: Layout, staged: Layout, m: Mod, c: Catch, shared: bool)
    requires StagingOk(pa, va, ps, vs, live, staged, true) && !MustGrow(ps) && 0 <= SlotFor(ps) < |vs|
    requires shared ==> va == vs
    ensures
      var va1 := if shared then vs[SlotFor(ps) := c] else va;
      && (live.free != [] ==> HeadTaken(va1, live, LayoutAfterCons(staged, m)))
      && (|live.free| <= 1 ==> PoolOk(pa, va1, live))
  {
    var i := SlotFor(ps);
    if staged.free != [] {
      assert staged.place[staged.free[|staged.free| - 1]] == OnFree(|staged.free| - 1);
    }
    if shared && |live.free| <= 1 {
      forall m1
        ensures i !in ChainOf(live, m1)
      {
        assert LiveIn(va, vs, live, staged, m1);
        SlotNotLive(va, ps, vs, live, staged, m1);
      }
      WriteOutside(pa, va, live, i, c);
    }
  }

  lemma TakeStaging(pa: Pool, va: Vec, ps: Pool, vs: Vec, live: Layout, staged: Layout, taken: bool,
                    m: Mod, c: Catch, shared: bool)
    requires StagingOk(pa, va, ps, vs, live, staged, taken) && !MustGrow(ps)
    requires ChainOf(live, m) == [] && c.cdr == Top(ChainOf(staged, m)) && (shared ==> va == vs) && (!taken ==> shared)
    ensures 0 <= SlotFor(ps) < |vs|
    ensures
      var v1 := vs[SlotFor(ps) := c];
      StagingOk(pa, if shared then v1 else va, PoolAfterCons(ps, vs), v1, live, LayoutAfterCons(staged, m), true)
  {
    ConsKeeps(ps, vs, staged, m, c.cp, c.cdr);
    var v1, l1 := vs[SlotFor(ps) := c], LayoutAfterCons(staged, m);
    forall m1
      ensures LiveIn(va, v1, live, l1, m1) && LiveIn(v1, v1, live, l1, m1)
    {
      assert LiveIn(va, vs, live, staged, m1);
      TakeLive(va, ps, vs, live, staged, m, c, m1);
    }
    if taken {
      TakeLater(pa, va, ps, vs, live, staged, m, c, shared);
    } else {
      TakeHead(ps, vs, staged, m, c);
    }
  }

  /** Freeing the head of a chain takes one code pointer off that chain and leaves the others alone. */
  lemma FreeStep(p: Pool, v: Vec, l: Layout, m: Mod, m1: Mod)
    requires PoolOk(p, v, l) && ChainOf(l, m) != []
    requires 0 <= Top(ChainOf(l, m)) < |v| && Top(ChainOf(l, m)) < |l.place|
    requires
      var i := Top(ChainOf(l, m));
      PoolOk(p.(freeList := i), v[i := Catch(0, p.freeList)], LayoutAfterFree(l, m))
    ensures
      var v1, l1 := v[Top(ChainOf(l, m)) := Catch(0, p.freeList)], LayoutAfterFree(l, m);
      var chain, chain1 := ChainOf(l, m1), ChainOf(l1, m1);
      && ChainIn(v, chain) && ChainIn(v1, chain1)
      && CodeOf(v1, chain1) == if m1 == m then CodeOf(v, chain)[..|chain| - 1] else CodeOf(v, chain)
  {
    var v1, l1 := v[Top(ChainOf(l, m)) := Catch(0, p.freeList)], LayoutAfterFree(l, m);
    assert ChainPlaced(l, m1);
    FreeChain(p, v, l, m, m1);
    ChainInVec(p.(freeList := Top(ChainOf(l, m))), v1, l1, m1);
  }

  function Reversed(s: seq<nat>): (r: seq<nat>)
    ensures |r| == |s|
  {
    seq(|s|, k requires 0 <= k < |s| => s[|s| - 1 - k])
  }

  predicate InArea(cp: nat, start: nat, bytes: nat) {
    start <= cp < start + bytes
  }

  ghost predicate AllInArea(code: seq<nat>, start: nat, bytes: nat) {
    forall cp :: cp in code ==> InArea(cp, start, bytes)
  }

  /** Freeing a chain from its head, with `n` entries still to go; the others were in the area. */
  ghost predicate Freeing(free: seq<nat>, chain: seq<nat>, code: seq<nat>, n: nat, free1: seq<nat>, chain1: seq<nat>,
                          code1: seq<nat>, start: nat, bytes: nat)
  {
    && n <= |chain| == |code| && chain1 == chain[..n] && code1 == code[..n] && free1 == free + Reversed(chain[n..])
    && AllInArea(code[n..], start, bytes)
  }

  lemma FreeingStarts(free: seq<nat>, chain: seq<nat>, code: seq<nat>, start: nat, bytes: nat)
    requires |chain| == |code|
    ensures Freeing(free, chain, code, |chain|, free, chain, code, start, bytes)
  {
  }

  lemma FreeingStep(free: seq<nat>, chain: seq<nat>, code: seq<nat>, n: nat, free1: seq<nat>, chain1: seq<nat>,
                    code1: seq<nat>, start: nat, bytes: nat)
    requires Freeing(free, chain, code, n, free1, chain1, code1, start, bytes) && n > 0
    ensures |chain1| == |code1| == n && (!InArea(code1[n - 1], start, bytes) ==> !AllInArea(code, start, bytes))
    ensures InArea(code1[n - 1], start, bytes) ==>
      Freeing(free, chain, code, n - 1, free1 + [chain1[n - 1]], chain1[..n - 1], code1[..n - 1], start, bytes)
  {
    assert code1[n - 1] in code;
    assert Reversed(chain[n..]) + [chain[n - 1]] == Reversed(chain[n - 1..]);
    assert free + Reversed(chain[n..]) + [chain[n - 1]] == free + Reversed(chain[n - 1..]);
    assert code[n - 1..] == [code[n - 1]] + code[n..];
  }

  lemma FreeingEnds(free: seq<nat>, chain: seq<nat>, code: seq<nat>, n: nat, free1: seq<nat>, chain1: seq<nat>,
                    code1: seq<nat>, start: nat, bytes: nat)
    requires Freeing(free, chain, code, n, free1, chain1, code1, start, bytes)
    ensures |chain1| == n
    ensures n == 0 ==> free1 == free + Reversed(chain) && AllInArea(code, start, bytes)
  {
    if n == 0 {
      assert chain[0..] == chain && code[0..] == code;
    }
  }

  /** The vectors that some pool refers to. */
  function Referred(pools: seq<Pool>): set<nat> {
    set p | p in pools :: p.vec
  }

  lemma ReferredAt(pools: seq<Pool>, i: nat)
    requires i < |pools|
    ensures pools[i].vec in Referred(pools)
  {
    assert pools[i] in pools;
  }

  /** Replacing a descriptor exchanges at most one vector for another. */
  lemma ReferredUpdate(pools: seq<Pool>, i: nat, p: Pool)
    requires i < |pools|
    ensures Referred(pools[i := p]) + {pools[i].vec} == Referred(pools) + {p.vec}
  {
    var pools1 := pools[i := p];
    forall j: nat | j < |pools|
      ensures pools[j].vec in Referred(pools1) + {pools[i].vec} && pools1[j].vec in Referred(pools) + {p.vec}
    {
      assert pools1[j] in pools1 && pools[j] in pools;
    }
    assert pools1[i] in pools1 && pools[i] in pools;
  }

  class CatchTable {
    var pools: seq<Pool>
    var vecs: map<nat, Vec>     // the vectors that are allocated
    var nextVec: nat
    var activeIx: nat
    var stagingIx: nat
    var isStaging: bool
    ghost var live: Layout      // chains of the modules that are loaded
    ghost var staged: Layout    // chains in the pool being staged
    ghost var taken: bool       // an entry has been taken since staging began

    ghost predicate Shape()
      reads this
    {
      && |pools| == NUM_CODE_IX && activeIx < NUM_CODE_IX && stagingIx < NUM_CODE_IX && activeIx != stagingIx
      && Active().vec in vecs && Staging().vec in vecs
      && vecs.Keys == Referred(pools)
      && (forall u :: u in vecs ==> u < nextVec)
    }

    function Active(): Pool
      requires activeIx < |pools|
      reads this
    {
      pools[activeIx]
    }

    function Staging(): Pool
      requires stagingIx < |pools|
      reads this
    {
      pools[stagingIx]
    }

    ghost predicate Valid()
      reads this
    {
      && Shape()
      && |vecs[Active().vec]| == Active().tabsize
      && if isStaging then
           StagingOk(Active(), vecs[Active().vec], Staging(), vecs[Staging().vec], live, staged, taken)
         else PoolOk(Active(), vecs[Active().vec], live)
    }

    /** The entries of a loaded module are in the active vector. */
    lemma LiveChain(m: Mod)
      requires Valid()
      ensures ChainIn(vecs[Active().vec], ChainOf(live, m))
    {
      if isStaging {
        LiveChainIn(vecs[Active().vec], vecs[Staging().vec], live, staged, m);
      } else {
        ChainInVec(Active(), vecs[Active().vec], live, m);
      }
    }

    /** The code pointers of a loaded module's catches, as the active pool gives them. */
    ghost function LiveCode(m: Mod): (r: seq<nat>)
      requires Valid()
      reads this
      ensures |r| == |ChainOf(live, m)|
    {
      LiveChain(m);
      CodeOf(vecs[Active().vec], ChainOf(live, m))
    }

    /** The code pointers of a module's catches in the pool being staged. */
    ghost function StagedCode(m: Mod): (r: seq<nat>)
      requires Valid() && isStaging
      reads this
      ensures |r| == |ChainOf(staged, m)|
    {
      ChainInVec(Staging(), vecs[Staging().vec], staged, m);
      CodeOf(vecs[Staging().vec], ChainOf(staged, m))
    }

    /** Every entry of a loaded module is inside the active vector, and holds its code pointer. */
    lemma LiveEntry(m: Mod, k: nat)
      requires Valid() && k < |ChainOf(live, m)|
      ensures ChainOf(live, m)[k] < |vecs[Active().vec]|
      ensures vecs[Active().vec][ChainOf(live, m)[k]].cp == LiveCode(m)[k]
    {
      LiveChain(m);
    }

    constructor ()
      ensures Valid() && !isStaging && live == Layout([], map[], [])
    {
      var p := Pool(NIL, 0, 1024, 0);
      pools := [p, p, p];
      vecs := map[0 := Blank(1024)];
      nextVec, activeIx, stagingIx, isStaging, taken := 1, 0, 1, false, false;
      live, staged := Layout([], map[], []), Layout([], map[], []);
    }

    /** `gc_old_vec`: free a vector that no pool refers to any more. */
    method CollectOldVec(u: nat)
      requires |pools| == NUM_CODE_IX && vecs.Keys == Referred(pools) + {u}
      modifies this`vecs
      ensures vecs.Keys == Referred(pools)
      ensures forall w :: w in vecs ==> vecs[w] == old(vecs)[w]
    {
      for i := 0 to NUM_CODE_IX
        invariant forall j :: 0 <= j < i ==> pools[j].vec != u
        invariant vecs == old(vecs)
      {
        if pools[i].vec == u {
          ReferredAt(pools, i);
          return;
        }
      }
      assert u !in Referred(pools);
      vecs := vecs - {u};
    }

    /** `beam_catches_start_staging`. */
    method StartStaging()
      requires Valid() && !isStaging
      modifies this`pools, this`vecs, this`isStaging, this`staged, this`taken
      ensures Valid() && isStaging && !taken && staged == live
      ensures forall m :: LiveCode(m) == old(LiveCode(m))
    {
      hide PoolOk, StagingOk, CodeOf, Referred;
      StagingStarts(Active(), vecs[Active().vec], live);
      ReferredUpdate(pools, stagingIx, pools[activeIx]);
      ReferredAt(pools, activeIx);
      var prevVec := pools[stagingIx].vec;
      pools := pools[stagingIx := pools[activeIx]];
      ReferredAt(pools, activeIx);
      CollectOldVec(prevVec);
      isStaging, taken, staged := true, false, live;
    }

    /**
     `beam_catches_end_staging`, and the change of code indices that goes with it. Given up after
     entries were taken, staging leaves the active pool usable exactly if its free list had at most
     one slot.
     */
    method EndStaging(commit: bool)
      requires Valid() && isStaging
      modifies this`activeIx, this`stagingIx, this`isStaging, this`live
      ensures !isStaging && Shape() && live == if commit then old(staged) else old(live)
      ensures activeIx == if commit then old(stagingIx) else old(activeIx)
      ensures stagingIx == if commit then (old(stagingIx) + 1) % NUM_CODE_IX else old(stagingIx)
      ensures Valid() <==> commit || !taken || |live.free| <= 1
      ensures !Valid() ==> !ListAt(vecs[Active().vec], Active().freeList, live.free)
      ensures Valid() ==> forall m :: old(ChainOf(live, m)) != [] ==> LiveCode(m) == old(LiveCode(m))
      ensures Valid() && commit ==> forall m :: LiveCode(m) == old(StagedCode(m))
    {
      ghost var pa, va, ps, vs := Active(), vecs[Active().vec], Staging(), vecs[Staging().vec];
      AbortedPool(pa, va, ps, vs, live, staged, taken);
      forall m | ChainOf(live, m) != []
        ensures SameEntries(va, vs, ChainOf(live, m)) && ChainOf(staged, m) == ChainOf(live, m)
      {
        assert LiveIn(va, vs, live, staged, m);
      }
      if commit {
        activeIx, stagingIx := stagingIx, (stagingIx + 1) % NUM_CODE_IX;
        live := staged;
      }
      isStaging := false;
    }

    /** The reallocation in `beam_catches_cons`: copy the vector to one twice as long. */
    method Grow()
      requires Valid() && isStaging && MustGrow(Staging())
      modifies this`pools, this`vecs, this`nextVec, this`taken
      ensures Valid() && taken && !MustGrow(Staging())
      ensures Staging() == old(Staging()).(tabsize := 2 * old(Staging().tabsize), vec := old(nextVec))
      ensures forall m :: StagedCode(m) == old(StagedCode(m))
      ensures forall m :: LiveCode(m) == old(LiveCode(m))
    {
      hide PoolOk, StagingOk, CodeOf, Referred, Blank, ChainOf;
      var p := pools[stagingIx];
      var v := vecs[p.vec];
      StagedPool();
      var rest := Blank(p.tabsize);
      GrowStaged(p, v, rest, staged, nextVec);
      GrowStaging(Active(), vecs[Active().vec], p, v, live, staged, taken, rest, nextVec);
      ReferredUpdate(pools, stagingIx, p.(tabsize := 2 * p.tabsize, vec := nextVec));
      pools := pools[stagingIx := p.(tabsize := 2 * p.tabsize, vec := nextVec)];
      vecs := vecs[nextVec := v + rest];
      nextVec := nextVec + 1;
      ReferredAt(pools, activeIx);
      ReferredAt(pools, stagingIx);
      CollectOldVec(p.vec);
      taken := true;
    }

    lemma StagedPool()
      requires Valid() && isStaging
      ensures PoolOk(Staging(), vecs[Staging().vec], staged) && |vecs[Staging().vec]| == Staging().tabsize > 0
      ensures Staging().highMark <= Staging().tabsize
      ensures !taken ==> Staging() == Active()
    {
    }

    /** `beam_catches_cons`: put a new entry at the head of a module's chain in the pool being staged. */
    method Cons(cp: nat, cdr: int, ghost m: Mod) returns (i: nat)
      requires Valid() && isStaging && ChainOf(live, m) == [] && cdr == Top(ChainOf(staged, m))
      modifies this`pools, this`vecs, this`nextVec, this`staged, this`taken
      ensures Valid() && taken && staged == LayoutAfterCons(old(staged), m)
      ensures ChainOf(staged, m) == old(ChainOf(staged, m)) + [i]
      ensures StagedCode(m) == old(StagedCode(m)) + [cp]
      ensures forall m1 :: m1 != m ==> ChainOf(staged, m1) == old(ChainOf(staged, m1))
      ensures forall m1 :: m1 != m ==> StagedCode(m1) == old(StagedCode(m1))
      ensures forall m1 :: LiveCode(m1) == old(LiveCode(m1))
    {
      hide PoolOk, StagingOk, CodeOf, LayoutAfterCons;
      if pools[stagingIx].freeList < 0 && pools[stagingIx].highMark >= pools[stagingIx].tabsize {
        Grow();
      }
      i := Take(cp, cdr, m);
    }

    /** The part of `beam_catches_cons` that takes a slot. */
    method Take(cp: nat, cdr: int, ghost m: Mod) returns (i: nat)
      requires Valid() && isStaging && ChainOf(live, m) == [] && cdr == Top(ChainOf(staged, m)) && !MustGrow(Staging())
      modifies this`pools, this`vecs, this`staged, this`taken
      ensures Valid() && taken && staged == LayoutAfterCons(old(staged), m)
      ensures ChainOf(staged, m) == old(ChainOf(staged, m)) + [i]
      ensures StagedCode(m) == old(StagedCode(m)) + [cp]
      ensures forall m1 :: m1 != m ==> ChainOf(staged, m1) == old(ChainOf(staged, m1))
      ensures forall m1 :: m1 != m ==> StagedCode(m1) == old(StagedCode(m1))
      ensures forall m1 :: LiveCode(m1) == old(LiveCode(m1))
    {
      hide PoolOk, StagingOk, CodeOf, LayoutAfterCons, Referred;
      var p := pools[stagingIx];
      var v := vecs[p.vec];
      TakeEffect(cp, cdr, m);
      ReferredUpdate(pools, stagingIx, PoolAfterCons(p, v));
      ReferredAt(pools, stagingIx);
      if p.freeList >= 0 {
        i := p.freeList;
        pools := pools[stagingIx := p.(freeList := v[i].cdr)];
      } else {
        i := p.highMark;
        pools := pools[stagingIx := p.(highMark := i + 1)];
      }
      vecs := vecs[p.vec := v[i := Catch(cp, cdr)]];
      staged := LayoutAfterCons(staged, m);
      taken := true;
      ReferredAt(pools, stagingIx);
    }

    /** What taking a slot does to pools, chains and code pointers. */
    lemma TakeEffect(cp: nat, cdr: int, m: Mod)
      requires Valid() && isStaging && ChainOf(live, m) == [] && cdr == Top(ChainOf(staged, m)) && !MustGrow(Staging())
      ensures
        var p, v, va := Staging(), vecs[Staging().vec], vecs[Active().vec];
        && 0 <= SlotFor(p) < |v|
        && var v1, l1, shared := v[SlotFor(p) := Catch(cp, cdr)], LayoutAfterCons(staged, m), p.vec == Active().vec;
           && StagingOk(Active(), if shared then v1 else va, PoolAfterCons(p, v), v1, live, l1, true)
           && ChainOf(l1, m) == ChainOf(staged, m) + [SlotFor(p)]
           && (forall m1 {:trigger ChainOf(l1, m1)} {:trigger ChainOf(staged, m1)} ::
                 && ChainIn(v, ChainOf(staged, m1)) && ChainIn(v1, ChainOf(l1, m1))
                 && CodeOf(v1, ChainOf(l1, m1)) == CodeOf(v, ChainOf(staged, m1)) + (if m1 == m then [cp] else [])
                 && (m1 != m ==> ChainOf(l1, m1) == ChainOf(staged, m1)))
           && (forall m1 {:trigger ChainOf(live, m1)} ::
                 ChainIn(v, ChainOf(live, m1)) && CodeOf(v1, ChainOf(live, m1)) == CodeOf(v, ChainOf(live, m1)))
    {
      hide PoolOk, CodeOf, LayoutAfterCons;
      var p, v, va, c := Staging(), vecs[Staging().vec], vecs[Active().vec], Catch(cp, cdr);
      TakeStaging(Active(), va, p, v, live, staged, taken, m, c, p.vec == Active().vec);
      ConsKeeps(p, v, staged, m, cp, cdr);
      forall m1 {
        TakeStaged(p, v, staged, m, cp, cdr, m1);
      }
      forall m1
        ensures ChainIn(v, ChainOf(live, m1))
        ensures CodeOf(v[SlotFor(p) := c], ChainOf(live, m1)) == CodeOf(v, ChainOf(live, m1))
      {
        assert LiveIn(va, v, live, staged, m1);
        TakeLive(va, p, v, live, staged, m, c, m1);
      }
    }

    /** One round of the loop in `beam_catches_delmod`. */
    method FreeHead(i: nat, ghost m: Mod) returns (cdr: int)
      requires Valid() && !isStaging && ChainOf(live, m) != [] && i == Top(ChainOf(live, m))
      modifies this`pools, this`vecs, this`live
      ensures Valid() && cdr == Top(ChainOf(live, m)) && live.free == old(live.free) + [i]
      ensures ChainOf(live, m) == old(ChainOf(live, m)[..|ChainOf(live, m)| - 1])
      ensures LiveCode(m) == old(LiveCode(m)[..|ChainOf(live, m)| - 1])
      ensures forall m1 :: m1 != m ==> ChainOf(live, m1) == old(ChainOf(live, m1)) && LiveCode(m1) == old(LiveCode(m1))
    {
      hide PoolOk, CodeOf, Referred;
      var p := pools[activeIx];
      var v := vecs[p.vec];
      ReferredUpdate(pools, activeIx, p.(freeList := i));
      ReferredAt(pools, activeIx);
      FreeKeeps(p, v, live, m);
      forall m1 {
        FreeStep(p, v, live, m, m1);
      }
      cdr := v[i].cdr;
      pools := pools[activeIx := p.(freeList := i)];
      vecs := vecs[p.vec := v[i := Catch(0, p.freeList)]];
      live := LayoutAfterFree(live, m);
      ReferredAt(pools, activeIx);
    }

    /**
     `beam_catches_delmod` on the active pool: it succeeds exactly when all code pointers of the
     chain lie in the module's code, and then the whole chain is on the free list.
     */
    method DelMod(head: int, start: nat, bytes: nat, ghost m: Mod) returns (ok: bool)
      requires Valid() && !isStaging && head == Top(ChainOf(live, m))
      modifies this`pools, this`vecs, this`live
      ensures Valid()
      ensures ok <==> AllInArea(old(LiveCode(m)), start, bytes)
      ensures ok ==> ChainOf(live, m) == [] && live.free == old(live.free) + Reversed(old(ChainOf(live, m)))
      ensures forall m1 :: m1 != m ==> ChainOf(live, m1) == old(ChainOf(live, m1)) && LiveCode(m1) == old(LiveCode(m1))
    {
      hide PoolOk, StagingOk, CodeOf, LiveCode, Reversed, Freeing, AllInArea, Referred;
      ghost var chain, code, free := ChainOf(live, m), LiveCode(m), live.free;
      ghost var n := |chain|;
      var i := head;
      FreeingStarts(free, chain, code, start, bytes);
      while i != NIL
        invariant Valid() && !isStaging && i == Top(ChainOf(live, m)) && n == |ChainOf(live, m)|
        invariant Freeing(free, chain, code, n, live.free, ChainOf(live, m), LiveCode(m), start, bytes)
        invariant forall m1 :: m1 != m ==>
          ChainOf(live, m1) == old(ChainOf(live, m1)) && LiveCode(m1) == old(LiveCode(m1))
        decreases n
      {
        FreeingStep(free, chain, code, n, live.free, ChainOf(live, m), LiveCode(m), start, bytes);
        n := n - 1;
        LiveEntry(m, n);
        if !InArea(vecs[pools[activeIx].vec][i].cp, start, bytes) {
          return false;
        }
        i := FreeHead(i, m);
      }
      FreeingEnds(free, chain, code, n, live.free, ChainOf(live, m), LiveCode(m), start, bytes);
      return true;
    }

    /** `beam_catches_car`: no code pointer for an index out of range, and a loaded module's own one for its entries. */
    method Car(i: nat) returns (r: Option<nat>)
      requires Valid()
      ensures r.None? <==> i >= Active().tabsize
      ensures forall m, k :: 0 <= k < |ChainOf(live, m)| && ChainOf(live, m)[k] == i ==> r == Some(LiveCode(m)[k])
    {
      var p := pools[activeIx];
      forall m, k | 0 <= k < |ChainOf(live, m)| && ChainOf(live, m)[k] == i
        ensures i < p.tabsize && vecs[p.vec][i].cp == LiveCode(m)[k]
      {
        LiveEntry(m, k);
      }
      if i >= p.tabsize {
        return None;
      }
      return Some(vecs[p.vec][i].cp);
    }
  }

  /** Load a module with two catches. */
  method LoadTwo() returns (t: CatchTable, head: nat)
    ensures fresh(t) && t.Valid() && !t.isStaging && t.live.free == [] && ChainOf(t.live, 1) == []
    ensures |ChainOf(t.live, 0)| == 2 && head == Top(ChainOf(t.live, 0)) && t.LiveCode(0) == [1, 2]
  {
    hide PoolOk, StagingOk, CodeOf;
    t := new CatchTable();
    t.StartStaging();
    assert t.StagedCode(0) == [];
    head := t.Cons(1, NIL, 0);
    head := t.Cons(2, head, 0);
    t.EndStaging(true);
  }

  /** And purge it. */
  method LoadAndPurge() returns (t: CatchTable)
    ensures fresh(t) && t.Valid() && !t.isStaging && |t.live.free| == 2 && ChainOf(t.live, 1) == []
  {
    hide PoolOk, StagingOk, CodeOf;
    var head;
    t, head := LoadTwo();
    var ok := t.DelMod(head, 0, 3, 0);
  }

  /**
   Give up loading another module after its first catch: the active pool's free list is broken.
   */
  method AbortedStagingWitness() returns (t: CatchTable)
    ensures t.Shape() && !t.isStaging && |t.live.free| == 2
    ensures !ListAt(t.vecs[t.Active().vec], t.Active().freeList, t.live.free)
  {
    hide PoolOk, StagingOk, CodeOf, ListAt;
    t := LoadAndPurge();
    t.StartStaging();
    var i := t.Cons(7, NIL, 1);
    t.EndStaging(false);
  }
}
