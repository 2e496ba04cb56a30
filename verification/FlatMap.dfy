/**
 Updates of maps. A small map is a sorted tuple of keys and a vector of values in heap words; an
 update merges it with a sorted list of new associations into words that were reserved beforehand.
 */
module FlatMap {

  const MAP_HEADER_FLATMAP_SZ: nat := 3
  const MAP_SMALL_MAP_LIMIT: nat := 32

  /** A term, identified by its machine word. */
  type Term = nat

  /** The position of a term in the order of map keys; words of equal terms have equal ranks. */
  type Rank = Term -> real

  datatype Entry = Entry(key: Term, val: Term)

  datatype Word =
    | MapHeader
    | Size(n: nat)
    | Keys(tuple: nat)
    | Arity(n: nat)
    | BignumHeader(n: nat)
    | Value(term: Term)

  /** A flat map at a heap address, a map in its hashed form, or some other term. */
  datatype MapTerm = Flat(addr: nat) | Hash(contents: map<real, Term>) | NotAMap

  datatype ExactResult = Done(res: MapTerm, top: nat) | BadKey(key: Term) | BadMap

  // ---------------------------------------------------------------- associations

  ghost predicate Ascending(rank: Rank, es: seq<Entry>) {
    forall i, j :: 0 <= i < j < |es| ==> rank(es[i].key) < rank(es[j].key)
  }

  function AsMap(rank: Rank, es: seq<Entry>): map<real, Term> {
    if es == [] then map[] else map[rank(es[0].key) := es[0].val] + AsMap(rank, es[1..])
  }

  /** The merged associations; a key that is already there keeps its word. */
  function Merge(rank: Rank, olds: seq<Entry>, upd: seq<Entry>): seq<Entry>
    decreases |olds| + |upd|
  {
    if olds == [] then upd
    else if upd == [] then olds
    else if rank(olds[0].key) < rank(upd[0].key) then [olds[0]] + Merge(rank, olds[1..], upd)
    else if rank(olds[0].key) > rank(upd[0].key) then [upd[0]] + Merge(rank, olds, upd[1..])
    else [Entry(olds[0].key, upd[0].val)] + Merge(rank, olds[1..], upd[1..])
  }

  lemma {:induction false} AsMapKeys(rank: Rank, es: seq<Entry>, x: real)
    ensures x in AsMap(rank, es) <==> exists i :: 0 <= i < |es| && rank(es[i].key) == x
  {
    if es != [] {
      AsMapKeys(rank, es[1..], x);
      if x in AsMap(rank, es[1..]) {
        var i :| 0 <= i < |es[1..]| && rank(es[1..][i].key) == x;
        assert rank(es[i + 1].key) == x;
      }
      if i :| 0 <= i < |es| && rank(es[i].key) == x {
        if i > 0 {
          assert rank(es[1..][i - 1].key) == x;
        }
      }
    }
  }

  lemma AboveAll(rank: Rank, es: seq<Entry>, x: real)
    requires Ascending(rank, es) && (es != [] ==> x < rank(es[0].key))
    ensures x !in AsMap(rank, es)
  {
    AsMapKeys(rank, es, x);
  }

  lemma AsMapCons(rank: Rank, e: Entry, es: seq<Entry>)
    ensures AsMap(rank, [e] + es) == map[rank(e.key) := e.val] + AsMap(rank, es)
  {
    assert ([e] + es)[1..] == es;
  }

  lemma OverrideMoves(x: real, v: Term, w: Term, a: map<real, Term>, b: map<real, Term>)
    ensures map[x := v] + (a + b) == (map[x := v] + a) + b
    ensures x !in a ==> map[x := v] + (a + b) == a + (map[x := v] + b)
    ensures x !in a ==> map[x := w] + (a + b) == (map[x := v] + a) + (map[x := w] + b)
  {
  }

  /** The merge denotes the old map overridden by the updates. */
  lemma {:induction false} MergeOverrides(rank: Rank, olds: seq<Entry>, upd: seq<Entry>)
    requires Ascending(rank, olds) && Ascending(rank, upd)
    ensures AsMap(rank, Merge(rank, olds, upd)) == AsMap(rank, olds) + AsMap(rank, upd)
    decreases |olds| + |upd|
  {
    if olds == [] || upd == [] {
    } else {
      var x, y := rank(olds[0].key), rank(upd[0].key);
      if x < y {
        OverrideFirst(rank, olds, upd);
      } else if x > y {
        OverrideSecond(rank, olds, upd);
      } else {
        OverrideBoth(rank, olds, upd);
      }
    }
  }

  lemma {:induction false} OverrideFirst(rank: Rank, olds: seq<Entry>, upd: seq<Entry>)
    requires Ascending(rank, olds) && Ascending(rank, upd)
    requires olds != [] && upd != [] && rank(olds[0].key) < rank(upd[0].key)
    ensures AsMap(rank, Merge(rank, olds, upd)) == AsMap(rank, olds) + AsMap(rank, upd)
    decreases |olds| + |upd|, 0
  {
    MergeOverrides(rank, olds[1..], upd);
    AsMapCons(rank, olds[0], Merge(rank, olds[1..], upd));
    OverrideMoves(rank(olds[0].key), olds[0].val, olds[0].val, AsMap(rank, olds[1..]), AsMap(rank, upd));
  }

  lemma {:induction false} OverrideSecond(rank: Rank, olds: seq<Entry>, upd: seq<Entry>)
    requires Ascending(rank, olds) && Ascending(rank, upd)
    requires olds != [] && upd != [] && rank(olds[0].key) > rank(upd[0].key)
    ensures AsMap(rank, Merge(rank, olds, upd)) == AsMap(rank, olds) + AsMap(rank, upd)
    decreases |olds| + |upd|, 0
  {
    MergeOverrides(rank, olds, upd[1..]);
    AsMapCons(rank, upd[0], Merge(rank, olds, upd[1..]));
    AboveAll(rank, olds, rank(upd[0].key));
    OverrideMoves(rank(upd[0].key), upd[0].val, upd[0].val, AsMap(rank, olds), AsMap(rank, upd[1..]));
  }

  lemma {:induction false} OverrideBoth(rank: Rank, olds: seq<Entry>, upd: seq<Entry>)
    requires Ascending(rank, olds) && Ascending(rank, upd)
    requires olds != [] && upd != [] && rank(olds[0].key) == rank(upd[0].key)
    ensures AsMap(rank, Merge(rank, olds, upd)) == AsMap(rank, olds) + AsMap(rank, upd)
    decreases |olds| + |upd|, 0
  {
    MergeOverrides(rank, olds[1..], upd[1..]);
    AsMapCons(rank, Entry(olds[0].key, upd[0].val), Merge(rank, olds[1..], upd[1..]));
    AboveAll(rank, olds[1..], rank(olds[0].key));
    OverrideMoves(rank(olds[0].key), olds[0].val, upd[0].val, AsMap(rank, olds[1..]), AsMap(rank, upd[1..]));
  }

  lemma ConsAscending(rank: Rank, e: Entry, es: seq<Entry>)
    requires Ascending(rank, es) && (es != [] ==> rank(e.key) < rank(es[0].key))
    ensures Ascending(rank, [e] + es)
  {
  }

  lemma {:induction false} MergeAscends(rank: Rank, olds: seq<Entry>, upd: seq<Entry>)
    requires Ascending(rank, olds) && Ascending(rank, upd)
    ensures Ascending(rank, Merge(rank, olds, upd))
    ensures
      var m := Merge(rank, olds, upd);
      m != [] ==>
        || (olds != [] && rank(m[0].key) == rank(olds[0].key))
        || (upd != [] && rank(m[0].key) == rank(upd[0].key))
    decreases |olds| + |upd|
  {
    if olds == [] || upd == [] {
    } else {
      var x, y := rank(olds[0].key), rank(upd[0].key);
      if x < y {
        MergeAscends(rank, olds[1..], upd);
        ConsAscending(rank, olds[0], Merge(rank, olds[1..], upd));
      } else if x > y {
        MergeAscends(rank, olds, upd[1..]);
        ConsAscending(rank, upd[0], Merge(rank, olds, upd[1..]));
      } else {
        MergeAscends(rank, olds[1..], upd[1..]);
        ConsAscending(rank, Entry(olds[0].key, upd[0].val), Merge(rank, olds[1..], upd[1..]));
      }
    }
  }

  predicate SameKeys(a: seq<Entry>, b: seq<Entry>) {
    |a| == |b| && forall i :: 0 <= i < |a| ==> a[i].key == b[i].key
  }

  /** A merge is as long as the old map exactly when it has the same key tuple. */
  lemma {:induction false} MergeLength(rank: Rank, olds: seq<Entry>, upd: seq<Entry>)
    ensures |olds| <= |Merge(rank, olds, upd)| <= |olds| + |upd|
    ensures |Merge(rank, olds, upd)| == |olds| ==> SameKeys(Merge(rank, olds, upd), olds)
    decreases |olds| + |upd|
  {
    if olds == [] || upd == [] {
    } else if rank(olds[0].key) < rank(upd[0].key) {
      MergeLength(rank, olds[1..], upd);
    } else if rank(olds[0].key) > rank(upd[0].key) {
      MergeLength(rank, olds, upd[1..]);
    } else {
      MergeLength(rank, olds[1..], upd[1..]);
    }
  }

  lemma {:induction false} AsMapSize(rank: Rank, es: seq<Entry>)
    requires Ascending(rank, es)
    ensures |AsMap(rank, es)| == |es|
  {
    if es != [] {
      AsMapSize(rank, es[1..]);
      AboveAll(rank, es[1..], rank(es[0].key));
      assert AsMap(rank, es).Keys == {rank(es[0].key)} + AsMap(rank, es[1..]).Keys;
    }
  }

  // ---------------------------------------------------------------- heap layout

  ghost predicate ValuesAt(heap: array<Word>, at: nat, es: seq<Entry>)
    reads heap
  {
    at + |es| <= heap.Length && forall i :: 0 <= i < |es| ==> heap[at + i] == Value(es[i].val)
  }

  ghost predicate KeysAt(heap: array<Word>, at: nat, es: seq<Entry>)
    reads heap
  {
    at + |es| <= heap.Length && forall i :: 0 <= i < |es| ==> heap[at + i] == Value(es[i].key)
  }

  /** A flat map at `a` with its key tuple at `k`, both below `top`. */
  ghost predicate MapAt(heap: array<Word>, top: nat, a: nat, k: nat, es: seq<Entry>)
    reads heap
  {
    && a + MAP_HEADER_FLATMAP_SZ + |es| <= top <= heap.Length
    && heap[a] == MapHeader && heap[a + 1] == Size(|es|) && heap[a + 2] == Keys(k)
    && ValuesAt(heap, a + MAP_HEADER_FLATMAP_SZ, es)
    && (es != [] ==> k + 1 + |es| <= top && heap[k] == Arity(|es|) && KeysAt(heap, k + 1, es))
  }

  // ---------------------------------------------------------------- merging

  /** How far the merge loop has come. */
  ghost predicate Merging(rank: Rank, olds: seq<Entry>, upd: seq<Entry>, i: nat, j: nat, out: seq<Entry>) {
    && i <= |olds| && j <= |upd| && i <= |out| <= i + j
    && out + Merge(rank, olds[i..], upd[j..]) == Merge(rank, olds, upd)
    && (|out| == i ==> SameKeys(out, olds[..i]))
  }

  /** What the two flags mean: some key is new; or else, some value is. */
  ghost predicate Flags(olds: seq<Entry>, i: nat, out: seq<Entry>, changedKeys: bool, changedValues: bool) {
    && i <= |olds|
    && (changedKeys <==> |out| > i)
    && (!changedKeys ==> (changedValues <==> out != olds[..i]))
  }

  lemma FlagsStep(olds: seq<Entry>, i: nat, out: seq<Entry>, changedKeys: bool, changedValues: bool, e: Entry)
    requires Flags(olds, i, out, changedKeys, changedValues) && i <= |out|
    ensures Flags(olds, i, out + [e], true, changedValues)
    ensures i < |olds| ==> Flags(olds, i + 1, out + [e], changedKeys, changedValues || e != olds[i])
  {
    if i < |olds| && |out| == i {
      assert olds[..i + 1] == olds[..i] + [olds[i]];
      assert (out + [e])[..i] == out && (out + [e])[i] == e;
    }
  }

  lemma MergeStart(rank: Rank, olds: seq<Entry>, upd: seq<Entry>)
    ensures Merging(rank, olds, upd, 0, 0, []) && Flags(olds, 0, [], false, false)
  {
    assert olds[0..] == olds && upd[0..] == upd;
  }

  /** What the merge of the rest begins with, appended to what is there already. */
  lemma MergeTakesOld(rank: Rank, olds: seq<Entry>, upd: seq<Entry>, i: nat, j: nat, out: seq<Entry>)
    requires i < |olds| && j < |upd| && rank(olds[i].key) < rank(upd[j].key)
    ensures out + Merge(rank, olds[i..], upd[j..]) == (out + [olds[i]]) + Merge(rank, olds[i + 1..], upd[j..])
  {
    assert olds[i..][1..] == olds[i + 1..];
  }

  lemma MergeTakesNew(rank: Rank, olds: seq<Entry>, upd: seq<Entry>, i: nat, j: nat, out: seq<Entry>)
    requires i < |olds| && j < |upd| && rank(olds[i].key) > rank(upd[j].key)
    ensures out + Merge(rank, olds[i..], upd[j..]) == (out + [upd[j]]) + Merge(rank, olds[i..], upd[j + 1..])
  {
    assert upd[j..][1..] == upd[j + 1..];
  }

  lemma MergeTakesBoth(rank: Rank, olds: seq<Entry>, upd: seq<Entry>, i: nat, j: nat, out: seq<Entry>)
    requires i < |olds| && j < |upd| && rank(olds[i].key) == rank(upd[j].key)
    ensures out + Merge(rank, olds[i..], upd[j..])
      == (out + [Entry(olds[i].key, upd[j].val)]) + Merge(rank, olds[i + 1..], upd[j + 1..])
  {
    assert olds[i..][1..] == olds[i + 1..] && upd[j..][1..] == upd[j + 1..];
  }

  lemma SameKeysSnoc(out: seq<Entry>, olds: seq<Entry>, i: nat, e: Entry)
    requires i < |olds| && SameKeys(out, olds[..i]) && e.key == olds[i].key
    ensures SameKeys(out + [e], olds[..i + 1])
  {
  }

  lemma MergeOld(rank: Rank, olds: seq<Entry>, upd: seq<Entry>, i: nat, j: nat, out: seq<Entry>)
    requires Merging(rank, olds, upd, i, j, out) && i < |olds| && j < |upd|
    requires rank(olds[i].key) < rank(upd[j].key)
    ensures Merging(rank, olds, upd, i + 1, j, out + [olds[i]])
  {
    hide Merge, SameKeys;
    MergeTakesOld(rank, olds, upd, i, j, out);
    if |out| == i {
      SameKeysSnoc(out, olds, i, olds[i]);
    }
  }

  lemma MergeNew(rank: Rank, olds: seq<Entry>, upd: seq<Entry>, i: nat, j: nat, out: seq<Entry>)
    requires Merging(rank, olds, upd, i, j, out) && i < |olds| && j < |upd|
    requires rank(olds[i].key) > rank(upd[j].key)
    ensures Merging(rank, olds, upd, i, j + 1, out + [upd[j]])
  {
    hide Merge, SameKeys;
    MergeTakesNew(rank, olds, upd, i, j, out);
  }

  lemma MergeBoth(rank: Rank, olds: seq<Entry>, upd: seq<Entry>, i: nat, j: nat, out: seq<Entry>)
    requires Merging(rank, olds, upd, i, j, out) && i < |olds| && j < |upd|
    requires rank(olds[i].key) == rank(upd[j].key)
    ensures Merging(rank, olds, upd, i + 1, j + 1, out + [Entry(olds[i].key, upd[j].val)])
  {
    hide Merge, SameKeys;
    MergeTakesBoth(rank, olds, upd, i, j, out);
    if |out| == i {
      SameKeysSnoc(out, olds, i, Entry(olds[i].key, upd[j].val));
    }
  }

  /** Word `x` has not changed below `bound`. */
  twostate predicate Below(heap: array<Word>, bound: nat)
    reads heap
  {
    forall x :: 0 <= x < bound && x < heap.Length ==> heap[x] == old(heap[x])
  }

  /** Both vectors written so far, and the old map they are taken from. */
  ghost predicate Written(heap: array<Word>, v0: nat, k0: nat, out: seq<Entry>)
    reads heap
  {
    ValuesAt(heap, v0, out) && KeysAt(heap, k0, out)
  }

  /** Write the next value and the next key. */
  method Append(heap: array<Word>, v0: nat, k0: nat, t: nat, e: Entry, ghost out: seq<Entry>)
    requires Written(heap, v0, k0, out) && t == |out| && v0 + t < k0 && k0 + t < heap.Length
    modifies heap
    ensures Below(heap, v0) && Written(heap, v0, k0, out + [e])
  {
    heap[v0 + t] := Value(e.val);
    heap[k0 + t] := Value(e.key);
  }

  /** Write the next value only. */
  method AppendValue(heap: array<Word>, v0: nat, t: nat, e: Entry, ghost out: seq<Entry>)
    requires ValuesAt(heap, v0, out) && t == |out| && v0 + t < heap.Length
    modifies heap
    ensures Below(heap, v0) && ValuesAt(heap, v0, out + [e])
  {
    heap[v0 + t] := Value(e.val);
  }

  /**
   The loop of `erts_gc_update_map_assoc` that runs until either side is exhausted. Values go to
   `v0`, keys to `k0`; the old ones are read at `ov` and `ok`. `t` pairs have been written.
   */
  method MergeLoop(heap: array<Word>, rank: Rank, ov: nat, ok: nat, v0: nat, k0: nat, upd: seq<Entry>, numOld: nat,
                   ghost olds: seq<Entry>)
    returns (i: nat, j: nat, t: nat, changedKeys: bool, changedValues: bool, ghost out: seq<Entry>)
    requires olds != [] && upd != [] && numOld == |olds|
    requires Written(heap, ov, ok, olds) && ov + |olds| <= v0 && ok + |olds| <= v0
    requires v0 + |olds| + |upd| < k0 && k0 + |olds| + |upd| <= heap.Length
    modifies heap
    ensures Below(heap, v0) && Written(heap, ov, ok, olds)
    ensures i <= |olds| && j <= |upd| && (i == |olds| || j == |upd|)
    ensures Merging(rank, olds, upd, i, j, out) && Written(heap, v0, k0, out) && t == |out|
    ensures Flags(olds, i, out, changedKeys, changedValues)
  {
    hide Merging, Flags;
    i, j, t, changedKeys, changedValues, out := 0, 0, 0, false, false, [];
    MergeStart(rank, olds, upd);
    while i < numOld && j < |upd|
      invariant i <= |olds| && j <= |upd| && i <= t <= i + j && t == |out|
      invariant Merging(rank, olds, upd, i, j, out) && Flags(olds, i, out, changedKeys, changedValues)
      invariant Below(heap, v0) && Written(heap, v0, k0, out) && Written(heap, ov, ok, olds)
      decreases numOld - i + |upd| - j
    {
      assert heap[ok + i] == Value(olds[i].key) && heap[ov + i] == Value(olds[i].val);
      var key, val := heap[ok + i].term, heap[ov + i].term;
      var newKey, newVal := upd[j].key, upd[j].val;
      var e := Entry(key, val);
      if rank(key) < rank(newKey) {
        MergeOld(rank, olds, upd, i, j, out);
        FlagsStep(olds, i, out, changedKeys, changedValues, e);
        i := i + 1;
      } else if rank(key) > rank(newKey) {
        MergeNew(rank, olds, upd, i, j, out);
        e := upd[j];
        FlagsStep(olds, i, out, changedKeys, changedValues, e);
        changedKeys := true;
        j := j + 1;
      } else {
        MergeBoth(rank, olds, upd, i, j, out);
        e := Entry(key, newVal);
        FlagsStep(olds, i, out, changedKeys, changedValues, e);
        if val != newVal {
          changedValues := true;
        }
        i, j := i + 1, j + 1;
      }
      Append(heap, v0, k0, t, e, out);
      out, t := out + [e], t + 1;
    }
  }

  /** The loop that copies the remaining updates. */
  method CopyUpdates(heap: array<Word>, v0: nat, k0: nat, upd: seq<Entry>, j0: nat, t0: nat, ghost out0: seq<Entry>)
    returns (t: nat, ghost out: seq<Entry>)
    requires Written(heap, v0, k0, out0) && t0 == |out0| && j0 <= |upd|
    requires v0 + t0 + |upd| - j0 < k0 && k0 + t0 + |upd| - j0 <= heap.Length
    modifies heap
    ensures Below(heap, v0) && Written(heap, v0, k0, out) && t == |out| && out == out0 + upd[j0..]
  {
    var j := j0;
    t, out := t0, out0;
    while j < |upd|
      invariant j0 <= j <= |upd| && t == |out| && out == out0 + upd[j0..j]
      invariant Below(heap, v0) && Written(heap, v0, k0, out)
    {
      Append(heap, v0, k0, t, upd[j], out);
      out, t, j := out + [upd[j]], t + 1, j + 1;
    }
    assert upd[j0..j] == upd[j0..];
  }

  /** The loop that copies the remaining old keys and values. */
  method CopyOlds(heap: array<Word>, ov: nat, ok: nat, v0: nat, k0: nat, numOld: nat, i0: nat, t0: nat,
                  ghost olds: seq<Entry>, ghost out0: seq<Entry>)
    returns (t: nat, ghost out: seq<Entry>)
    requires Written(heap, v0, k0, out0) && t0 == |out0| && i0 <= |olds| == numOld
    requires Written(heap, ov, ok, olds) && ov + |olds| <= v0 && ok + |olds| <= v0
    requires v0 + t0 + |olds| - i0 < k0 && k0 + t0 + |olds| - i0 <= heap.Length
    modifies heap
    ensures Below(heap, v0) && Written(heap, v0, k0, out) && t == |out| && out == out0 + olds[i0..]
  {
    var i := i0;
    t, out := t0, out0;
    while i < numOld
      invariant i0 <= i <= |olds| && t == |out| && out == out0 + olds[i0..i]
      invariant Below(heap, v0) && Written(heap, v0, k0, out) && Written(heap, ov, ok, olds)
    {
      assert heap[ok + i] == Value(olds[i].key) && heap[ov + i] == Value(olds[i].val);
      var e := Entry(heap[ok + i].term, heap[ov + i].term);
      Append(heap, v0, k0, t, e, out);
      out, t, i := out + [e], t + 1, i + 1;
    }
    assert olds[i0..i] == olds[i0..];
  }

  /** The loop that copies the remaining values when the old key tuple is retained. */
  method CopyValues(heap: array<Word>, ov: nat, v0: nat, numOld: nat, i0: nat, t0: nat, ghost olds: seq<Entry>,
                    ghost out0: seq<Entry>)
    returns (t: nat, ghost out: seq<Entry>)
    requires ValuesAt(heap, v0, out0) && t0 == |out0| && i0 <= |olds| == numOld
    requires ValuesAt(heap, ov, olds) && ov + |olds| <= v0
    requires v0 + t0 + |olds| - i0 <= heap.Length
    modifies heap
    ensures Below(heap, v0) && ValuesAt(heap, v0, out) && t == |out| && out == out0 + olds[i0..]
  {
    var i := i0;
    t, out := t0, out0;
    while i < numOld
      invariant i0 <= i <= |olds| && t == |out| == t0 + i - i0 && out == out0 + olds[i0..i]
      invariant Below(heap, v0) && ValuesAt(heap, v0, out) && ValuesAt(heap, ov, olds)
    {
      assert heap[ov + i] == Value(olds[i].val);
      heap[v0 + t] := heap[ov + i];
      out, t, i := out + [olds[i]], t + 1, i + 1;
    }
    assert olds[i0..i] == olds[i0..];
  }

  // ---------------------------------------------------------------- the update

  /** The words reserved for the worst case, in which every update is a new key. */
  function Need(numOld: nat, numUpdates: nat): nat {
    2 * (numOld + numUpdates) + 1 + MAP_HEADER_FLATMAP_SZ
  }

  /**
   A flat map with `m` in freshly reserved words, the key tuple after `room` values, and the rest of
   the values filled out.
   */
  ghost predicate FreshMap(heap: array<Word>, htop: nat, room: nat, top: nat, m: seq<Entry>)
    reads heap
  {
    && |m| <= room
    && MapAt(heap, top, htop, htop + MAP_HEADER_FLATMAP_SZ + room, m)
    && top == htop + MAP_HEADER_FLATMAP_SZ + room + 1 + |m|
    && (|m| < room ==> heap[htop + MAP_HEADER_FLATMAP_SZ + |m|] == BignumHeader(room - |m| - 1))
  }

  /**
   What an update of a flat map leaves: the old map if nothing changed; a map that shares the key
   tuple if only values changed; otherwise a new map, hashed if it has become too large.
   */
  ghost predicate Updated(heap: array<Word>, rank: Rank, htop: nat, top: nat, a: nat, k: nat, olds: seq<Entry>,
                          upd: seq<Entry>, res: MapTerm)
    reads heap
  {
    var m := Merge(rank, olds, upd);
    if m == olds then
      res == Flat(a) && top == htop
    else if |m| == |olds| then
      res == Flat(htop) && top == htop + MAP_HEADER_FLATMAP_SZ + |m| && MapAt(heap, top, htop, k, m)
    else
      && FreshMap(heap, htop, |olds| + |upd|, top, m)
      && res == if |m| > MAP_SMALL_MAP_LIMIT then Hash(AsMap(rank, m)) else Flat(htop)
  }

  /** What the merge loop and one of the copying loops have produced. */
  lemma MergeEnd(rank: Rank, olds: seq<Entry>, upd: seq<Entry>, i: nat, j: nat, out: seq<Entry>, changedKeys: bool,
                 changedValues: bool)
    requires Merging(rank, olds, upd, i, j, out) && (i == |olds| || j == |upd|)
    requires Flags(olds, i, out, changedKeys, changedValues)
    ensures
      var m := Merge(rank, olds, upd);
      && |m| <= |olds| + |upd|
      && (j < |upd| ==> m == out + upd[j..] && |m| > |olds|)
      && (j == |upd| ==> m == out + olds[i..])
      && (j == |upd| && changedKeys ==> |m| > |olds|)
      && (j == |upd| && !changedKeys ==> |m| == |olds| && SameKeys(m, olds) && (changedValues <==> m != olds))
  {
    MergeLength(rank, olds, upd);
    if j == |upd| && !changedKeys {
      assert olds == olds[..i] + olds[i..];
      if out != olds[..i] {
        assert (out + olds[i..])[..i] == out;
      }
    }
  }

  /** `erts_gc_update_map_assoc` on a flat map that is not empty. */
  method UpdateFlat(heap: array<Word>, htop: nat, a: nat, rank: Rank, upd: seq<Entry>, ghost k: nat,
                    ghost olds: seq<Entry>)
    returns (res: MapTerm, top: nat)
    requires olds != [] && upd != [] && MapAt(heap, htop, a, k, olds) && htop + Need(|olds|, |upd|) <= heap.Length
    modifies heap
    ensures Below(heap, htop) && Updated(heap, rank, htop, top, a, k, olds, upd, res)
  {
    hide Merging, Flags, Merge, AsMap, SameKeys, FreshMap;
    var numOld, tuple := heap[a + 1].n, heap[a + 2].tuple;
    var v0 := htop + MAP_HEADER_FLATMAP_SZ;
    var k0 := v0 + numOld + |upd| + 1;
    var ov, ok := a + MAP_HEADER_FLATMAP_SZ, tuple + 1;
    var i, j, t, changedKeys, changedValues, out := MergeLoop(heap, rank, ov, ok, v0, k0, upd, numOld, olds);
    MergeEnd(rank, olds, upd, i, j, out, changedKeys, changedValues);
    if j < |upd| || changedKeys {
      res, top := Rebuild(heap, rank, htop, ov, ok, numOld, upd, i, j, t, olds, out, Merge(rank, olds, upd));
    } else if !changedValues {
      res, top := Flat(a), htop;
    } else {
      top := Retain(heap, htop, numOld, tuple, ov, i, t, olds, out, Merge(rank, olds, upd));
      res := Flat(htop);
    }
  }

  /** New keys have come in: copy what is left on either side, and finish the new map. */
  method Rebuild(heap: array<Word>, rank: Rank, htop: nat, ov: nat, ok: nat, numOld: nat, upd: seq<Entry>,
                 i: nat, j: nat, t0: nat, ghost olds: seq<Entry>, ghost out0: seq<Entry>, ghost m: seq<Entry>)
    returns (res: MapTerm, top: nat)
    requires numOld == |olds| && i <= |olds| && j <= |upd| && t0 == |out0| && |m| <= |olds| + |upd|
    requires m == out0 + if j < |upd| then upd[j..] else olds[i..]
    requires htop + Need(|olds|, |upd|) <= heap.Length && ov + |olds| <= htop && ok + |olds| <= htop
    requires Written(heap, ov, ok, olds)
    requires Written(heap, htop + MAP_HEADER_FLATMAP_SZ, htop + MAP_HEADER_FLATMAP_SZ + |olds| + |upd| + 1, out0)
    modifies heap
    ensures Below(heap, htop) && FreshMap(heap, htop, |olds| + |upd|, top, m)
    ensures res == if |m| > MAP_SMALL_MAP_LIMIT then Hash(AsMap(rank, m)) else Flat(htop)
  {
    hide AsMap, FreshMap, Written;
    var v0 := htop + MAP_HEADER_FLATMAP_SZ;
    var k0 := v0 + numOld + |upd| + 1;
    var t;
    ghost var out;
    if j < |upd| {
      t, out := CopyUpdates(heap, v0, k0, upd, j, t0, out0);
    } else {
      t, out := CopyOlds(heap, ov, ok, v0, k0, numOld, i, t0, olds, out0);
    }
    res, top := Finish(heap, rank, htop, numOld + |upd|, t, out);
  }

  /** Only values have changed: copy the remaining ones and keep the old key tuple. */
  method Retain(heap: array<Word>, htop: nat, numOld: nat, tuple: nat, ov: nat, i: nat, t: nat,
                ghost olds: seq<Entry>, ghost out: seq<Entry>, ghost m: seq<Entry>)
    returns (top: nat)
    requires olds != [] && numOld == |olds| && htop + MAP_HEADER_FLATMAP_SZ + |olds| <= heap.Length
    requires ov + |olds| <= htop && tuple + 1 + |olds| <= htop && heap[tuple] == Arity(|olds|)
    requires Written(heap, ov, tuple + 1, olds)
    requires i <= |olds| && t == |out| && ValuesAt(heap, htop + MAP_HEADER_FLATMAP_SZ, out)
    requires m == out + olds[i..] && SameKeys(m, olds)
    modifies heap
    ensures Below(heap, htop) && top == htop + MAP_HEADER_FLATMAP_SZ + |m| && MapAt(heap, top, htop, tuple, m)
  {
    var v0 := htop + MAP_HEADER_FLATMAP_SZ;
    var t1, out1 := CopyValues(heap, ov, v0, numOld, i, t, olds, out);
    heap[htop], heap[htop + 1], heap[htop + 2] := MapHeader, Size(numOld), Keys(tuple);
    top := v0 + t1;
  }

  /** Fill in the map header, the unused part of the values, and the sizes. */
  method FillIn(heap: array<Word>, htop: nat, room: nat, t: nat, ghost out: seq<Entry>)
    requires t == |out| <= room && htop + MAP_HEADER_FLATMAP_SZ + 2 * room + 1 <= heap.Length
    requires Written(heap, htop + MAP_HEADER_FLATMAP_SZ, htop + MAP_HEADER_FLATMAP_SZ + room + 1, out)
    modifies heap
    ensures Below(heap, htop) && FreshMap(heap, htop, room, htop + MAP_HEADER_FLATMAP_SZ + room + 1 + t, out)
    ensures Written(heap, htop + MAP_HEADER_FLATMAP_SZ, htop + MAP_HEADER_FLATMAP_SZ + room + 1, out)
  {
    var v0 := htop + MAP_HEADER_FLATMAP_SZ;
    heap[htop], heap[htop + 1], heap[htop + 2] := MapHeader, Size(t), Keys(v0 + room);
    if room - t > 0 {
      heap[v0 + t] := BignumHeader(room - t - 1);
    }
    heap[v0 + room] := Arity(t);
  }

  /** The end of the function: a map that has become too large is handed over to the hashed form. */
  method Finish(heap: array<Word>, rank: Rank, htop: nat, room: nat, t: nat, ghost out: seq<Entry>)
    returns (res: MapTerm, top: nat)
    requires t == |out| <= room && htop + MAP_HEADER_FLATMAP_SZ + 2 * room + 1 <= heap.Length
    requires Written(heap, htop + MAP_HEADER_FLATMAP_SZ, htop + MAP_HEADER_FLATMAP_SZ + room + 1, out)
    modifies heap
    ensures Below(heap, htop) && FreshMap(heap, htop, room, top, out)
    ensures res == if t > MAP_SMALL_MAP_LIMIT then Hash(AsMap(rank, out)) else Flat(htop)
  {
    hide Written, FreshMap, AsMap;
    FillIn(heap, htop, room, t, out);
    var v0 := htop + MAP_HEADER_FLATMAP_SZ;
    top := v0 + room + 1 + t;
    res := Flat(htop);
    if t > MAP_SMALL_MAP_LIMIT {
      res := Hash(AsMap(rank, ReadEntries(heap, v0, v0 + room + 1, t, out)));
    }
  }

  /** The associations of a flat map, as they are handed to the construction of a hashed one. */
  function ReadEntries(heap: array<Word>, v0: nat, k0: nat, n: nat, ghost es: seq<Entry>): (r: seq<Entry>)
    requires Written(heap, v0, k0, es) && n == |es|
    reads heap
    ensures r == es
  {
    seq(n, i requires 0 <= i < n && Written(heap, v0, k0, es) && n == |es| reads heap =>
      assert heap[k0 + i] == Value(es[i].key) && heap[v0 + i] == Value(es[i].val);
      Entry(heap[k0 + i].term, heap[v0 + i].term))
  }

  /** The map that a term is. */
  ghost predicate Denotes(heap: array<Word>, rank: Rank, top: nat, t: MapTerm, m: map<real, Term>)
    reads heap
  {
    match t
    case Flat(a) => exists k, es :: MapAt(heap, top, a, k, es) && Ascending(rank, es) && AsMap(rank, es) == m
    case Hash(contents) => contents == m
    case NotAMap => false
  }

  lemma {:induction false} AsMapAt(rank: Rank, es: seq<Entry>, i: nat)
    requires Ascending(rank, es) && i < |es|
    ensures rank(es[i].key) in AsMap(rank, es) && AsMap(rank, es)[rank(es[i].key)] == es[i].val
  {
    if i == 0 {
      AboveAll(rank, es[1..], rank(es[0].key));
    } else {
      AsMapAt(rank, es[1..], i - 1);
    }
  }

  lemma SameMapSameEntries(rank: Rank, a: seq<Entry>, b: seq<Entry>)
    requires Ascending(rank, a) && Ascending(rank, b) && SameKeys(a, b) && AsMap(rank, a) == AsMap(rank, b)
    ensures a == b
  {
    forall i | 0 <= i < |a|
      ensures a[i] == b[i]
    {
      AsMapAt(rank, a, i);
      AsMapAt(rank, b, i);
    }
  }

  /** An update that changes nothing as a map leaves the very same entries. */
  lemma UnchangedEntries(rank: Rank, olds: seq<Entry>, upd: seq<Entry>)
    requires Ascending(rank, olds) && Ascending(rank, upd)
    ensures Merge(rank, olds, upd) == olds <==> AsMap(rank, olds) + AsMap(rank, upd) == AsMap(rank, olds)
  {
    var m := Merge(rank, olds, upd);
    MergeOverrides(rank, olds, upd);
    MergeAscends(rank, olds, upd);
    MergeLength(rank, olds, upd);
    AsMapSize(rank, olds);
    AsMapSize(rank, m);
    if AsMap(rank, m) == AsMap(rank, olds) {
      SameMapSameEntries(rank, m, olds);
    }
  }

  lemma UpdatedDenotes(heap: array<Word>, rank: Rank, htop: nat, top: nat, a: nat, k: nat, olds: seq<Entry>,
                       upd: seq<Entry>, res: MapTerm)
    requires Ascending(rank, olds) && Ascending(rank, upd) && MapAt(heap, htop, a, k, olds)
    requires Updated(heap, rank, htop, top, a, k, olds, upd, res)
    ensures Denotes(heap, rank, top, res, AsMap(rank, olds) + AsMap(rank, upd))
    ensures htop <= top <= htop + Need(|olds|, |upd|)
    ensures upd != [] && |Merge(rank, olds, upd)| == |olds| + |upd| ==> top == htop + Need(|olds|, |upd|)
    ensures AsMap(rank, olds) + AsMap(rank, upd) == AsMap(rank, olds) ==> res == Flat(a) && top == htop
  {
    UnchangedEntries(rank, olds, upd);
    MergeOverrides(rank, olds, upd);
    MergeAscends(rank, olds, upd);
    MergeLength(rank, olds, upd);
    var m := Merge(rank, olds, upd);
    assert Ascending(rank, m) && AsMap(rank, m) == AsMap(rank, olds) + AsMap(rank, upd);
  }

  /** `erts_gc_new_map` on a list of associations that is not empty: the key tuple comes first. */
  method NewMap(heap: array<Word>, htop: nat, rank: Rank, upd: seq<Entry>) returns (res: MapTerm, top: nat)
    requires upd != [] && Ascending(rank, upd) && htop + Need(0, |upd|) <= heap.Length
    modifies heap
    ensures Below(heap, htop) && Denotes(heap, rank, top, res, AsMap(rank, upd)) && htop <= top <= htop + Need(0, |upd|)
    ensures
      if |upd| > MAP_SMALL_MAP_LIMIT then res.Hash? && top == htop
      else res == Flat(htop + 1 + |upd|) && top == htop + 1 + |upd| + MAP_HEADER_FLATMAP_SZ + |upd|
  {
    var n := |upd|;
    if 2 * n > 2 * MAP_SMALL_MAP_LIMIT {
      return Hash(AsMap(rank, upd)), htop;
    }
    FillNew(heap, htop, upd);
    assert MapAt(heap, htop + Need(0, n), htop + 1 + n, htop, upd);
    return Flat(htop + 1 + n), htop + Need(0, n);
  }

  method FillNew(heap: array<Word>, htop: nat, upd: seq<Entry>)
    requires upd != [] && htop + Need(0, |upd|) <= heap.Length
    modifies heap
    ensures Below(heap, htop) && MapAt(heap, htop + Need(0, |upd|), htop + 1 + |upd|, htop, upd)
  {
    var n, a := |upd|, htop + 1 + |upd|;
    heap[htop], heap[a], heap[a + 1], heap[a + 2] := Arity(n), MapHeader, Size(n), Keys(htop);
    for i := 0 to n
      invariant Below(heap, htop)
      invariant heap[htop] == Arity(n) && heap[a] == MapHeader && heap[a + 1] == Size(n) && heap[a + 2] == Keys(htop)
      invariant forall j :: 0 <= j < i ==> heap[htop + 1 + j] == Value(upd[j].key)
      invariant forall j :: 0 <= j < i ==> heap[a + MAP_HEADER_FLATMAP_SZ + j] == Value(upd[j].val)
    {
      heap[htop + 1 + i] := Value(upd[i].key);
      heap[a + MAP_HEADER_FLATMAP_SZ + i] := Value(upd[i].val);
    }
  }

  lemma AsMapNone(rank: Rank)
    ensures AsMap(rank, []) == map[]
  {
  }

  lemma {:induction false} AsMapSnoc(rank: Rank, es: seq<Entry>, i: nat)
    requires i < |es|
    ensures AsMap(rank, es[..i + 1]) == AsMap(rank, es[..i])[rank(es[i].key) := es[i].val]
  {
    hide AsMap;
    AsMapNone(rank);
    if i == 0 {
      assert es[..1] == [es[0]] + [] && es[..0] == [];
      AsMapCons(rank, es[0], []);
    } else {
      var tail := es[1..];
      AsMapSnoc(rank, tail, i - 1);
      assert es[..i + 1] == [es[0]] + tail[..i] && es[..i] == [es[0]] + tail[..i - 1];
      AsMapCons(rank, es[0], tail[..i]);
      AsMapCons(rank, es[0], tail[..i - 1]);
      OverrideSnoc(map[rank(es[0].key) := es[0].val], AsMap(rank, tail[..i - 1]), rank(es[i].key), es[i].val);
    }
  }

  lemma OverrideSnoc(a: map<real, Term>, b: map<real, Term>, x: real, v: Term)
    ensures (a + b)[x := v] == a + b[x := v]
  {
  }

  /** The loop of the update on a hashed map. */
  method InsertAll(contents: map<real, Term>, rank: Rank, upd: seq<Entry>) returns (r: map<real, Term>)
    ensures r == contents + AsMap(rank, upd)
  {
    hide AsMap;
    AsMapNone(rank);
    r := contents;
    assert upd[..0] == [];
    for i := 0 to |upd|
      invariant r == contents + AsMap(rank, upd[..i])
    {
      AsMapSnoc(rank, upd, i);
      OverrideSnoc(contents, AsMap(rank, upd[..i]), rank(upd[i].key), upd[i].val);
      r := r[rank(upd[i].key) := upd[i].val];
    }
    assert upd[..|upd|] == upd;
  }

  lemma EntriesOf(heap: array<Word>, rank: Rank, top: nat, t: MapTerm, m: map<real, Term>) returns (k: nat,
                  es: seq<Entry>)
    requires t.Flat? && Denotes(heap, rank, top, t, m)
    ensures MapAt(heap, top, t.addr, k, es) && Ascending(rank, es) && AsMap(rank, es) == m && |es| == |m|
    ensures t.addr + 1 < heap.Length && heap[t.addr + 1] == Size(|m|)
  {
    k, es :| MapAt(heap, top, t.addr, k, es) && Ascending(rank, es) && AsMap(rank, es) == m;
    AsMapSize(rank, es);
  }

  /** `erts_gc_update_map_assoc`. */
  method UpdateAssoc(heap: array<Word>, htop: nat, t: MapTerm, rank: Rank, upd: seq<Entry>, ghost m: map<real, Term>)
    returns (res: MapTerm, top: nat)
    requires upd != [] && Ascending(rank, upd) && Denotes(heap, rank, htop, t, m)
    requires t.Flat? ==> htop + Need(|m|, |upd|) <= heap.Length
    modifies heap
    ensures Below(heap, htop) && htop <= top <= htop + Need(|m|, |upd|)
    ensures Denotes(heap, rank, top, res, m + AsMap(rank, upd))
    ensures t.Flat? && m != map[] && m + AsMap(rank, upd) == m ==> res == t && top == htop
  {
    hide AsMap, Merge, Ascending, MapAt;
    if t.Hash? {
      var r := InsertAll(t.contents, rank, upd);
      res, top := Hash(r), htop;
    } else {
      ghost var k, olds := EntriesOf(heap, rank, htop, t, m);
      if heap[t.addr + 1].n == 0 {
        res, top := NewMap(heap, htop, rank, upd);
        assert map[] + AsMap(rank, upd) == AsMap(rank, upd);
      } else {
        res, top := UpdateNonEmpty(heap, htop, t.addr, rank, upd, k, olds);
      }
    }
  }

  method UpdateNonEmpty(heap: array<Word>, htop: nat, a: nat, rank: Rank, upd: seq<Entry>, ghost k: nat,
                        ghost olds: seq<Entry>)
    returns (res: MapTerm, top: nat)
    requires olds != [] && upd != [] && MapAt(heap, htop, a, k, olds) && htop + Need(|olds|, |upd|) <= heap.Length
    requires Ascending(rank, olds) && Ascending(rank, upd)
    modifies heap
    ensures Below(heap, htop) && htop <= top <= htop + Need(|olds|, |upd|)
    ensures Denotes(heap, rank, top, res, AsMap(rank, olds) + AsMap(rank, upd))
    ensures AsMap(rank, olds) + AsMap(rank, upd) == AsMap(rank, olds) ==> res == Flat(a) && top == htop
  {
    hide Updated, Denotes;
    res, top := UpdateFlat(heap, htop, a, rank, upd, k, olds);
    assert MapAt(heap, htop, a, k, olds);
    UpdatedDenotes(heap, rank, htop, top, a, k, olds, upd, res);
  }

  // ---------------------------------------------------------------- updates of existing keys only

  ghost predicate AllPresent(rank: Rank, m: map<real, Term>, upd: seq<Entry>) {
    forall p :: 0 <= p < |upd| ==> rank(upd[p].key) in m
  }

  /** The update at `j` is the first whose key the map does not have. */
  ghost predicate FirstMissing(rank: Rank, m: map<real, Term>, upd: seq<Entry>, j: nat) {
    j < |upd| && rank(upd[j].key) !in m && AllPresent(rank, m, upd[..j])
  }

  /** With ascending updates the first missing key is the smallest one. */
  lemma FirstIsSmallest(rank: Rank, m: map<real, Term>, upd: seq<Entry>, j: nat, p: nat)
    requires Ascending(rank, upd) && FirstMissing(rank, m, upd, j)
    requires p < |upd| && rank(upd[p].key) !in m
    ensures rank(upd[j].key) <= rank(upd[p].key)
  {
    assert forall q :: 0 <= q < j ==> upd[..j][q] == upd[q];
  }

  /** How far the loop over the old keys has come. */
  ghost predicate Matching(rank: Rank, olds: seq<Entry>, upd: seq<Entry>, i: nat, j: nat, out: seq<Entry>) {
    && i <= |olds| && j <= |upd| && |out| == i && SameKeys(out, olds[..i])
    && AllPresent(rank, AsMap(rank, olds), upd[..j])
    && (j < |upd| ==> forall t :: 0 <= t < i ==> rank(olds[t].key) != rank(upd[j].key))
    && (AllPresent(rank, AsMap(rank, olds), upd) ==> out + Merge(rank, olds[i..], upd[j..]) == Merge(rank, olds, upd))
  }

  lemma MatchStart(rank: Rank, olds: seq<Entry>, upd: seq<Entry>)
    ensures Matching(rank, olds, upd, 0, 0, [])
  {
    assert olds[0..] == olds && upd[0..] == upd;
  }

  lemma MatchSkip(rank: Rank, olds: seq<Entry>, upd: seq<Entry>, i: nat, j: nat, out: seq<Entry>)
    requires Matching(rank, olds, upd, i, j, out) && i < |olds| && j < |upd| && Ascending(rank, olds)
    requires rank(olds[i].key) != rank(upd[j].key)
    ensures Matching(rank, olds, upd, i + 1, j, out + [olds[i]])
  {
    hide Merge, SameKeys, AsMap;
    SameKeysSnoc(out, olds, i, olds[i]);
    if AllPresent(rank, AsMap(rank, olds), upd) {
      PresentLater(rank, olds, upd, i, j);
      MergeTakesOld(rank, olds, upd, i, j, out);
    }
  }

  /** A key that is present, and not among the first ones, comes later. */
  lemma PresentLater(rank: Rank, olds: seq<Entry>, upd: seq<Entry>, i: nat, j: nat)
    requires Ascending(rank, olds) && i < |olds| && j < |upd| && rank(upd[j].key) in AsMap(rank, olds)
    requires forall t :: 0 <= t <= i ==> rank(olds[t].key) != rank(upd[j].key)
    ensures rank(olds[i].key) < rank(upd[j].key)
  {
    AsMapKeys(rank, olds, rank(upd[j].key));
    var t :| 0 <= t < |olds| && rank(olds[t].key) == rank(upd[j].key);
    assert t > i;
  }

  lemma PresentSnoc(rank: Rank, m: map<real, Term>, upd: seq<Entry>, j: nat)
    requires j < |upd| && AllPresent(rank, m, upd[..j]) && rank(upd[j].key) in m
    ensures AllPresent(rank, m, upd[..j + 1])
  {
    assert forall p :: 0 <= p < j ==> upd[..j][p] == upd[p];
  }

  lemma MatchHit(rank: Rank, olds: seq<Entry>, upd: seq<Entry>, i: nat, j: nat, out: seq<Entry>)
    requires Matching(rank, olds, upd, i, j, out) && i < |olds| && j < |upd|
    requires Ascending(rank, olds) && Ascending(rank, upd) && rank(olds[i].key) == rank(upd[j].key)
    ensures Matching(rank, olds, upd, i + 1, j + 1, out + [Entry(olds[i].key, upd[j].val)])
  {
    hide Merge, SameKeys, AsMap, AllPresent;
    SameKeysSnoc(out, olds, i, Entry(olds[i].key, upd[j].val));
    AsMapKeys(rank, olds, rank(upd[j].key));
    PresentSnoc(rank, AsMap(rank, olds), upd, j);
    MergeTakesBoth(rank, olds, upd, i, j, out);
  }

  lemma MatchEnd(rank: Rank, olds: seq<Entry>, upd: seq<Entry>, i: nat, j: nat, out: seq<Entry>)
    requires Matching(rank, olds, upd, i, j, out)
    ensures j == |upd| ==> AllPresent(rank, AsMap(rank, olds), upd)
    ensures j == |upd| ==> Merge(rank, olds, upd) == out + olds[i..] && SameKeys(Merge(rank, olds, upd), olds)
    ensures i == |olds| && j < |upd| ==> FirstMissing(rank, AsMap(rank, olds), upd, j)
  {
    if j == |upd| {
      assert upd[..j] == upd && upd[j..] == [];
    } else {
      AsMapKeys(rank, olds, rank(upd[j].key));
    }
  }

  /**
   The loop of `erts_gc_update_map_exact`: go through the old keys until all updates are done.
   */
  method ExactLoop(heap: array<Word>, rank: Rank, ov: nat, ok: nat, v0: nat, upd: seq<Entry>, numOld: nat,
                   ghost olds: seq<Entry>)
    returns (i: nat, j: nat, changed: bool, ghost out: seq<Entry>)
    requires olds != [] && upd != [] && numOld == |olds| && Ascending(rank, olds) && Ascending(rank, upd)
    requires Written(heap, ov, ok, olds) && ov + |olds| <= v0 && ok + |olds| <= v0 && v0 + |olds| <= heap.Length
    modifies heap
    ensures Below(heap, v0) && Written(heap, ov, ok, olds) && ValuesAt(heap, v0, out)
    ensures i == |out| <= |olds| && j <= |upd| && (i == |olds| || j == |upd|)
    ensures Matching(rank, olds, upd, i, j, out) && Flags(olds, i, out, false, changed)
  {
    hide Matching, Flags, Ascending;
    i, j, changed, out := 0, 0, false, [];
    MatchStart(rank, olds, upd);
    MergeStart(rank, olds, upd);
    while i < numOld && j < |upd|
      invariant i == |out| <= |olds| && j <= |upd|
      invariant Matching(rank, olds, upd, i, j, out) && Flags(olds, i, out, false, changed)
      invariant Below(heap, v0) && Written(heap, ov, ok, olds) && ValuesAt(heap, v0, out)
    {
      assert heap[ok + i] == Value(olds[i].key) && heap[ov + i] == Value(olds[i].val);
      var e := Entry(heap[ok + i].term, heap[ov + i].term);
      if rank(e.key) != rank(upd[j].key) {
        MatchSkip(rank, olds, upd, i, j, out);
        FlagsStep(olds, i, out, false, changed, e);
      } else {
        MatchHit(rank, olds, upd, i, j, out);
        FlagsStep(olds, i, out, false, changed, Entry(e.key, upd[j].val));
        if upd[j].val != e.val {
          changed := true;
        }
        e := Entry(e.key, upd[j].val);
        j := j + 1;
      }
      AppendValue(heap, v0, i, e, out);
      out, i := out + [e], i + 1;
    }
  }

  /** `erts_gc_update_map_exact` on a flat map that is not empty. */
  method ExactFlat(heap: array<Word>, htop: nat, a: nat, rank: Rank, upd: seq<Entry>, ghost k: nat,
                   ghost olds: seq<Entry>)
    returns (r: ExactResult)
    requires olds != [] && upd != [] && MapAt(heap, htop, a, k, olds)
    requires htop + MAP_HEADER_FLATMAP_SZ + |olds| <= heap.Length
    requires Ascending(rank, olds) && Ascending(rank, upd)
    modifies heap
    ensures Below(heap, htop)
    ensures r.Done? ==> AllPresent(rank, AsMap(rank, olds), upd) && |Merge(rank, olds, upd)| == |olds|
    ensures r.Done? ==> Updated(heap, rank, htop, r.top, a, k, olds, upd, r.res)
    ensures r.BadKey? ==> exists j: nat :: FirstMissing(rank, AsMap(rank, olds), upd, j) && r.key == upd[j].key
    ensures !r.BadMap?
  {
    hide Matching, Flags, Merge, AsMap, AllPresent, FirstMissing, Ascending;
    var numOld, tuple := heap[a + 1].n, heap[a + 2].tuple;
    var ov, v0 := a + MAP_HEADER_FLATMAP_SZ, htop + MAP_HEADER_FLATMAP_SZ;
    var i, j, changed, out := ExactLoop(heap, rank, ov, tuple + 1, v0, upd, numOld, olds);
    MatchEnd(rank, olds, upd, i, j, out);
    if j < |upd| {
      return BadKey(upd[j].key);
    }
    ChangedMeans(olds, i, out, changed);
    if changed {
      var top := Retain(heap, htop, numOld, tuple, ov, i, i, olds, out, Merge(rank, olds, upd));
      return Done(Flat(htop), top);
    }
    return Done(Flat(a), htop);
  }

  lemma ChangedMeans(olds: seq<Entry>, i: nat, out: seq<Entry>, changed: bool)
    requires Flags(olds, i, out, false, changed) && i == |out|
    ensures changed <==> out + olds[i..] != olds
  {
    assert olds == olds[..i] + olds[i..];
    assert (out + olds[i..])[..i] == out;
  }

  /** The loop of the exact update on a hashed map. */
  method InsertExisting(contents: map<real, Term>, rank: Rank, upd: seq<Entry>) returns (r: ExactResult)
    ensures r.Done? ==> AllPresent(rank, contents, upd) && r == Done(Hash(contents + AsMap(rank, upd)), 0)
    ensures r.BadKey? ==> exists j: nat :: FirstMissing(rank, contents, upd, j) && r.key == upd[j].key
    ensures !r.BadMap?
  {
    hide AsMap;
    AsMapNone(rank);
    var m := contents;
    assert upd[..0] == [];
    for i := 0 to |upd|
      invariant m == contents + AsMap(rank, upd[..i]) && m.Keys == contents.Keys
      invariant AllPresent(rank, contents, upd[..i])
    {
      if rank(upd[i].key) !in m {
        assert FirstMissing(rank, contents, upd, i);
        return BadKey(upd[i].key);
      }
      AsMapSnoc(rank, upd, i);
      OverrideSnoc(contents, AsMap(rank, upd[..i]), rank(upd[i].key), upd[i].val);
      m := m[rank(upd[i].key) := upd[i].val];
    }
    assert upd[..|upd|] == upd;
    r := Done(Hash(m), 0);
  }

  /** `erts_gc_update_map_exact`. */
  method UpdateExact(heap: array<Word>, htop: nat, t: MapTerm, rank: Rank, upd: seq<Entry>, ghost m: map<real, Term>)
    returns (r: ExactResult)
    requires upd != [] && Ascending(rank, upd) && (t.NotAMap? || Denotes(heap, rank, htop, t, m))
    requires t.Flat? ==> htop + MAP_HEADER_FLATMAP_SZ + |m| <= heap.Length
    modifies heap
    ensures Below(heap, htop)
    ensures r.BadMap? <==> t.NotAMap?
    ensures r.Done? ==> AllPresent(rank, m, upd) && Denotes(heap, rank, r.top, r.res, m + AsMap(rank, upd))
    ensures r.Done? ==> htop <= r.top <= htop + MAP_HEADER_FLATMAP_SZ + |m|
    ensures r.Done? && t.Flat? && m + AsMap(rank, upd) == m ==> r.res == t && r.top == htop
    ensures r.BadKey? ==> exists j: nat :: FirstMissing(rank, m, upd, j) && r.key == upd[j].key
  {
    if t.NotAMap? {
      return BadMap;
    }
    if t.Hash? {
      r := InsertExisting(t.contents, rank, upd);
      if r.Done? {
        r := Done(r.res, htop);
      }
      return;
    }
    ghost var k, olds := EntriesOf(heap, rank, htop, t, m);
    if heap[t.addr + 1].n == 0 {
      assert FirstMissing(rank, m, upd, 0);
      return BadKey(upd[0].key);
    }
    r := ExactNonEmpty(heap, htop, t.addr, rank, upd, k, olds);
  }

  method ExactNonEmpty(heap: array<Word>, htop: nat, a: nat, rank: Rank, upd: seq<Entry>, ghost k: nat,
                       ghost olds: seq<Entry>)
    returns (r: ExactResult)
    requires olds != [] && upd != [] && MapAt(heap, htop, a, k, olds)
    requires htop + MAP_HEADER_FLATMAP_SZ + |olds| <= heap.Length
    requires Ascending(rank, olds) && Ascending(rank, upd)
    modifies heap
    ensures Below(heap, htop) && !r.BadMap?
    ensures r.Done? ==> AllPresent(rank, AsMap(rank, olds), upd)
    ensures r.Done? ==> Denotes(heap, rank, r.top, r.res, AsMap(rank, olds) + AsMap(rank, upd))
    ensures r.Done? ==> htop <= r.top <= htop + MAP_HEADER_FLATMAP_SZ + |olds|
    ensures r.Done? && AsMap(rank, olds) + AsMap(rank, upd) == AsMap(rank, olds) ==> r.res == Flat(a) && r.top == htop
    ensures r.BadKey? ==> exists j: nat :: FirstMissing(rank, AsMap(rank, olds), upd, j) && r.key == upd[j].key
  {
    hide Denotes, AsMap, Merge, AllPresent, FirstMissing, Ascending;
    r := ExactFlat(heap, htop, a, rank, upd, k, olds);
    assert MapAt(heap, htop, a, k, olds);
    if r.Done? {
      UpdatedDenotes(heap, rank, htop, r.top, a, k, olds, upd, r.res);
    }
  }
}
