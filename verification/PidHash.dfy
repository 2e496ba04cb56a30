/**
 The hash tables in which each scheduler thread accumulates, per process, the number of calls
 and the time or memory spent in a traced function: open addressing with linear probing.
 */
module PidHash {

  type Pid = nat

  datatype Stat = Stat(count: int, acc: int)
  {
    function Plus(other: Stat): Stat {
      Stat(count + other.count, acc + other.acc)
    }
  }

  /** A bucket whose pid is NIL is free. */
  datatype Bucket = Free | Used(pid: Pid, stat: Stat)

  type Totals = map<Pid, Stat>

  /** Accumulating one item into a table of totals. */
  function Accumulated(m: Totals, p: Pid, st: Stat): Totals {
    m[p := if p in m then m[p].Plus(st) else st]
  }

  // ---------------------------------------------------------------- contents

  /** What a sequence of buckets stands for. */
  ghost function ContentsOf(b: seq<Bucket>): Totals {
    if b == [] then map[]
    else
      var m := ContentsOf(b[..|b| - 1]);
      match b[|b| - 1]
      case Free => m
      case Used(p, st) => m[p := st]
  }

  ghost function CountUsed(b: seq<Bucket>): nat {
    if b == [] then 0
    else CountUsed(b[..|b| - 1]) + if b[|b| - 1].Used? then 1 else 0
  }

  ghost predicate Distinct(b: seq<Bucket>) {
    forall i, j :: 0 <= i < j < |b| && b[i].Used? && b[j].Used? ==> b[i].pid != b[j].pid
  }

  lemma {:induction false} ContentsFrom(b: seq<Bucket>, p: Pid) returns (i: nat)
    requires p in ContentsOf(b)
    ensures i < |b| && b[i] == Used(p, ContentsOf(b)[p])
  {
    var last := |b| - 1;
    if b[last].Used? && b[last].pid == p {
      i := last;
    } else {
      i := ContentsFrom(b[..last], p);
    }
  }

  lemma {:induction false} ContentsAt(b: seq<Bucket>, i: nat)
    requires Distinct(b) && i < |b| && b[i].Used?
    ensures b[i].pid in ContentsOf(b) && ContentsOf(b)[b[i].pid] == b[i].stat
  {
    var last := |b| - 1;
    if i < last {
      ContentsAt(b[..last], i);
    }
  }

  /** Writing a bucket that is free, or that holds the same pid, changes just that entry. */
  lemma ContentsWrite(b: seq<Bucket>, i: nat, p: Pid, st: Stat)
    requires Distinct(b) && i < |b|
    requires b[i].Used? ==> b[i].pid == p
    requires b[i].Free? ==> forall j :: 0 <= j < |b| && b[j].Used? ==> b[j].pid != p
    ensures Distinct(b[i := Used(p, st)])
    ensures ContentsOf(b[i := Used(p, st)]) == ContentsOf(b)[p := st]
  {
    var b1 := b[i := Used(p, st)];
    ContentsAt(b1, i);
    forall q | q != p
      ensures q in ContentsOf(b1) <==> q in ContentsOf(b)
      ensures q in ContentsOf(b) ==> q in ContentsOf(b1) && ContentsOf(b1)[q] == ContentsOf(b)[q]
    {
      if q in ContentsOf(b) {
        var j := ContentsFrom(b, q);
        ContentsAt(b1, j);
      } else if q in ContentsOf(b1) {
        var j := ContentsFrom(b1, q);
        ContentsAt(b, j);
      }
    }
    assert ContentsOf(b1) == ContentsOf(b)[p := st];
  }

  lemma {:induction false} CountWrite(b: seq<Bucket>, i: nat, bucket: Bucket)
    requires i < |b| && bucket.Used?
    ensures CountUsed(b[i := bucket]) == CountUsed(b) + if b[i].Used? then 0 else 1
  {
    var last := |b| - 1;
    if i == last {
      assert b[i := bucket][..last] == b[..last];
    } else {
      assert b[i := bucket][..last] == b[..last][i := bucket];
      CountWrite(b[..last], i, bucket);
    }
  }

  /** As long as not every bucket is counted as used, one is free. */
  lemma {:induction false} SomeFree(b: seq<Bucket>) returns (f: nat)
    requires CountUsed(b) < |b|
    ensures f < |b| && b[f].Free?
  {
    var last := |b| - 1;
    if b[last].Free? {
      f := last;
    } else {
      f := SomeFree(b[..last]);
    }
  }

  lemma {:induction false} CountIsSize(b: seq<Bucket>)
    requires Distinct(b)
    ensures |ContentsOf(b)| == CountUsed(b)
  {
    if b != [] {
      var last := |b| - 1;
      CountIsSize(b[..last]);
      if b[last].Used? && b[last].pid in ContentsOf(b[..last]) {
        var _ := ContentsFrom(b[..last], b[last].pid);
        assert false;
      }
    }
  }

  // ---------------------------------------------------------------- probing

  function Home(p: Pid, n: nat): nat
    requires n > 0
  {
    (p / 16) % n
  }

  /** How many probes after `h` bucket `i` comes. */
  function Distance(n: nat, h: nat, i: nat): int {
    if h <= i then i - h else i - h + n
  }

  lemma NextProbe(n: nat, h: nat, i: nat)
    requires h < n && i < n
    ensures (i + 1) % n < n
    ensures Distance(n, h, (i + 1) % n) == if Distance(n, h, i) == n - 1 then 0 else Distance(n, h, i) + 1
    ensures forall j :: 0 <= j < n && Distance(n, h, j) < Distance(n, h, i) + 1 && j != i ==>
      Distance(n, h, j) < Distance(n, h, i)
  {
    WrapAround(n, i);
  }

  lemma WrapAround(n: nat, i: nat)
    requires i < n
    ensures (i + 1) % n == if i + 1 == n then 0 else i + 1
  {
  }

  /** No free bucket comes before `i` when probing from `h`. */
  ghost predicate Occupied(b: seq<Bucket>, h: nat, i: nat) {
    forall j :: 0 <= j < |b| && Distance(|b|, h, j) < Distance(|b|, h, i) ==> b[j].Used?
  }

  /** Every entry can be found by probing from its home bucket. */
  ghost predicate Probeable(b: seq<Bucket>) {
    forall i :: 0 <= i < |b| && b[i].Used? ==> Occupied(b, Home(b[i].pid, |b|), i)
  }

  /** Probing for `p` has got to bucket `i` without meeting `p` or a free bucket. */
  ghost predicate Passed(b: seq<Bucket>, p: Pid, i: nat)
    requires |b| > 0
  {
    forall j :: 0 <= j < |b| && Distance(|b|, Home(p, |b|), j) < Distance(|b|, Home(p, |b|), i) ==>
      b[j].Used? && b[j].pid != p
  }

  /** Meeting a free bucket without having met `p` means that `p` is not in the table. */
  lemma FreeMeansAbsent(b: seq<Bucket>, p: Pid, i: nat)
    requires Distinct(b) && Probeable(b) && i < |b| && b[i].Free?
    requires Passed(b, p, i)
    ensures forall j :: 0 <= j < |b| && b[j].Used? ==> b[j].pid != p
    ensures p !in ContentsOf(b)
  {
    forall j | 0 <= j < |b| && b[j].Used?
      ensures b[j].pid != p
    {
      assert Occupied(b, Home(b[j].pid, |b|), j);
    }
    if p in ContentsOf(b) {
      var _ := ContentsFrom(b, p);
      assert false;
    }
  }

  lemma ProbeableAfter(b: seq<Bucket>, i: nat, bucket: Bucket)
    requires Probeable(b) && i < |b| && bucket.Used? && Occupied(b, Home(bucket.pid, |b|), i)
    requires b[i].Used? ==> b[i].pid == bucket.pid
    ensures Probeable(b[i := bucket])
  {
    var b1 := b[i := bucket];
    forall j | 0 <= j < |b1| && b1[j].Used?
      ensures Occupied(b1, Home(b1[j].pid, |b1|), j)
    {
      if j != i {
        assert Occupied(b, Home(b[j].pid, |b|), j);
      }
    }
  }

  ghost predicate TableOk(b: seq<Bucket>) {
    Distinct(b) && Probeable(b) && CountUsed(b) < |b|
  }

  lemma {:induction false} AllFree(b: seq<Bucket>)
    requires forall i :: 0 <= i < |b| ==> b[i].Free?
    ensures ContentsOf(b) == map[] && CountUsed(b) == 0
  {
    if b != [] {
      AllFree(b[..|b| - 1]);
    }
  }

  /** The probe loop of `bp_hash_rehash` and `bp_hash_put`. */
  method FindFree(b: array<Bucket>, p: Pid) returns (hval: nat)
    requires TableOk(b[..])
    ensures hval < b.Length && b[hval].Free? && Occupied(b[..], Home(p, b.Length), hval)
  {
    hide ContentsOf, CountUsed;
    ghost var f := SomeFree(b[..]);
    ghost var s := b[..];
    hval := Home(p, b.Length);
    while b[hval].Used?
      invariant hval < b.Length && Occupied(s, Home(p, b.Length), hval)
      invariant Distance(b.Length, Home(p, b.Length), hval) <= Distance(b.Length, Home(p, b.Length), f)
      decreases Distance(b.Length, Home(p, b.Length), f) - Distance(b.Length, Home(p, b.Length), hval)
    {
      NextProbe(b.Length, Home(p, b.Length), hval);
      hval := (hval + 1) % b.Length;
    }
  }

  /** What writing an absent pid into the bucket found for it does. */
  lemma InsertEffect(s: seq<Bucket>, hval: nat, p: Pid, st: Stat)
    requires TableOk(s) && p !in ContentsOf(s)
    requires hval < |s| && s[hval].Free? && Occupied(s, Home(p, |s|), hval)
    ensures var s1 := s[hval := Used(p, st)];
      && Distinct(s1) && Probeable(s1) && CountUsed(s1) == CountUsed(s) + 1
      && ContentsOf(s1) == ContentsOf(s)[p := st]
  {
    hide ContentsOf, CountUsed;
    forall j | 0 <= j < |s| && s[j].Used?
      ensures s[j].pid != p
    {
      ContentsAt(s, j);
    }
    ContentsWrite(s, hval, p, st);
    CountWrite(s, hval, Used(p, st));
    ProbeableAfter(s, hval, Used(p, st));
  }

  method Insert(b: array<Bucket>, p: Pid, st: Stat)
    requires TableOk(b[..]) && p !in ContentsOf(b[..])
    modifies b
    ensures Distinct(b[..]) && Probeable(b[..]) && CountUsed(b[..]) == old(CountUsed(b[..])) + 1
    ensures ContentsOf(b[..]) == old(ContentsOf(b[..]))[p := st]
  {
    hide *;
    var hval := FindFree(b, p);
    InsertEffect(b[..], hval, p, st);
    ghost var s1 := b[..][hval := Used(p, st)];
    b[hval] := Used(p, st);
    assert b[..] == s1;
  }

  class PidTable {
    var n: nat
    var used: nat
    var buckets: array<Bucket>

    ghost predicate Valid()
      reads this, buckets
    {
      && buckets.Length == n && n >= 4
      && Distinct(buckets[..]) && Probeable(buckets[..])
      && used == CountUsed(buckets[..])
      && 10 * used <= 7 * n + 10
    }

    ghost function Contents(): Totals
      reads this, buckets
    {
      ContentsOf(buckets[..])
    }

    /** `bp_hash_alloc`. */
    constructor (n: nat)
      requires n >= 4
      ensures Valid() && fresh(buckets) && Contents() == map[] && this.n == n
    {
      this.n := n;
      used := 0;
      buckets := new Bucket[n](_ => Free);
      new;
      AllFree(buckets[..]);
    }

    /** The number of entries is what `used` says, and some bucket is always free. */
    lemma UsedIsSize()
      requires Valid()
      ensures used == |Contents()| < n
    {
      CountIsSize(buckets[..]);
    }

    /** `bp_hash_get`: the bucket of `p`, if it has one. */
    method Get(p: Pid) returns (found: bool, hval: nat)
      requires Valid()
      ensures found <==> p in Contents()
      ensures found ==> hval < n && buckets[hval] == Used(p, Contents()[p])
    {
      ghost var f := SomeFree(buckets[..]);
      ghost var s := buckets[..];
      hval := Home(p, n);
      while !(buckets[hval].Used? && buckets[hval].pid == p)
        invariant hval < n && Passed(s, p, hval)
        invariant Distance(n, Home(p, n), hval) <= Distance(n, Home(p, n), f)
        decreases Distance(n, Home(p, n), f) - Distance(n, Home(p, n), hval)
      {
        if buckets[hval].Free? {
          FreeMeansAbsent(s, p, hval);
          return false, 0;
        }
        NextProbe(n, Home(p, n), hval);
        hval := (hval + 1) % n;
      }
      ContentsAt(s, hval);
      found := true;
    }

    /** `bp_hash_rehash`: move every entry to a larger table. */
    method Rehash(m: nat)
      requires Valid() && m >= 2 * n
      modifies this
      ensures Valid() && fresh(buckets) && n == m && used == old(used)
      ensures Contents() == old(Contents())
    {
      hide Distinct, Probeable, ContentsOf, CountUsed;
      var dst := new Bucket[m](_ => Free);
      EmptyTableOk(dst[..]);
      ghost var s := buckets[..];
      EmptyTableOk(s[..0]);
      for ix := 0 to n
        invariant buckets[..] == s && n == |s| && used == old(used) && fresh(dst) && dst.Length == m
        invariant TableOk(dst[..]) && CountUsed(dst[..]) == CountUsed(s[..ix])
        invariant ContentsOf(dst[..]) == ContentsOf(s[..ix])
      {
        PrefixStep(s, ix);
        if buckets[ix].Used? {
          Insert(dst, buckets[ix].pid, buckets[ix].stat);
        }
      }
      assert s[..n] == s;
      buckets := dst;
      n := m;
    }

    /** `bp_hash_put`: a new entry, after growing a table that is more than 70 percent full. */
    method Put(p: Pid, st: Stat)
      requires Valid() && p !in Contents()
      modifies this, buckets
      ensures Valid() && (buckets == old(buckets) || fresh(buckets))
      ensures Contents() == old(Contents())[p := st]
      ensures used == old(used) + 1 && 10 * (used - 1) <= 7 * n
      ensures n == if 10 * old(used) > 7 * old(n) then 2 * old(n) else old(n)
    {
      if 10 * used > 7 * n {
        Rehash(n * 2);
      }
      Insert(buckets, p, st);
      used := used + 1;
    }

    /** `bp_hash_accum`: the table is a map from pids to totals, and this adds to one of them. */
    method Accumulate(p: Pid, st: Stat)
      requires Valid()
      modifies this, buckets
      ensures Valid() && (buckets == old(buckets) || fresh(buckets))
      ensures Contents() == Accumulated(old(Contents()), p, st)
      ensures forall q :: CountIn(Contents(), q) == CountIn(old(Contents()), q) + if q == p then st.count else 0
      ensures forall q :: AccIn(Contents(), q) == AccIn(old(Contents()), q) + if q == p then st.acc else 0
    {
      hide Distinct, Probeable, ContentsOf, CountUsed;
      var found, hval := Get(p);
      if !found {
        Put(p, st);
      } else {
        ghost var s := buckets[..];
        UpdateEffect(s, hval, p, buckets[hval].stat.Plus(st));
        buckets[hval] := Used(p, buckets[hval].stat.Plus(st));
        assert buckets[..] == s[hval := Used(p, s[hval].stat.Plus(st))];
      }
    }
  }

  /** Replacing the totals of a pid in its own bucket. */
  lemma UpdateEffect(s: seq<Bucket>, hval: nat, p: Pid, st: Stat)
    requires Distinct(s) && Probeable(s) && hval < |s| && s[hval].Used? && s[hval].pid == p
    ensures var s1 := s[hval := Used(p, st)];
      && Distinct(s1) && Probeable(s1) && CountUsed(s1) == CountUsed(s)
      && ContentsOf(s1) == ContentsOf(s)[p := st]
  {
    ContentsWrite(s, hval, p, st);
    CountWrite(s, hval, Used(p, st));
    ProbeableAfter(s, hval, Used(p, st));
  }

  lemma EmptyTableOk(b: seq<Bucket>)
    requires forall i :: 0 <= i < |b| ==> b[i].Free?
    ensures ContentsOf(b) == map[] && CountUsed(b) == 0 && Distinct(b) && Probeable(b)
  {
    AllFree(b);
  }

  /** One more bucket of a table: its pid does not occur earlier. */
  lemma PrefixStep(s: seq<Bucket>, ix: nat)
    requires Distinct(s) && ix < |s|
    ensures s[ix].Used? ==> s[ix].pid !in ContentsOf(s[..ix])
    ensures ContentsOf(s[..ix + 1]) ==
      if s[ix].Used? then ContentsOf(s[..ix])[s[ix].pid := s[ix].stat] else ContentsOf(s[..ix])
    ensures CountUsed(s[..ix + 1]) == CountUsed(s[..ix]) + if s[ix].Used? then 1 else 0
    ensures CountUsed(s[..ix]) <= ix
  {
    assert s[..ix + 1][..ix] == s[..ix];
    CountPrefix(s, ix);
    if s[ix].Used? && s[ix].pid in ContentsOf(s[..ix]) {
      var _ := ContentsFrom(s[..ix], s[ix].pid);
      assert false;
    }
  }

  lemma {:induction false} CountPrefix(b: seq<Bucket>, k: nat)
    requires k <= |b|
    ensures CountUsed(b[..k]) <= k && CountUsed(b[..k]) <= CountUsed(b)
  {
    if k < |b| {
      CountPrefix(b[..|b| - 1], k);
      assert b[..|b| - 1][..k] == b[..k];
    } else if b != [] {
      assert b[..k] == b;
      CountPrefix(b[..|b| - 1], k - 1);
      assert b[..|b| - 1][..k - 1] == b[..|b| - 1];
    }
  }

  // ---------------------------------------------------------------- collecting threads

  /** Pointwise sum of two tables of totals. */
  function Sum(m: Totals, m': Totals): Totals {
    map p | p in m.Keys + m'.Keys ::
      if p in m && p in m' then m[p].Plus(m'[p]) else if p in m then m[p] else m'[p]
  }

  /** The contents of a thread's table; a table that does not exist yet is empty. */
  ghost function ThreadContents(t: PidTable?): Totals
    reads t, if t == null then {} else {t.buckets}
  {
    if t == null then map[] else t.Contents()
  }

  lemma SumStep(m: Totals, s: seq<Bucket>, ix: nat)
    requires Distinct(s) && ix < |s|
    ensures s[ix].Used? ==>
      Sum(m, ContentsOf(s[..ix + 1])) == Accumulated(Sum(m, ContentsOf(s[..ix])), s[ix].pid, s[ix].stat)
    ensures s[ix].Free? ==> Sum(m, ContentsOf(s[..ix + 1])) == Sum(m, ContentsOf(s[..ix]))
  {
    PrefixStep(s, ix);
  }

  lemma SumEmpty(m: Totals)
    ensures Sum(m, map[]) == m && Sum(map[], m) == m
  {
  }

  /** The inner loop of `collect_timem_info`: add all entries of one thread's table. */
  method CollectThread(src: PidTable, tot: PidTable)
    requires src.Valid() && tot.Valid() && src != tot && src.buckets != tot.buckets
    modifies tot, tot.buckets
    ensures tot.Valid() && (tot.buckets == old(tot.buckets) || fresh(tot.buckets))
    ensures tot.Contents() == Sum(old(tot.Contents()), src.Contents())
  {
    hide Distinct, Probeable, ContentsOf, CountUsed;
    ghost var s, m := src.buckets[..], tot.Contents();
    EmptyTableOk(s[..0]);
    SumEmpty(m);
    for ix := 0 to src.n
      invariant src.Valid() && src.buckets == old(src.buckets) && src.buckets[..] == s
      invariant tot.Valid() && (tot.buckets == old(tot.buckets) || fresh(tot.buckets))
      invariant tot.Contents() == Sum(m, ContentsOf(s[..ix]))
    {
      SumStep(m, s, ix);
      if src.buckets[ix].Used? {
        tot.Accumulate(src.buckets[ix].pid, src.buckets[ix].stat);
      }
    }
    assert s[..src.n] == s;
  }

  /** The pointwise sum over all threads. */
  function SumAll(parts: seq<Totals>): Totals {
    if parts == [] then map[] else Sum(SumAll(parts[..|parts| - 1]), parts[|parts| - 1])
  }

  lemma SumAssoc(a: Totals, b: Totals, c: Totals)
    ensures Sum(Sum(a, b), c) == Sum(a, Sum(b, c))
  {
  }

  lemma SumCommutes(a: Totals, b: Totals)
    ensures Sum(a, b) == Sum(b, a)
  {
  }

  /** Adding items one by one to `m` is adding their totals to `m`. */
  function AccumulatedAll(m: Totals, items: seq<(Pid, Stat)>): Totals {
    if items == [] then m
    else
      var last := items[|items| - 1];
      Accumulated(AccumulatedAll(m, items[..|items| - 1]), last.0, last.1)
  }

  lemma {:induction false} AccumulatedAllIsSum(m: Totals, items: seq<(Pid, Stat)>)
    ensures AccumulatedAll(m, items) == Sum(m, AccumulatedAll(map[], items))
  {
    if items != [] {
      AccumulatedAllIsSum(m, items[..|items| - 1]);
    }
  }

  lemma AccumulatedSwap(m: Totals, p: Pid, s: Stat, q: Pid, t: Stat)
    ensures Accumulated(Accumulated(m, p, s), q, t) == Accumulated(Accumulated(m, q, t), p, s)
  {
  }

  lemma AccumulatedSnoc(m: Totals, items: seq<(Pid, Stat)>, x: (Pid, Stat))
    ensures AccumulatedAll(m, items + [x]) == Accumulated(AccumulatedAll(m, items), x.0, x.1)
  {
    assert (items + [x])[..|items|] == items;
  }

  /** An item may as well be accumulated last. */
  lemma {:induction false} AccumulatedLast(m: Totals, a: seq<(Pid, Stat)>, x: (Pid, Stat), b: seq<(Pid, Stat)>)
    ensures AccumulatedAll(m, a + [x] + b) == AccumulatedAll(m, a + b + [x])
  {
    hide Accumulated;
    if b == [] {
      assert a + [x] + b == a + b + [x];
    } else {
      var c, y := b[..|b| - 1], b[|b| - 1];
      assert a + [x] + b == (a + [x] + c) + [y] && a + b == (a + c) + [y];
      AccumulatedLast(m, a, x, c);
      AccumulatedSnoc(m, a + [x] + c, y);
      AccumulatedSnoc(m, a + c, x);
      AccumulatedSnoc(m, a + c, y);
      AccumulatedSnoc(m, a + b, x);
      AccumulatedSwap(AccumulatedAll(m, a + c), x.0, x.1, y.0, y.1);
    }
  }

  /** Take one occurrence of an item out of a list. */
  lemma TakeOut(a: seq<(Pid, Stat)>, x: (Pid, Stat)) returns (i: nat)
    requires x in multiset(a)
    ensures i < |a| && a == a[..i] + [x] + a[i + 1..]
    ensures multiset(a[..i] + a[i + 1..]) + multiset{x} == multiset(a)
  {
    i :| 0 <= i < |a| && a[i] == x;
    assert a == a[..i] + [x] + a[i + 1..];
  }

  lemma TakeOutLast(a: seq<(Pid, Stat)>)
    requires a != []
    ensures var n := |a| - 1; a == a[..n] + [a[n]] && multiset(a) == multiset(a[..n]) + multiset{a[n]}
  {
    var n := |a| - 1;
    assert a == a[..n] + [a[n]];
  }

  /** The items may be accumulated in any order. */
  lemma {:induction false} AccumulatedAnyOrder(m: Totals, a: seq<(Pid, Stat)>, b: seq<(Pid, Stat)>)
    requires multiset(a) == multiset(b)
    ensures AccumulatedAll(m, a) == AccumulatedAll(m, b)
    decreases |a|
  {
    if b == [] {
      assert |multiset(a)| == 0;
    } else {
      hide AccumulatedAll;
      var init, x := b[..|b| - 1], b[|b| - 1];
      TakeOutLast(b);
      var i := TakeOut(a, x);
      var rest := a[..i] + a[i + 1..];
      assert multiset(rest) == multiset(a) - multiset{x} && multiset(init) == multiset(b) - multiset{x};
      AccumulatedLast(m, a[..i], x, a[i + 1..]);
      AccumulatedAnyOrder(m, rest, init);
      AccumulatedSnoc(m, rest, x);
      AccumulatedSnoc(m, init, x);
    }
  }

  /** Accumulating one list of items after another is accumulating both as one. */
  lemma {:induction false} AccumulatedAllAppend(m: Totals, a: seq<(Pid, Stat)>, b: seq<(Pid, Stat)>)
    ensures AccumulatedAll(m, a + b) == AccumulatedAll(AccumulatedAll(m, a), b)
  {
    if b == [] {
      assert a + b == a;
    } else {
      assert (a + b)[..|a + b| - 1] == a + b[..|b| - 1];
      AccumulatedAllAppend(m, a, b[..|b| - 1]);
    }
  }

  // ---------------------------------------------------------------- totals as plain numbers

  /** The calls of a process in a table of totals; none if the process is not there. */
  function CountIn(m: Totals, p: Pid): int {
    if p in m then m[p].count else 0
  }

  /** The time or memory of a process in a table of totals. */
  function AccIn(m: Totals, p: Pid): int {
    if p in m then m[p].acc else 0
  }

  /** The calls of a process in a list of items: the sum of the numbers in the list. */
  function CountOf(items: seq<(Pid, Stat)>, p: Pid): int {
    if items == [] then 0
    else
      var last := items[|items| - 1];
      CountOf(items[..|items| - 1], p) + if last.0 == p then last.1.count else 0
  }

  function AccOf(items: seq<(Pid, Stat)>, p: Pid): int {
    if items == [] then 0
    else
      var last := items[|items| - 1];
      AccOf(items[..|items| - 1], p) + if last.0 == p then last.1.acc else 0
  }

  /** The calls of a process in the tables of all threads. */
  function CountAll(parts: seq<Totals>, p: Pid): int {
    if parts == [] then 0 else CountAll(parts[..|parts| - 1], p) + CountIn(parts[|parts| - 1], p)
  }

  function AccAll(parts: seq<Totals>, p: Pid): int {
    if parts == [] then 0 else AccAll(parts[..|parts| - 1], p) + AccIn(parts[|parts| - 1], p)
  }

  ghost predicate Mentions(items: seq<(Pid, Stat)>, p: Pid) {
    exists i :: 0 <= i < |items| && items[i].0 == p
  }

  lemma MentionsSnoc(items: seq<(Pid, Stat)>, p: Pid)
    requires items != []
    ensures Mentions(items, p) <==> Mentions(items[..|items| - 1], p) || items[|items| - 1].0 == p
  {
    var n := |items| - 1;
    if Mentions(items[..n], p) {
      var i :| 0 <= i < n && items[..n][i].0 == p;
      assert items[i].0 == p;
    }
    if Mentions(items, p) && items[n].0 != p {
      var i :| 0 <= i < |items| && items[i].0 == p;
      assert items[..n][i].0 == p;
    }
  }

  /** A process has totals exactly if an item was recorded for it, and they are the sums of its items. */
  lemma {:induction false} TotalsAreSums(items: seq<(Pid, Stat)>, p: Pid)
    ensures p in AccumulatedAll(map[], items) <==> exists i :: 0 <= i < |items| && items[i].0 == p
    ensures CountIn(AccumulatedAll(map[], items), p) == CountOf(items, p)
    ensures AccIn(AccumulatedAll(map[], items), p) == AccOf(items, p)
  {
    assert p in AccumulatedAll(map[], items) <==> Mentions(items, p) by {
      if items != [] {
        TotalsAreSums(items[..|items| - 1], p);
        MentionsSnoc(items, p);
      }
    }
    if items != [] {
      TotalsAreSums(items[..|items| - 1], p);
    }
  }

  /** The pointwise sum has the processes of both tables, and adds their numbers. */
  lemma SumAdds(a: Totals, b: Totals, p: Pid)
    ensures p in Sum(a, b) <==> p in a || p in b
    ensures CountIn(Sum(a, b), p) == CountIn(a, p) + CountIn(b, p)
    ensures AccIn(Sum(a, b), p) == AccIn(a, p) + AccIn(b, p)
  {
  }

  /** The sum over all threads has the processes of all tables, and adds their numbers. */
  lemma {:induction false} SumAllAdds(parts: seq<Totals>, p: Pid)
    ensures p in SumAll(parts) <==> exists i :: 0 <= i < |parts| && p in parts[i]
    ensures CountIn(SumAll(parts), p) == CountAll(parts, p)
    ensures AccIn(SumAll(parts), p) == AccAll(parts, p)
  {
    if parts != [] {
      var n := |parts| - 1;
      SumAllAdds(parts[..n], p);
      SumAdds(SumAll(parts[..n]), parts[n], p);
      assert forall i :: 0 <= i < n ==> parts[..n][i] == parts[i];
    }
  }

  /** Any sequence of calls to `bp_hash_accum`, starting from no table at all. */
  method AccumulateAll(items: seq<(Pid, Stat)>) returns (t: PidTable?)
    ensures t != null ==> t.Valid() && fresh(t) && fresh(t.buckets)
    ensures ThreadContents(t) == AccumulatedAll(map[], items)
    ensures forall p :: CountIn(ThreadContents(t), p) == CountOf(items, p)
    ensures forall p :: AccIn(ThreadContents(t), p) == AccOf(items, p)
    ensures t == null <==> items == []
  {
    t := null;
    for i := 0 to |items|
      invariant t != null ==> t.Valid() && fresh(t) && fresh(t.buckets)
      invariant ThreadContents(t) == AccumulatedAll(map[], items[..i])
      invariant t == null <==> i == 0
    {
      assert items[..i + 1][..i] == items[..i];
      if t == null {
        t := new PidTable(32);
      }
      t.Accumulate(items[i].0, items[i].1);
    }
    assert items[..|items|] == items;
    forall p
      ensures CountIn(ThreadContents(t), p) == CountOf(items, p) && AccIn(ThreadContents(t), p) == AccOf(items, p)
    {
      TotalsAreSums(items, p);
    }
  }

  /**
   `collect_timem_info`: add the tables of all threads to `tot`, which is made when it is first
   needed. `parts` names what the tables contain.
   */
  method Collect(threads: seq<PidTable?>, tot: PidTable?, ghost parts: seq<Totals>) returns (res: PidTable?)
    requires |parts| == |threads|
    requires forall i :: 0 <= i < |threads| && threads[i] != null ==>
      threads[i].Valid() && threads[i] != tot && (tot != null ==> threads[i].buckets != tot.buckets)
    requires forall i :: 0 <= i < |threads| ==> parts[i] == ThreadContents(threads[i])
    requires tot != null ==> tot.Valid()
    modifies tot, if tot == null then {} else {tot.buckets}
    ensures res != null ==> res.Valid()
    ensures ThreadContents(res) == Sum(old(ThreadContents(tot)), SumAll(parts))
    ensures forall p :: CountIn(ThreadContents(res), p) == CountIn(old(ThreadContents(tot)), p) + CountAll(parts, p)
    ensures forall p :: AccIn(ThreadContents(res), p) == AccIn(old(ThreadContents(tot)), p) + AccAll(parts, p)
  {
    hide Distinct, Probeable, ContentsOf, CountUsed, Sum;
    res := tot;
    ghost var m := ThreadContents(tot);
    SumEmpty(m);
    for i := 0 to |threads|
      invariant res != null ==> res.Valid()
      invariant res == tot || (res != null && fresh(res))
      invariant res != null ==> fresh(res.buckets) || (tot == res && res.buckets == old(tot.buckets))
      invariant tot != null ==> res == tot
      invariant forall j :: 0 <= j < |threads| && threads[j] != null ==>
        threads[j].Valid() && threads[j] != res && (res != null ==> threads[j].buckets != res.buckets)
        && threads[j].Contents() == parts[j]
      invariant ThreadContents(res) == Sum(m, SumAll(parts[..i]))
    {
      assert parts[..i + 1][..i] == parts[..i];
      SumAssoc(m, SumAll(parts[..i]), parts[i]);
      if threads[i] != null {
        if res == null {
          res := new PidTable(32);
        }
        CollectThread(threads[i], res);
      } else {
        SumEmpty(Sum(m, SumAll(parts[..i])));
      }
    }
    assert parts[..|threads|] == parts;
    AllAdded(m, parts);
  }

  lemma AllAdded(m: Totals, parts: seq<Totals>)
    ensures forall p :: CountIn(Sum(m, SumAll(parts)), p) == CountIn(m, p) + CountAll(parts, p)
    ensures forall p :: AccIn(Sum(m, SumAll(parts)), p) == AccIn(m, p) + AccAll(parts, p)
  {
    hide Sum, SumAll;
    forall p
      ensures CountIn(Sum(m, SumAll(parts)), p) == CountIn(m, p) + CountAll(parts, p)
      ensures AccIn(Sum(m, SumAll(parts)), p) == AccIn(m, p) + AccAll(parts, p)
    {
      SumAdds(m, SumAll(parts), p);
      SumAllAdds(parts, p);
    }
  }
}
