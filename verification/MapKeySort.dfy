/**
 Sorting the keys of a map instruction when it is loaded, which makes its updates ascending.
 */
module MapKeySort {
  import opened BeamOp
  import opened FlatMap

  datatype Pair = Pair(key: Arg, value: Arg)

  /** Where the term of a literal operand comes in the order of map keys. */
  type KeyRank = Arg -> real

  /** The operands as key and value pairs. */
  function Pairs(args: seq<Arg>): seq<Pair> {
    seq(|args| / 2, i requires 0 <= i < |args| / 2 => Pair(args[2 * i], args[2 * i + 1]))
  }

  /** Atoms, small integers, NIL and literals are known when the instruction is loaded. */
  predicate IsLiteral(a: Arg) {
    a.tag.TagA? || a.tag.TagI? || a.tag.TagN? || a.tag.TagQ?
  }

  ghost predicate AllLiteral(ps: seq<Pair>) {
    forall i :: 0 <= i < |ps| ==> IsLiteral(ps[i].key)
  }

  ghost predicate InOrder(rank: KeyRank, ps: seq<Pair>) {
    forall i, j :: 0 <= i < j < |ps| ==> rank(ps[i].key) <= rank(ps[j].key)
  }

  ghost predicate Distinct(rank: KeyRank, ps: seq<Pair>) {
    forall i, j :: 0 <= i < j < |ps| ==> rank(ps[i].key) != rank(ps[j].key)
  }

  // ---------------------------------------------------------------- a sorting function

  function Insert(rank: KeyRank, p: Pair, ps: seq<Pair>): seq<Pair> {
    if ps == [] || rank(p.key) <= rank(ps[0].key) then [p] + ps else [ps[0]] + Insert(rank, p, ps[1..])
  }

  /** Stands for `qsort`. */
  function Sort(rank: KeyRank, ps: seq<Pair>): seq<Pair> {
    if ps == [] then [] else Insert(rank, ps[0], Sort(rank, ps[1..]))
  }

  lemma ConsOrdered(rank: KeyRank, p: Pair, ps: seq<Pair>)
    requires InOrder(rank, ps) && (ps != [] ==> rank(p.key) <= rank(ps[0].key))
    ensures InOrder(rank, [p] + ps)
  {
  }

  lemma {:induction false} InsertContents(rank: KeyRank, p: Pair, ps: seq<Pair>)
    ensures multiset(Insert(rank, p, ps)) == multiset{p} + multiset(ps)
  {
    if ps != [] && rank(p.key) > rank(ps[0].key) {
      InsertContents(rank, p, ps[1..]);
      assert ps == [ps[0]] + ps[1..];
    }
  }

  lemma {:induction false} InsertSorts(rank: KeyRank, p: Pair, ps: seq<Pair>)
    requires InOrder(rank, ps)
    ensures InOrder(rank, Insert(rank, p, ps))
    ensures var r := Insert(rank, p, ps); r != [] && (r[0] == p || (ps != [] && r[0] == ps[0]))
  {
    if ps == [] || rank(p.key) <= rank(ps[0].key) {
      ConsOrdered(rank, p, ps);
    } else {
      InsertSorts(rank, p, ps[1..]);
      ConsOrdered(rank, ps[0], Insert(rank, p, ps[1..]));
    }
  }

  lemma {:induction false} SortSorts(rank: KeyRank, ps: seq<Pair>)
    ensures InOrder(rank, Sort(rank, ps)) && multiset(Sort(rank, ps)) == multiset(ps)
    ensures |Sort(rank, ps)| == |ps|
  {
    if ps != [] {
      SortSorts(rank, ps[1..]);
      InsertSorts(rank, ps[0], Sort(rank, ps[1..]));
      InsertContents(rank, ps[0], Sort(rank, ps[1..]));
      assert ps == [ps[0]] + ps[1..];
      assert |multiset(Sort(rank, ps))| == |multiset(ps)|;
    }
  }

  // ---------------------------------------------------------------- distinct keys

  ghost predicate Absent(rank: KeyRank, q: Pair, ps: seq<Pair>) {
    forall i :: 0 <= i < |ps| ==> rank(ps[i].key) != rank(q.key)
  }

  lemma AbsentCons(rank: KeyRank, q: Pair, p: Pair, ps: seq<Pair>)
    ensures Absent(rank, q, [p] + ps) <==> rank(p.key) != rank(q.key) && Absent(rank, q, ps)
  {
    var s := [p] + ps;
    assert s[0] == p && forall i :: 0 <= i < |ps| ==> s[i + 1] == ps[i];
  }

  lemma DistinctCons(rank: KeyRank, p: Pair, ps: seq<Pair>)
    ensures Distinct(rank, [p] + ps) <==> Absent(rank, p, ps) && Distinct(rank, ps)
  {
    var s := [p] + ps;
    assert s[0] == p && forall i :: 0 <= i < |ps| ==> s[i + 1] == ps[i];
  }

  lemma {:induction false} InsertAbsent(rank: KeyRank, q: Pair, p: Pair, ps: seq<Pair>)
    ensures Absent(rank, q, Insert(rank, p, ps)) <==> rank(p.key) != rank(q.key) && Absent(rank, q, ps)
  {
    if ps == [] || rank(p.key) <= rank(ps[0].key) {
      AbsentCons(rank, q, p, ps);
    } else {
      InsertAbsent(rank, q, p, ps[1..]);
      AbsentCons(rank, q, ps[0], Insert(rank, p, ps[1..]));
      AbsentCons(rank, q, ps[0], ps[1..]);
      assert [ps[0]] + ps[1..] == ps;
    }
  }

  lemma {:induction false} InsertDistinct(rank: KeyRank, p: Pair, ps: seq<Pair>)
    ensures Distinct(rank, Insert(rank, p, ps)) <==> Absent(rank, p, ps) && Distinct(rank, ps)
  {
    if ps == [] || rank(p.key) <= rank(ps[0].key) {
      DistinctCons(rank, p, ps);
    } else {
      InsertDistinct(rank, p, ps[1..]);
      InsertAbsent(rank, ps[0], p, ps[1..]);
      DistinctCons(rank, ps[0], Insert(rank, p, ps[1..]));
      DistinctCons(rank, ps[0], ps[1..]);
      AbsentCons(rank, p, ps[0], ps[1..]);
      assert [ps[0]] + ps[1..] == ps;
    }
  }

  lemma {:induction false} SortAbsent(rank: KeyRank, q: Pair, ps: seq<Pair>)
    ensures Absent(rank, q, Sort(rank, ps)) <==> Absent(rank, q, ps)
  {
    if ps != [] {
      SortAbsent(rank, q, ps[1..]);
      InsertAbsent(rank, q, ps[0], Sort(rank, ps[1..]));
      AbsentCons(rank, q, ps[0], ps[1..]);
      assert [ps[0]] + ps[1..] == ps;
    }
  }

  lemma {:induction false} SortDistinct(rank: KeyRank, ps: seq<Pair>)
    ensures Distinct(rank, Sort(rank, ps)) <==> Distinct(rank, ps)
  {
    if ps != [] {
      SortDistinct(rank, ps[1..]);
      SortAbsent(rank, ps[0], ps[1..]);
      InsertDistinct(rank, ps[0], Sort(rank, ps[1..]));
      DistinctCons(rank, ps[0], ps[1..]);
      assert [ps[0]] + ps[1..] == ps;
    }
  }

  /** The associations an instruction makes, given the terms of its keys and values. */
  function Entries(key: Arg -> Term, value: Arg -> Term, ps: seq<Pair>): seq<Entry> {
    seq(|ps|, i requires 0 <= i < |ps| => Entry(key(ps[i].key), value(ps[i].value)))
  }

  /** The sorted keys are what the map updates demand exactly when no key occurs twice. */
  lemma SortedKeysAscend(r: Rank, key: Arg -> Term, value: Arg -> Term, rank: KeyRank, ps: seq<Pair>)
    requires forall a :: rank(a) == r(key(a))
    ensures Ascending(r, Entries(key, value, Sort(rank, ps))) <==> Distinct(rank, ps)
  {
    SortSorts(rank, ps);
    SortDistinct(rank, ps);
    var t := Sort(rank, ps);
    var es := Entries(key, value, t);
    assert forall i :: 0 <= i < |t| ==> r(es[i].key) == rank(t[i].key);
    if Ascending(r, es) {
      forall i, j | 0 <= i < j < |t|
        ensures rank(t[i].key) != rank(t[j].key)
      {
        assert r(es[i].key) < r(es[j].key);
      }
    }
  }

  // ---------------------------------------------------------------- the loader's function

  /**
   `beam_load_map_key_sort`: refuses keys that are not literals, unless there is only one key;
   otherwise leaves the same pairs in the order of their keys.
   */
  method KeySort(rest: array<Arg>, rank: KeyRank) returns (ok: bool)
    requires rest.Length % 2 == 0
    modifies rest
    ensures ok <==> rest.Length == 2 || AllLiteral(old(Pairs(rest[..])))
    ensures Pairs(rest[..]) == if ok && rest.Length != 2 then Sort(rank, old(Pairs(rest[..]))) else old(Pairs(rest[..]))
  {
    if rest.Length == 2 {
      return true;
    }
    var n := rest.Length / 2;
    var t: seq<Pair> := [];
    ghost var ps := Pairs(rest[..]);
    for i := 0 to n
      invariant t == ps[..i] && AllLiteral(t)
    {
      if !IsLiteral(rest[2 * i]) {
        assert ps[i].key == rest[2 * i];
        return false;
      }
      t := t + [Pair(rest[2 * i], rest[2 * i + 1])];
    }
    assert ps[..n] == ps;
    SortSorts(rank, t);
    t := Sort(rank, t);
    WritePairs(rest, t);
    return true;
  }

  /** The sorted pairs go back where the unsorted ones were. */
  method WritePairs(rest: array<Arg>, t: seq<Pair>)
    requires rest.Length == 2 * |t|
    modifies rest
    ensures Pairs(rest[..]) == t
  {
    for i := 0 to |t|
      invariant forall j :: 0 <= j < i ==> rest[2 * j] == t[j].key && rest[2 * j + 1] == t[j].value
    {
      rest[2 * i], rest[2 * i + 1] := t[i].key, t[i].value;
    }
    assert Pairs(rest[..]) == t;
  }
}
