/**
 The sorted table of code ranges, by which a code address is traced back to its module, function
 and line.
 */
module Ranges {
  import opened Wrappers

  /** The code of a module; a purged module's range is empty. */
  datatype Range = Range(start: nat, end: nat)

  predicate InRange(r: Range, pc: nat) {
    r.start <= pc < r.end
  }

  predicate IsLive(r: Range) {
    r.start < r.end
  }

  predicate Apart(a: Range, b: Range) {
    a.end <= b.start || b.end <= a.start
  }

  /** Ranges that are not empty and pairwise disjoint, in any order. */
  ghost predicate Separate(s: seq<Range>) {
    && (forall i :: 0 <= i < |s| ==> IsLive(s[i]))
    && (forall i, j :: 0 <= i < j < |s| ==> Apart(s[i], s[j]))
  }

  /** Ranges in the order of their addresses, some of them possibly empty. */
  ghost predicate Ordered(s: seq<Range>) {
    && (forall i :: 0 <= i < |s| ==> s[i].start <= s[i].end)
    && (forall i, j :: 0 <= i < j < |s| ==> s[i].end <= s[j].start && s[i].start < s[j].start)
  }

  ghost predicate Ascending(s: seq<Range>) {
    forall i, j :: 0 <= i < j < |s| ==> s[i].start <= s[j].start
  }

  ghost function Elements(s: seq<Range>): set<Range> {
    set r | r in s
  }

  /** The ranges of the modules that have not been purged. */
  ghost function LiveIn(s: seq<Range>): set<Range> {
    set r | r in s && IsLive(r)
  }

  // ---------------------------------------------------------------- sorting

  /** A range put in front of the first one that does not start before it. */
  function Insert(t: Range, s: seq<Range>): seq<Range> {
    if s == [] || t.start <= s[0].start then [t] + s else [s[0]] + Insert(t, s[1..])
  }

  function Sorted(s: seq<Range>): seq<Range> {
    if s == [] then [] else Insert(s[0], Sorted(s[1..]))
  }

  lemma ConsAscending(t: Range, s: seq<Range>)
    requires Ascending(s) && (s != [] ==> t.start <= s[0].start)
    ensures Ascending([t] + s)
  {
  }

  lemma {:induction false} InsertContents(t: Range, s: seq<Range>)
    ensures multiset(Insert(t, s)) == multiset{t} + multiset(s) && |Insert(t, s)| == |s| + 1
  {
    if s != [] && t.start > s[0].start {
      InsertContents(t, s[1..]);
      assert s == [s[0]] + s[1..];
    }
  }

  lemma {:induction false} InsertAscends(t: Range, s: seq<Range>)
    requires Ascending(s)
    ensures Ascending(Insert(t, s))
    ensures Insert(t, s) != [] && (Insert(t, s)[0] == t || (s != [] && Insert(t, s)[0] == s[0]))
  {
    if s == [] || t.start <= s[0].start {
      ConsAscending(t, s);
    } else {
      InsertAscends(t, s[1..]);
      ConsAscending(s[0], Insert(t, s[1..]));
    }
  }

  lemma InsertKeeps(t: Range, s: seq<Range>)
    requires Ascending(s)
    ensures Ascending(Insert(t, s)) && multiset(Insert(t, s)) == multiset{t} + multiset(s) && |Insert(t, s)| == |s| + 1
  {
    InsertContents(t, s);
    InsertAscends(t, s);
  }

  lemma {:induction false} SortedKeeps(s: seq<Range>)
    ensures Ascending(Sorted(s)) && multiset(Sorted(s)) == multiset(s) && |Sorted(s)| == |s|
  {
    if s != [] {
      SortedKeeps(s[1..]);
      InsertKeeps(s[0], Sorted(s[1..]));
      assert s == [s[0]] + s[1..];
    }
  }

  /** Rearranging ranges keeps them separate. */
  lemma SeparatePermuted(s: seq<Range>, s1: seq<Range>)
    requires Separate(s) && multiset(s) == multiset(s1)
    ensures Separate(s1) && Elements(s1) == Elements(s)
  {
    forall r
      ensures r in s <==> r in s1
    {
      assert r in multiset(s) <==> r in multiset(s1);
    }
    forall i | 0 <= i < |s1|
      ensures IsLive(s1[i]) && s1[i] in Elements(s)
    {
      assert s1[i] in s;
    }
    forall i | 0 <= i < |s|
      ensures s[i] in Elements(s1)
    {
      assert s[i] in s1;
    }
    forall i, j | 0 <= i < j < |s1|
      ensures Apart(s1[i], s1[j])
    {
      OccursTwice(s, s1, i, j);
    }
  }

  lemma OccursTwice(s: seq<Range>, s1: seq<Range>, i: nat, j: nat)
    requires Separate(s) && multiset(s) == multiset(s1) && i < j < |s1|
    requires forall r :: r in s <==> r in s1
    ensures Apart(s1[i], s1[j])
  {
    assert s1[i] in s && s1[j] in s;
    if s1[i] == s1[j] {
      assert s1 == s1[..i] + [s1[i]] + s1[i + 1..j] + [s1[j]] + s1[j + 1..];
      assert multiset(s1)[s1[i]] >= 2;
      OnlyOnce(s, s1[i]);
    }
  }

  lemma {:induction false} OnlyOnce(s: seq<Range>, r: Range)
    requires Separate(s)
    ensures multiset(s)[r] <= 1
  {
    if s != [] {
      assert s == [s[0]] + s[1..];
      OnlyOnce(s[1..], r);
      forall i | 0 <= i < |s[1..]|
        ensures s[1..][i] != s[0]
      {
        assert Apart(s[0], s[i + 1]) && IsLive(s[i + 1]);
      }
    }
  }

  lemma AscendingIsOrdered(s: seq<Range>)
    requires Separate(s) && Ascending(s)
    ensures Ordered(s) && LiveIn(s) == Elements(s)
  {
    forall i, j | 0 <= i < j < |s|
      ensures s[i].end <= s[j].start && s[i].start < s[j].start
    {
      assert Apart(s[i], s[j]) && IsLive(s[i]) && IsLive(s[j]);
    }
  }

  lemma {:induction false} InsertAt(t: Range, s: seq<Range>, k: nat)
    requires k <= |s| && (forall j :: 0 <= j < k ==> t.start > s[j].start) && (k < |s| ==> t.start <= s[k].start)
    ensures Insert(t, s) == s[..k] + [t] + s[k..]
  {
    if k > 0 {
      InsertAt(t, s[1..], k - 1);
      assert s[1..][..k - 1] == s[1..k] && s[1..][k - 1..] == s[k..] && s[..k] == [s[0]] + s[1..k];
    }
  }

  /** Ranges `before`, and what they are once the one at `lo` has moved up to `i`. */
  lemma Sifted(before: seq<Range>, after: seq<Range>, lo: nat, i: nat)
    requires lo <= i < |before| && |after| == |before| && after[i] == before[lo]
    requires forall j :: lo <= j < i ==> after[j] == before[j + 1]
    requires forall j :: i < j < |before| ==> after[j] == before[j]
    requires forall j :: lo < j <= i ==> before[lo].start > before[j].start
    requires i + 1 < |before| ==> before[lo].start <= before[i + 1].start
    ensures after[lo..] == Insert(before[lo], before[lo + 1..])
  {
    hide Insert;
    var tail, k := before[lo + 1..], i - lo;
    forall j | 0 <= j < k
      ensures before[lo].start > tail[j].start
    {
      assert tail[j] == before[lo + 1 + j];
    }
    InsertAt(before[lo], tail, k);
    assert after[lo..] == tail[..k] + [before[lo]] + tail[k..];
  }

  /** The loop that sifts the first range of `a[lo..n]` into the sorted ones after it. */
  method Sift(a: array<Range>, lo: nat, n: nat)
    requires lo < n <= a.Length
    modifies a
    ensures a[lo..n] == Insert(old(a[lo]), old(a[lo + 1..n]))
    ensures a[..lo] == old(a[..lo])
  {
    hide Insert;
    var t := a[lo];
    ghost var s := a[..n];
    var i := lo;
    while i < n - 1 && t.start > a[i + 1].start
      invariant lo <= i < n
      invariant a[..lo] == s[..lo]
      invariant forall j :: lo <= j < i ==> a[j] == s[j + 1]
      invariant forall j :: i < j < n ==> a[j] == s[j]
      invariant forall j :: lo < j <= i ==> t.start > s[j].start
    {
      a[i] := a[i + 1];
      i := i + 1;
    }
    a[i] := t;
    Sifted(s, a[..n], lo, i);
    assert a[..n][lo..] == a[lo..n] && s[lo + 1..] == old(a[lo + 1..n]);
  }

  /** Stands for `qsort`: sift every range into place, the last one first. */
  method SortAll(a: array<Range>, n: nat)
    requires n <= a.Length
    modifies a
    ensures a[..n] == Sorted(old(a[..n]))
  {
    ghost var s := a[..n];
    var k := n;
    assert a[k..n] == Sorted(s[k..]);
    while k > 0
      invariant 0 <= k <= n && a[..k] == s[..k] && a[k..n] == Sorted(s[k..])
    {
      k := k - 1;
      assert a[k] == s[k] && s[k..][1..] == s[k + 1..];
      ghost var pre := a[..k + 1];
      Sift(a, k, n);
      assert a[..k] == pre[..k];
    }
    assert s[0..] == s && a[0..n] == a[..n];
  }

  // ---------------------------------------------------------------- the table

  /** The live ranges of a table, in order. */
  function Unpurged(s: seq<Range>): seq<Range> {
    if s == [] then [] else (if IsLive(s[0]) then [s[0]] else []) + Unpurged(s[1..])
  }

  lemma {:induction false} UnpurgedSnoc(s: seq<Range>, r: Range)
    ensures Unpurged(s + [r]) == Unpurged(s) + if IsLive(r) then [r] else []
  {
    if s == [] {
      assert s + [r] == [r];
    } else {
      UnpurgedSnoc(s[1..], r);
      assert (s + [r])[1..] == s[1..] + [r];
    }
  }

  lemma {:induction false} UnpurgedIn(s: seq<Range>, r: Range)
    ensures r in Unpurged(s) <==> r in s && IsLive(r)
  {
    if s != [] {
      UnpurgedIn(s[1..], r);
      assert r in s <==> r == s[0] || r in s[1..];
    }
  }

  lemma {:induction false} UnpurgedOrdered(s: seq<Range>)
    requires Ordered(s)
    ensures Separate(Unpurged(s)) && Ascending(Unpurged(s)) && |Unpurged(s)| <= |s|
  {
    if s != [] {
      UnpurgedOrdered(s[1..]);
      UnpurgedAfter(s);
      if IsLive(s[0]) {
        ConsSeparate(s[0], Unpurged(s[1..]));
      }
    }
  }

  lemma UnpurgedAfter(s: seq<Range>)
    requires Ordered(s) && s != []
    ensures forall i :: 0 <= i < |Unpurged(s[1..])| ==> s[0].end <= Unpurged(s[1..])[i].start
  {
    var u := Unpurged(s[1..]);
    forall i | 0 <= i < |u|
      ensures s[0].end <= u[i].start
    {
      UnpurgedIn(s[1..], u[i]);
      var j :| 0 <= j < |s[1..]| && s[1..][j] == u[i];
      assert s[0].end <= s[j + 1].start;
    }
  }

  lemma ConsSeparate(r: Range, u: seq<Range>)
    requires Separate(u) && Ascending(u) && IsLive(r) && forall i :: 0 <= i < |u| ==> r.end <= u[i].start
    ensures Separate([r] + u) && Ascending([r] + u)
  {
    var s := [r] + u;
    forall i, j | 0 <= i < j < |s|
      ensures Apart(s[i], s[j]) && s[i].start <= s[j].start
    {
      if i > 0 {
        assert s[i] == u[i - 1] && s[j] == u[j - 1];
      }
    }
  }

  lemma LiveOf(s: seq<Range>)
    ensures Elements(Unpurged(s)) == LiveIn(s)
    ensures forall r :: r in Unpurged(s) <==> r in LiveIn(s)
  {
    forall r
      ensures r in Unpurged(s) <==> r in s && IsLive(r)
    {
      UnpurgedIn(s, r);
    }
  }

  /** Sorting separate ranges gives an ordered table with the same ranges, all live. */
  lemma SortedIsOrdered(s: seq<Range>)
    requires Separate(s)
    ensures Ordered(Sorted(s)) && LiveIn(Sorted(s)) == Elements(s)
  {
    SortedKeeps(s);
    SeparatePermuted(s, Sorted(s));
    AscendingIsOrdered(Sorted(s));
  }

  lemma InsertedIsOrdered(t: Range, s: seq<Range>)
    requires Separate([t] + s) && Ascending(s)
    ensures Ordered(Insert(t, s)) && LiveIn(Insert(t, s)) == Elements([t] + s)
  {
    InsertKeeps(t, s);
    SeparatePermuted([t] + s, Insert(t, s));
    AscendingIsOrdered(Insert(t, s));
  }

  /** Adding a range that is apart from all others. */
  lemma SeparateInsert(a: seq<Range>, b: seq<Range>, r: Range)
    requires Separate(a + b) && IsLive(r)
    requires forall x :: x in a || x in b ==> Apart(x, r)
    ensures Separate(a + [r] + b)
  {
    var s, s1, k := a + b, a + [r] + b, |a|;
    forall i | 0 <= i < |s1|
      ensures IsLive(s1[i]) && (i != k ==> Apart(s1[i], r))
    {
      if i != k {
        assert s1[i] == s[if i < k then i else i - 1];
        assert s1[i] in a || s1[i] in b;
      }
    }
    forall i, j | 0 <= i < j < |s1|
      ensures Apart(s1[i], s1[j])
    {
      if i != k && j != k {
        var i1, j1 := if i < k then i else i - 1, if j < k then j else j - 1;
        assert s1[i] == s[i1] && s1[j] == s[j1];
      }
    }
  }

  /** Sort the table: nothing, one new range to sift into place, or several. */
  method Arrange(a: array<Range>, inserted: nat, w: nat, ghost ins: seq<Range>, ghost u: seq<Range>)
    requires w <= a.Length && a[..w] == ins + u && inserted == |ins| && Separate(ins + u) && Ascending(u)
    modifies a
    ensures Ordered(a[..w]) && LiveIn(a[..w]) == Elements(ins + u)
  {
    hide Ordered, Separate, Ascending, Sorted, Insert, LiveIn, Elements;
    ghost var s := a[..w];
    if inserted > 1 {
      SortAll(a, w);
      SortedIsOrdered(s);
    } else if inserted == 1 {
      assert s == [s[0]] + u && a[1..w] == u;
      Sift(a, 0, w);
      assert a[..w] == a[0..w];
      InsertedIsOrdered(s[0], u);
    } else {
      assert ins + u == u;
      AscendingIsOrdered(u);
    }
  }

  /** Making a range empty removes it from the live ones and keeps the order. */
  lemma PurgeOne(s: seq<Range>, k: nat)
    requires Ordered(s) && k < |s| && IsLive(s[k])
    ensures
      var s1 := s[k := Range(s[k].start, s[k].start)];
      Ordered(s1) && LiveIn(s1) == LiveIn(s) - {s[k]}
  {
    var s1 := s[k := Range(s[k].start, s[k].start)];
    forall r
      ensures r in LiveIn(s1) <==> r in LiveIn(s) && r != s[k]
    {
      if r in LiveIn(s1) {
        var i :| 0 <= i < |s1| && s1[i] == r;
        assert i != k && s[i] == r;
      }
      if r in LiveIn(s) && r != s[k] {
        var i :| 0 <= i < |s| && s[i] == r;
        assert s1[i] == r;
      }
    }
  }

  /** An address is in at most one range. */
  lemma InOneRange(s: seq<Range>, a: Range, b: Range, pc: nat)
    requires Ordered(s) && a in s && b in s && InRange(a, pc) && InRange(b, pc)
    ensures a == b
  {
    var i :| 0 <= i < |s| && s[i] == a;
    var j :| 0 <= j < |s| && s[j] == b;
    assert i == j;
  }

  lemma ElementsOfBoth(a: seq<Range>, b: seq<Range>)
    ensures Elements(a + b) == Elements(a) + Elements(b)
  {
  }

  class RangeTable {
    var modules: array<Range>    // the active table
    var n: nat
    var mid: nat                 // where the next search starts
    var staged: array<Range>     // the table being staged
    var written: nat
    var isStaging: bool
    ghost var room: nat          // how many insertions were announced

    ghost predicate Valid()
      reads this, modules, staged
    {
      && n <= modules.Length && Ordered(modules[..n]) && (n > 0 ==> mid < n)
      && (isStaging ==>
            && modules != staged && written <= room && n + room <= staged.Length
            && Separate(staged[..written] + Unpurged(modules[..n])))
    }

    /** The ranges of the loaded modules. */
    ghost function Live(): set<Range>
      requires Valid()
      reads this, modules, staged
    {
      LiveIn(modules[..n])
    }

    /** The ranges inserted since staging began. */
    ghost function Inserted(): seq<Range>
      requires Valid() && isStaging
      reads this, modules, staged
    {
      staged[..written]
    }

    constructor ()
      ensures Valid() && !isStaging && Live() == {}
    {
      modules, staged := new Range[0], new Range[0];
      n, mid, written, isStaging, room := 0, 0, 0, false, 0;
    }

    /** `erts_start_staging_ranges`. */
    method StartStaging(numNew: nat)
      requires Valid() && !isStaging
      modifies this
      ensures Valid() && isStaging && fresh(staged) && room == numNew && Inserted() == []
      ensures modules == old(modules) && n == old(n) && Live() == old(Live())
    {
      staged := new Range[n + numNew];
      written, isStaging, room := 0, true, numNew;
      UnpurgedOrdered(modules[..n]);
      assert staged[..written] + Unpurged(modules[..n]) == Unpurged(modules[..n]);
    }

    /** `erts_update_ranges`: insert the code of a new module. */
    method Update(code: nat, size: nat)
      requires Valid() && isStaging && written < room && 0 < size
      requires forall r :: r in Live() || r in Inserted() ==> Apart(r, Range(code, code + size))
      modifies this`written, staged
      ensures Valid() && Inserted() == old(Inserted()) + [Range(code, code + size)] && Live() == old(Live())
    {
      LiveOf(modules[..n]);
      forall x | x in staged[..written] || x in Unpurged(modules[..n])
        ensures Apart(x, Range(code, code + size))
      {
        assert x in Live() || x in Inserted();
      }
      SeparateInsert(staged[..written], Unpurged(modules[..n]), Range(code, code + size));
      ghost var before, active := staged[..written], modules[..n];
      staged[written] := Range(code, code + size);
      written := written + 1;
      assert staged[..written] == before + [Range(code, code + size)] && modules[..n] == active;
    }

    /** `erts_end_staging_ranges`: merge the inserted ranges with the live ones. */
    method EndStaging(commit: bool)
      requires Valid() && isStaging
      modifies this, staged
      ensures Valid() && !isStaging
      ensures Live() == if commit then old(Live()) + Elements(old(Inserted())) else old(Live())
      ensures if commit then mid == n / 2 else modules == old(modules) && n == old(n) && mid == old(mid)
    {
      hide Ordered, Separate, Ascending, LiveIn, Unpurged, Elements;
      if commit {
        ghost var ins, u := staged[..written], Unpurged(modules[..n]);
        LiveOf(modules[..n]);
        UnpurgedOrdered(modules[..n]);
        var w := CopyLive();
        Arrange(staged, written, w, ins, u);
        ElementsOfBoth(ins, u);
        modules, n := staged, w;
        mid := n / 2;
      }
      isStaging := false;
    }

    /** Append the live ranges of the active table to the inserted ones. */
    method CopyLive() returns (w: nat)
      requires Valid() && isStaging
      modifies staged
      ensures w <= staged.Length && staged[..w] == old(Inserted()) + Unpurged(modules[..n])
      ensures modules[..n] == old(modules[..n])
    {
      ghost var ins := staged[..written];
      w := written;
      for i := 0 to n
        invariant written <= w <= written + i
        invariant staged[..w] == ins + Unpurged(modules[..i]) && modules[..n] == old(modules[..n])
      {
        UnpurgedSnoc(modules[..i], modules[i]);
        assert modules[..i] + [modules[i]] == modules[..i + 1];
        if IsLive(modules[i]) {
          staged[w] := modules[i];
          w := w + 1;
        }
      }
    }

    /**
     `find_range`: from wherever the search starts, it finds the live range that contains the
     address, if there is one.
     */
    method Find(pc: nat) returns (r: Option<nat>)
      requires Valid()
      modifies this`mid
      ensures Valid()
      ensures r.Some? ==> r.value < n && modules[r.value] in Live() && InRange(modules[r.value], pc)
      ensures r.None? ==> forall x :: x in Live() ==> !InRange(x, pc)
    {
      var low, high, m := 0, n, mid;
      while low < high
        invariant low <= high <= n && (low < high ==> low <= m < high)
        invariant forall i :: 0 <= i < low ==> modules[i].end <= pc
        invariant forall i :: high <= i < n ==> pc < modules[i].start
        invariant mid == old(mid)
        decreases high - low
      {
        if pc < modules[m].start {
          high := m;
        } else if pc >= modules[m].end {
          low := m + 1;
        } else {
          mid := m;
          assert modules[m] in modules[..n];
          return Some(m);
        }
        m := low + (high - low) / 2;
      }
      return None;
    }

    /** `erts_remove_from_ranges`: purge the module that starts at `code`. */
    method Remove(code: nat)
      requires Valid() && !isStaging && exists r :: r in Live() && r.start == code
      modifies this`mid, modules
      ensures Valid() && exists r :: r in old(Live()) && r.start == code && Live() == old(Live()) - {r}
    {
      ghost var r :| r in Live() && r.start == code;
      ghost var s := modules[..n];
      var k := Find(code);
      assert r in Live() && InRange(r, code);
      InOneRange(s, r, modules[k.value], code);
      PurgeOne(s, k.value);
      modules[k.value] := Range(modules[k.value].start, modules[k.value].start);
      assert modules[..n] == s[k.value := Range(r.start, r.start)];
    }
  }

  // ---------------------------------------------------------------- functions and lines

  /** Addresses that do not decrease; the last one is the end of what they divide. */
  ghost predicate Dividing(s: seq<nat>) {
    forall i, j :: 0 <= i <= j < |s| ==> s[i] <= s[j]
  }

  /** Entry `i` covers the addresses up to the next entry. */
  predicate Covers(s: seq<nat>, i: nat, pc: nat) {
    i + 1 < |s| && s[i] <= pc < s[i + 1]
  }

  /** At most one entry covers an address. */
  lemma CoversOne(s: seq<nat>, i: nat, j: nat, pc: nat)
    requires Dividing(s) && Covers(s, i, pc) && Covers(s, j, pc)
    ensures i == j
  {
    assert i == j;
  }

  /** The searches of `erts_lookup_function_info` and `lookup_loc` in `s[lo..hi]`. */
  method Search(s: seq<nat>, lo: nat, hi: nat, pc: nat) returns (r: Option<nat>)
    requires Dividing(s) && lo <= hi < |s|
    ensures r.Some? ==> lo <= r.value < hi && Covers(s, r.value, pc)
    ensures r.None? ==> forall i :: lo <= i < hi ==> !Covers(s, i, pc)
  {
    var low, high := lo, hi;
    while low < high
      invariant lo <= low <= high <= hi
      invariant forall i :: lo < i <= low ==> s[i] <= pc
      invariant forall i :: high <= i < hi ==> pc < s[i]
    {
      var mid := low + (high - low) / 2;
      if pc < s[mid] {
        high := mid;
      } else if pc < s[mid + 1] {
        return Some(mid);
      } else {
        low := mid + 1;
      }
    }
    return None;
  }

  const LINE_INVALID_LOCATION: nat := 0

  /** The line table: `funcTab[i]` is the first line entry of function `i`. */
  datatype LineTab = LineTab(funcTab: seq<nat>, addresses: seq<nat>, locs: seq<nat>)

  /** What a module's header says; the last element of `functions` is the end of the code. */
  datatype Header = Header(functions: seq<nat>, lines: Option<LineTab>)

  ghost predicate HeaderOk(h: Header) {
    && h.functions != [] && Dividing(h.functions)
    && (h.lines.Some? ==>
          var lt := h.lines.value;
          && |lt.funcTab| == |h.functions| && Dividing(lt.funcTab) && Dividing(lt.addresses)
          && lt.funcTab[|lt.funcTab| - 1] < |lt.addresses| && |lt.locs| == |lt.addresses|)
  }

  /** `FunctionInfo`: the function, the location and the heap words needed to build the term for them. */
  datatype Info = Info(func: Option<nat>, needed: nat, loc: nat)

  /** Function `f` of the module contains the address. */
  predicate FunctionAt(h: Header, f: nat, pc: nat) {
    Covers(h.functions, f, pc)
  }

  /** Line entry `l` of function `f` contains the address. */
  predicate LineAt(h: Header, f: nat, l: nat, pc: nat) {
    && h.lines.Some? && f + 1 < |h.lines.value.funcTab|
    && h.lines.value.funcTab[f] <= l < h.lines.value.funcTab[f + 1] && Covers(h.lines.value.addresses, l, pc)
  }

  /** What a scan of all functions and lines would give. */
  ghost predicate Found(h: Header, pc: nat, full: bool, fi: Info) {
    match fi.func
    case None => (forall f: nat :: !FunctionAt(h, f, pc)) && fi.needed == 5 && fi.loc == LINE_INVALID_LOCATION
    case Some(f) =>
      && FunctionAt(h, f, pc)
      && (!full || (forall l: nat :: !LineAt(h, f, l, pc)) ==> fi.loc == LINE_INVALID_LOCATION)
      && (full ==> forall l: nat :: LineAt(h, f, l, pc) && l < |h.lines.value.locs| ==> fi.loc == h.lines.value.locs[l])
      && fi.needed == if fi.loc == LINE_INVALID_LOCATION then 5 else 15
  }

  /** `lookup_loc`. */
  method LookupLoc(h: Header, f: nat, pc: nat) returns (loc: nat, needed: nat)
    requires HeaderOk(h) && FunctionAt(h, f, pc)
    ensures Found(h, pc, true, Info(Some(f), needed, loc))
  {
    if h.lines.None? {
      return LINE_INVALID_LOCATION, 5;
    }
    var lt := h.lines.value;
    assert lt.funcTab[f + 1] <= lt.funcTab[|lt.funcTab| - 1];
    var l := Search(lt.addresses, lt.funcTab[f], lt.funcTab[f + 1], pc);
    if l.None? {
      return LINE_INVALID_LOCATION, 5;
    }
    forall l1: nat | LineAt(h, f, l1, pc)
      ensures l1 == l.value
    {
      CoversOne(lt.addresses, l1, l.value, pc);
    }
    assert LineAt(h, f, l.value, pc);
    loc := lt.locs[l.value];
    needed := if loc == LINE_INVALID_LOCATION then 5 else 15;
  }

  /** `erts_lookup_function_info`: range, function and line as a scan over the live modules would give them. */
  method LookupFunctionInfo(t: RangeTable, headers: map<nat, Header>, pc: nat, full: bool) returns (fi: Info)
    requires t.Valid() && forall r :: r in t.Live() ==> r.start in headers && HeaderOk(headers[r.start])
    modifies t`mid
    ensures t.Valid() && t.Live() == old(t.Live())
    ensures forall r :: r in t.Live() && InRange(r, pc) ==> Found(headers[r.start], pc, full, fi)
    ensures (forall r :: r in t.Live() ==> !InRange(r, pc)) ==> fi == Info(None, 5, LINE_INVALID_LOCATION)
  {
    fi := Info(None, 5, LINE_INVALID_LOCATION);
    var k := t.Find(pc);
    if k.None? {
      return;
    }
    var rp := t.modules[k.value];
    forall r | r in t.Live() && InRange(r, pc)
      ensures r == rp
    {
      InOneRange(t.modules[..t.n], r, rp, pc);
    }
    var h := headers[rp.start];
    var f := Search(h.functions, 0, |h.functions| - 1, pc);
    if f.Some? {
      fi := Info(f, 5, LINE_INVALID_LOCATION);
      if full {
        var loc, needed := LookupLoc(h, f.value, pc);
        fi := Info(f, needed, loc);
      }
    }
  }
}
