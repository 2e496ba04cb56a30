/**
 Reading call_time or call_memory totals while calls go on being recorded: the tables of the
 active half are swapped for temporary ones, collected, swapped back, and what was recorded in
 the temporary ones is added again. Schedulers record at any time, without locks except on the
 table that dirty schedulers share.
 */
module TraceSnapshot {
  import opened PidHash
  import opened Wrappers

  type Obj = nat

  /**
   A scheduler in a traced call: the active index it has read for a table pointer that it has not
   read yet, and the tables it has pointers to. It may have two, for the function that is called
   and for the one that was current.
   */
  datatype Writer = Writer(chosen: Option<nat>, held: set<Obj>)

  const OUTSIDE := Writer(None, {})

  datatype Ctl =
    | Quiet
    | Prepared                 // barrier before the switch to the temporary tables
    | Switched                 // barrier before collecting
    | Collecting(i: nat)       // adding up the tables of thread i
    | Restored                 // barrier before consolidating
    | Consolidating(i: nat)    // adding the temporary table of thread i, holding the dirty lock

  datatype State = State(
    n: nat,                          // normal schedulers; slot n is the one dirty schedulers share
    tables: map<Obj, seq<Totals>>,   // allocated BpTimemTrace objects, one table per slot
    half: seq<Obj>,
    activeIx: nat,
    nextObj: Obj,
    ctl: Ctl,
    acked: set<nat>,
    writers: seq<Writer>,
    result: Totals,
    // What has happened so far:
    recorded: Totals,                // everything recorded
    before: Totals,                  // totals when the snapshot was asked for
    landed: Totals                   // recorded since then, but still in the real tables
  )

  datatype Step =
    | Choose(w: nat) | Load(w: nat) | Record(w: nat, obj: Obj, pid: Pid, stat: Stat) | Leave(w: nat)
    | Ack(w: nat)
    | Prepare
    | Control

  /** Normal schedulers have a slot of their own, all others use the last one. */
  function Slot(s: State, w: nat): nat {
    if w < s.n then w else s.n
  }

  predicate Dirty(s: State, w: nat) {
    w >= s.n
  }

  function Real(s: State): Obj
    requires |s.half| == 2 && s.activeIx < 2
  {
    if s.ctl.Switched? || s.ctl.Collecting? then s.half[1 - s.activeIx] else s.half[s.activeIx]
  }

  function Temp(s: State): Obj
    requires |s.half| == 2 && s.activeIx < 2
  {
    if s.ctl.Switched? || s.ctl.Collecting? then s.half[s.activeIx] else s.half[1 - s.activeIx]
  }

  predicate Shape(s: State) {
    && |s.half| == 2 && s.activeIx < 2
    && s.tables.Keys == {s.half[0], s.half[1]}
    && (forall o :: o in s.tables ==> |s.tables[o]| == s.n + 1 && o < s.nextObj)
    && (s.ctl.Quiet? <==> s.half[0] == s.half[1])
    && (s.ctl.Collecting? || s.ctl.Consolidating? ==> s.ctl.i <= s.n + 1)
  }

  function Init(n: nat, writers: nat, tables: seq<Totals>): State {
    State(n, map[0 := tables], [0, 0], 0, 1, Quiet, {}, seq(writers, _ => OUTSIDE), map[], map[], map[], map[])
  }

  predicate Enabled(s: State, step: Step) {
    match step
    case Choose(w) => w < |s.writers| && s.writers[w].chosen.None?
    case Load(w) => w < |s.writers| && s.writers[w].chosen.Some?
    case Record(w, o, _, _) => w < |s.writers| && o in s.writers[w].held && (Dirty(s, w) ==> !s.ctl.Consolidating?)
    case Leave(w) => w < |s.writers| && s.writers[w].chosen.None?
    case Ack(w) => w < |s.writers| && s.writers[w] == OUTSIDE
    case Prepare => s.ctl.Quiet?
    case Control =>
      && !s.ctl.Quiet?
      && (s.ctl.Prepared? || s.ctl.Switched? || s.ctl.Restored? ==>
            forall w: nat :: w < |s.writers| ==> w in s.acked)
  }

  /** The table a call is recorded in is allocated. */
  predicate Safe(s: State, step: Step) {
    match step
    case Load(w) => w < |s.writers| && s.writers[w].chosen.Some? && s.writers[w].chosen.value < |s.half|
    case Record(_, o, _, _) => o in s.tables
    case _ => true
  }

  function Move(s: State, w: nat, to: Writer): State
    requires w < |s.writers|
  {
    s.(writers := s.writers[w := to])
  }

  /** What a scheduler has after reading a table pointer. */
  function Loaded(s: State, w: nat): Writer
    requires w < |s.writers| && s.writers[w].chosen.Some? && s.writers[w].chosen.value < |s.half|
  {
    Writer(None, s.writers[w].held + {s.half[s.writers[w].chosen.value]})
  }

  function DoRecord(s: State, w: nat, o: Obj, p: Pid, st: Stat): State
    requires Shape(s) && o in s.tables
  {
    var slot := Slot(s, w);
    s.(
      tables := s.tables[o := s.tables[o][slot := Accumulated(s.tables[o][slot], p, st)]],
      recorded := Accumulated(s.recorded, p, st),
      landed := if o == Real(s) then Accumulated(s.landed, p, st) else s.landed)
  }

  /** `erts_prepare_timem_trace_info`: fresh tables in the staging half. */
  function DoPrepare(s: State): State
    requires Shape(s)
  {
    s.(tables := s.tables[s.nextObj := seq(s.n + 1, _ => map[])],
       half := s.half[1 - s.activeIx := s.nextObj], nextObj := s.nextObj + 1,
       ctl := Prepared, acked := {}, result := map[],
       before := SumAll(s.tables[Real(s)]), landed := map[])
  }

  function Flip(s: State, ctl: Ctl): State
    requires s.activeIx < 2
  {
    s.(activeIx := 1 - s.activeIx, ctl := ctl, acked := {})
  }

  /** One step of `trace_info_finisher`. */
  function DoControl(s: State): State
    requires Shape(s)
  {
    match s.ctl
    case Quiet => s
    case Prepared => Flip(s, Switched)
    case Switched => s.(ctl := Collecting(0))
    case Collecting(i) =>
      if i <= s.n then s.(result := Sum(s.result, s.tables[Real(s)][i]), ctl := Collecting(i + 1))
      else Flip(s, Restored)
    case Restored => s.(ctl := Consolidating(0))
    case Consolidating(i) =>
      var main, temp := Real(s), Temp(s);
      if i <= s.n then
        s.(tables := s.tables[main := s.tables[main][s.n := Sum(s.tables[main][s.n], s.tables[temp][i])]],
           ctl := Consolidating(i + 1))
      else
        s.(tables := s.tables - {temp}, half := [main, main], ctl := Quiet, acked := {})
  }

  function Apply(s: State, step: Step): State
    requires Shape(s) && Enabled(s, step) && Safe(s, step)
  {
    match step
    case Choose(w) => Move(s, w, s.writers[w].(chosen := Some(s.activeIx)))
    case Load(w) => Move(s, w, Loaded(s, w))
    case Record(w, o, p, st) => DoRecord(s, w, o, p, st)
    case Leave(w) => Move(s, w, OUTSIDE)
    case Ack(w) => s.(acked := s.acked + {w})
    case Prepare => DoPrepare(s)
    case Control => DoControl(s)
  }

  // ---------------------------------------------------------------- invariant

  predicate WriterOk(s: State, w: nat)
    requires Shape(s) && w < |s.writers|
  {
    var late := (s.ctl.Switched? || s.ctl.Restored?) && w !in s.acked;
    && (s.writers[w].chosen.Some? ==>
          s.writers[w].chosen.value == s.activeIx || (late && s.writers[w].chosen.value < 2))
    && (forall o :: o in s.writers[w].held ==> o == s.half[s.activeIx] || (late && o in s.tables))
  }

  /** What is still only in the temporary tables. */
  function Aside(s: State): Totals
    requires Shape(s)
  {
    if s.ctl.Quiet? then map[]
    else if s.ctl.Consolidating? then SumAll(s.tables[Temp(s)][s.ctl.i..])
    else SumAll(s.tables[Temp(s)])
  }

  /** Every recorded call is counted once, on top of the totals to begin with: in the real tables or aside. */
  predicate Conserved(s: State, base: Totals)
    requires Shape(s)
  {
    Sum(SumAll(s.tables[Real(s)]), Aside(s)) == Sum(base, s.recorded)
  }

  /** The part of the real tables that has been collected. */
  predicate Collected(s: State)
    requires Shape(s)
  {
    && (s.ctl.Collecting? ==> s.result == SumAll(s.tables[Real(s)][..s.ctl.i]))
    && (s.ctl.Prepared? || s.ctl.Switched? ==> s.result == map[])
    && (s.ctl.Prepared? ==> SumAll(s.tables[Temp(s)]) == map[])
    && (s.ctl.Prepared? || s.ctl.Switched? || s.ctl.Collecting? ==>
          SumAll(s.tables[Real(s)]) == Sum(s.before, s.landed))
  }

  ghost predicate Inv(s: State, base: Totals) {
    && Shape(s)
    && (forall w: nat :: w < |s.writers| ==> WriterOk(s, w))
    && Conserved(s, base)
    && Collected(s)
  }

  // ---------------------------------------------------------------- sums

  lemma AccumulatedIsSum(m: Totals, p: Pid, st: Stat)
    ensures Accumulated(m, p, st) == Sum(m, map[p := st])
  {
  }

  /** (a + b) + c with a and b grown by c instead: the order of additions does not matter. */
  lemma SumSwap(a: Totals, b: Totals, c: Totals)
    ensures Sum(Sum(a, c), b) == Sum(Sum(a, b), c) == Sum(a, Sum(b, c))
  {
    SumAssoc(a, b, c);
    SumAssoc(a, c, b);
    SumCommutes(b, c);
  }

  /** Adding to one thread's table adds to the sum over all threads. */
  lemma {:induction false} SumAllAdd(parts: seq<Totals>, k: nat, m: Totals)
    requires k < |parts|
    ensures SumAll(parts[k := Sum(parts[k], m)]) == Sum(SumAll(parts), m)
  {
    hide Sum;
    var last := |parts| - 1;
    if k == last {
      assert parts[k := Sum(parts[k], m)][..last] == parts[..last];
      SumAssoc(SumAll(parts[..last]), parts[k], m);
    } else {
      assert parts[k := Sum(parts[k], m)][..last] == parts[..last][k := Sum(parts[k], m)];
      SumAllAdd(parts[..last], k, m);
      SumSwap(SumAll(parts[..last]), parts[last], m);
    }
  }

  lemma {:induction false} SumAllFirst(parts: seq<Totals>)
    requires parts != []
    ensures SumAll(parts) == Sum(parts[0], SumAll(parts[1..]))
  {
    hide Sum;
    SumEmpty(parts[0]);
    var last := |parts| - 1;
    if last > 0 {
      SumAllFirst(parts[..last]);
      assert parts[..last][1..] == parts[1..][..last - 1];
      SumAssoc(parts[0], SumAll(parts[1..][..last - 1]), parts[last]);
    } else {
      assert parts[1..] == [] && parts[..0] == [];
    }
  }

  lemma {:induction false} SumAllEmpty(parts: seq<Totals>)
    requires forall i :: 0 <= i < |parts| ==> parts[i] == map[]
    ensures SumAll(parts) == map[]
  {
    if parts != [] {
      SumAllEmpty(parts[..|parts| - 1]);
    }
  }

  // ---------------------------------------------------------------- preservation

  lemma InitEstablishes(n: nat, writers: nat, tables: seq<Totals>)
    requires |tables| == n + 1
    ensures Inv(Init(n, writers, tables), SumAll(tables))
  {
    SumEmpty(SumAll(tables));
  }

  lemma MoveKeeps(s: State, base: Totals, w: nat, to: Writer)
    requires Inv(s, base) && w < |s.writers| && WriterOk(Move(s, w, to), w)
    ensures Inv(Move(s, w, to), base)
  {
    hide Sum, SumAll;
    var s1 := Move(s, w, to);
    forall u: nat | u < |s.writers|
      ensures WriterOk(s1, u)
    {
      assert WriterOk(s, u);
    }
  }

  lemma RecordWriters(s: State, w: nat, o: Obj, p: Pid, st: Stat)
    requires Shape(s) && Enabled(s, Record(w, o, p, st)) && Safe(s, Record(w, o, p, st))
    requires forall u: nat :: u < |s.writers| ==> WriterOk(s, u)
    ensures Shape(DoRecord(s, w, o, p, st))
    ensures forall u: nat :: u < |s.writers| ==> WriterOk(DoRecord(s, w, o, p, st), u)
  {
    hide Sum, SumAll, Accumulated;
    var s1 := DoRecord(s, w, o, p, st);
    forall u: nat | u < |s.writers|
      ensures WriterOk(s1, u)
    {
      assert WriterOk(s, u);
    }
  }

  /** The sums over the tables after a record: one of them has grown by the item. */
  lemma RecordSums(s: State, w: nat, o: Obj, p: Pid, st: Stat)
    requires Shape(s) && Enabled(s, Record(w, o, p, st)) && Safe(s, Record(w, o, p, st))
    ensures var s1 := DoRecord(s, w, o, p, st);
      && s1.tables.Keys == s.tables.Keys
      && SumAll(s1.tables[o]) == Sum(SumAll(s.tables[o]), map[p := st])
      && (forall q :: q in s.tables && q != o ==> s1.tables[q] == s.tables[q])
      && s1.recorded == Sum(s.recorded, map[p := st])
      && s1.landed == (if o == Real(s) then Sum(s.landed, map[p := st]) else s.landed)
  {
    hide Sum, SumAll, Accumulated;
    var slot := Slot(s, w);
    AccumulatedIsSum(s.tables[o][slot], p, st);
    AccumulatedIsSum(s.recorded, p, st);
    AccumulatedIsSum(s.landed, p, st);
    SumAllAdd(s.tables[o], slot, map[p := st]);
  }

  /** The table written to is the real one or the temporary one, and is not being added up. */
  lemma RecordPlace(s: State, w: nat, o: Obj, p: Pid, st: Stat)
    requires Shape(s) && Enabled(s, Record(w, o, p, st)) && Safe(s, Record(w, o, p, st)) && WriterOk(s, w)
    ensures o == Real(s) || (o == Temp(s) && !s.ctl.Quiet? && !s.ctl.Prepared? && !s.ctl.Consolidating?)
    ensures s.ctl.Collecting? ==> o == Temp(s)
    ensures Real(s) == Temp(s) ==> s.ctl.Quiet?
  {
  }

  lemma RecordConserves(s: State, base: Totals, w: nat, o: Obj, p: Pid, st: Stat)
    requires Inv(s, base) && Enabled(s, Record(w, o, p, st)) && Safe(s, Record(w, o, p, st))
    requires Shape(DoRecord(s, w, o, p, st))
    ensures Conserved(DoRecord(s, w, o, p, st), base)
  {
    hide Sum, SumAll, Accumulated, WriterOk;
    var m := map[p := st];
    RecordPlace(s, w, o, p, st);
    RecordSums(s, w, o, p, st);
    SumAssoc(base, s.recorded, m);
    SumSwap(SumAll(s.tables[Real(s)]), Aside(s), m);
  }

  lemma RecordCollects(s: State, base: Totals, w: nat, o: Obj, p: Pid, st: Stat)
    requires Inv(s, base) && Enabled(s, Record(w, o, p, st)) && Safe(s, Record(w, o, p, st))
    requires Shape(DoRecord(s, w, o, p, st))
    ensures Collected(DoRecord(s, w, o, p, st))
  {
    hide Sum, SumAll, Accumulated, WriterOk, Conserved;
    RecordPlace(s, w, o, p, st);
    RecordSums(s, w, o, p, st);
    SumAssoc(s.before, s.landed, map[p := st]);
  }

  /** A call is recorded either in the real tables or aside, never in a table that is being added up. */
  lemma RecordKeeps(s: State, base: Totals, w: nat, o: Obj, p: Pid, st: Stat)
    requires Inv(s, base) && Enabled(s, Record(w, o, p, st)) && Safe(s, Record(w, o, p, st))
    ensures Inv(DoRecord(s, w, o, p, st), base)
  {
    hide Sum, SumAll, DoRecord, WriterOk, Conserved, Collected;
    RecordWriters(s, w, o, p, st);
    RecordConserves(s, base, w, o, p, st);
    RecordCollects(s, base, w, o, p, st);
    RecordSameWriters(s, w, o, p, st);
  }

  lemma RecordSameWriters(s: State, w: nat, o: Obj, p: Pid, st: Stat)
    requires Shape(s) && o in s.tables
    ensures DoRecord(s, w, o, p, st).writers == s.writers
  {
  }

  lemma PrepareKeeps(s: State, base: Totals)
    requires Inv(s, base) && s.ctl.Quiet?
    ensures Inv(DoPrepare(s), base)
  {
    hide Sum, SumAll;
    var s1 := DoPrepare(s);
    SumAllEmpty(s1.tables[s.nextObj]);
    SumEmpty(SumAll(s.tables[Real(s)]));
    SumEmpty(s1.before);
    forall u: nat | u < |s.writers|
      ensures WriterOk(s1, u)
    {
      assert WriterOk(s, u);
    }
  }

  /** The conditions on writers survive a step that makes nobody late and frees nothing a late one holds. */
  lemma WritersFrame(s: State, s1: State)
    requires Shape(s) && Shape(s1) && s1.writers == s.writers
    requires forall w: nat :: w < |s.writers| ==> WriterOk(s, w)
    requires s1.half[s1.activeIx] == s.half[s.activeIx]
      || ((s1.ctl.Switched? || s1.ctl.Restored?) && s1.acked == {} && s.half[s.activeIx] in s1.tables)
    requires s1.activeIx == s.activeIx || ((s1.ctl.Switched? || s1.ctl.Restored?) && s1.acked == {})
    requires s.ctl.Switched? || s.ctl.Restored? ==> forall w: nat :: w < |s.writers| ==> w in s.acked
    ensures forall w: nat :: w < |s.writers| ==> WriterOk(s1, w)
  {
    forall w: nat | w < |s.writers|
      ensures WriterOk(s1, w)
    {
      assert WriterOk(s, w);
    }
  }

  lemma ConsolidateSlotKeeps(s: State, base: Totals)
    requires Inv(s, base) && s.ctl.Consolidating? && s.ctl.i <= s.n
    ensures Inv(DoControl(s), base)
  {
    hide Sum, SumAll, WriterOk;
    var s1 := DoControl(s);
    var i, main, temp := s.ctl.i, s.tables[Real(s)], s.tables[Temp(s)];
    WritersFrame(s, s1);
    SumAllAdd(main, s.n, temp[i]);
    SumAllFirst(temp[i..]);
    assert temp[i..][1..] == temp[i + 1..];
    SumAssoc(SumAll(main), temp[i], SumAll(temp[i + 1..]));
  }

  lemma ConsolidateEndKeeps(s: State, base: Totals)
    requires Inv(s, base) && s.ctl.Consolidating? && s.ctl.i == s.n + 1
    ensures Inv(DoControl(s), base)
  {
    hide Sum, SumAll, WriterOk;
    WritersFrame(s, DoControl(s));
    SumAllEmpty(s.tables[Temp(s)][s.ctl.i..]);
  }

  lemma CollectSlotKeeps(s: State, base: Totals)
    requires Inv(s, base) && s.ctl.Collecting? && s.ctl.i <= s.n
    ensures Inv(DoControl(s), base)
  {
    hide Sum, SumAll, WriterOk;
    WritersFrame(s, DoControl(s));
    SumAllStep(s.tables[Real(s)], s.ctl.i);
  }

  lemma CollectEndKeeps(s: State, base: Totals)
    requires Inv(s, base) && s.ctl.Collecting? && s.ctl.i == s.n + 1
    ensures Inv(DoControl(s), base)
  {
    hide Sum, SumAll, WriterOk;
    WritersFrame(s, DoControl(s));
  }

  lemma BarrierPassedKeeps(s: State, base: Totals)
    requires Inv(s, base) && Enabled(s, Control) && (s.ctl.Prepared? || s.ctl.Switched? || s.ctl.Restored?)
    ensures Inv(DoControl(s), base)
  {
    hide Sum, SumAll, WriterOk;
    WritersFrame(s, DoControl(s));
    SumAllEmpty([]);
    assert s.tables[Real(s)][..0] == [];
    assert s.tables[Temp(s)][0..] == s.tables[Temp(s)];
  }

  lemma ControlKeeps(s: State, base: Totals)
    requires Inv(s, base) && Enabled(s, Control)
    ensures Inv(DoControl(s), base)
  {
    hide Inv, DoControl;
    match s.ctl
    case Collecting(i) =>
      SlotBound(s, base);
      if i <= s.n { CollectSlotKeeps(s, base); } else { CollectEndKeeps(s, base); }
    case Consolidating(i) =>
      SlotBound(s, base);
      if i <= s.n { ConsolidateSlotKeeps(s, base); } else { ConsolidateEndKeeps(s, base); }
    case _ => BarrierPassedKeeps(s, base);
  }

  lemma SlotBound(s: State, base: Totals)
    requires Inv(s, base) && (s.ctl.Collecting? || s.ctl.Consolidating?)
    ensures s.ctl.i <= s.n + 1
  {
  }

  lemma SumAllStep(parts: seq<Totals>, i: nat)
    requires i < |parts|
    ensures SumAll(parts[..i + 1]) == Sum(SumAll(parts[..i]), parts[i])
  {
    assert parts[..i + 1][..i] == parts[..i];
  }

  // ---------------------------------------------------------------- runs

  /** A traced call never goes into tables that have been freed. */
  lemma StepsAreSafe(s: State, base: Totals, step: Step)
    requires Inv(s, base) && Enabled(s, step)
    ensures Safe(s, step)
  {
    hide Sum, SumAll, Conserved, Collected;
    if step.Load? || step.Record? {
      assert WriterOk(s, step.w);
    }
  }

  lemma StepKeeps(s: State, base: Totals, step: Step)
    requires Inv(s, base) && Enabled(s, step)
    ensures Safe(s, step) && Inv(Apply(s, step), base)
  {
    hide Sum, SumAll, Conserved, Collected, WriterOk, DoControl, DoRecord, DoPrepare;
    StepsAreSafe(s, base, step);
    match step
    case Choose(w) => ChooseKeeps(s, base, w);
    case Load(w) => LoadKeeps(s, base, w);
    case Record(w, o, p, st) => RecordKeeps(s, base, w, o, p, st);
    case Leave(w) => LeaveKeeps(s, base, w);
    case Ack(w) => AckKeeps(s, base, w);
    case Prepare => PrepareKeeps(s, base);
    case Control => ControlKeeps(s, base);
  }

  lemma ChooseKeeps(s: State, base: Totals, w: nat)
    requires Inv(s, base) && Enabled(s, Choose(w))
    ensures Inv(Move(s, w, s.writers[w].(chosen := Some(s.activeIx))), base)
  {
    assert WriterOk(s, w);
    MoveKeeps(s, base, w, s.writers[w].(chosen := Some(s.activeIx)));
  }

  lemma LoadKeeps(s: State, base: Totals, w: nat)
    requires Inv(s, base) && Enabled(s, Load(w)) && Safe(s, Load(w))
    ensures Inv(Move(s, w, Loaded(s, w)), base)
  {
    assert WriterOk(s, w);
    MoveKeeps(s, base, w, Loaded(s, w));
  }

  lemma LeaveKeeps(s: State, base: Totals, w: nat)
    requires Inv(s, base) && Enabled(s, Leave(w))
    ensures Inv(Move(s, w, OUTSIDE), base)
  {
    MoveKeeps(s, base, w, OUTSIDE);
  }

  lemma AckKeeps(s: State, base: Totals, w: nat)
    requires Inv(s, base) && Enabled(s, Ack(w))
    ensures Inv(s.(acked := s.acked + {w}), base)
  {
    hide Sum, SumAll;
    var s1 := s.(acked := s.acked + {w});
    forall u: nat | u < |s.writers|
      ensures WriterOk(s1, u)
    {
      assert WriterOk(s, u);
    }
  }

  ghost predicate FollowsAt(run: seq<State>, i: int)
    requires 0 <= i < |run| - 1
  {
    Shape(run[i]) && exists step :: Enabled(run[i], step) && Safe(run[i], step) && run[i + 1] == Apply(run[i], step)
  }

  /** Any number of snapshots, interleaved with any number of traced calls on any scheduler. */
  ghost predicate IsRun(run: seq<State>, n: nat, writers: nat, tables: seq<Totals>) {
    && |tables| == n + 1 && |run| > 0 && run[0] == Init(n, writers, tables)
    && forall i :: 0 <= i < |run| - 1 ==> FollowsAt(run, i)
  }

  lemma {:induction false} RunsKeepInv(run: seq<State>, n: nat, writers: nat, tables: seq<Totals>, k: nat)
    requires IsRun(run, n, writers, tables) && k < |run|
    ensures Inv(run[k], SumAll(tables))
  {
    hide Inv, SumAll, Sum, Apply;
    if k == 0 {
      InitEstablishes(n, writers, tables);
    } else {
      RunsKeepInv(run, n, writers, tables, k - 1);
      assert FollowsAt(run, k - 1);
      var step :| Enabled(run[k - 1], step) && Safe(run[k - 1], step) && run[k] == Apply(run[k - 1], step);
      StepKeeps(run[k - 1], SumAll(tables), step);
    }
  }

  /** Between snapshots the tables hold what they held at the beginning and everything recorded since. */
  lemma TablesHoldRecorded(run: seq<State>, n: nat, writers: nat, tables: seq<Totals>, k: nat)
    requires IsRun(run, n, writers, tables) && k < |run| && run[k].ctl.Quiet?
    ensures Shape(run[k])
    ensures SumAll(run[k].tables[Real(run[k])]) == Sum(SumAll(tables), run[k].recorded)
  {
    hide Sum, SumAll;
    RunsKeepInv(run, n, writers, tables, k);
    SumEmpty(SumAll(run[k].tables[Real(run[k])]));
  }

  /**
   When collecting is done, the result holds everything recorded before the snapshot was asked for
   and some of what came later; all the rest is in the temporary tables.
   */
  lemma SnapshotIsExact(run: seq<State>, n: nat, writers: nat, tables: seq<Totals>, k: nat)
    requires IsRun(run, n, writers, tables) && k < |run| && run[k].ctl == Collecting(run[k].n + 1)
    ensures Shape(run[k]) && run[k].result == Sum(run[k].before, run[k].landed)
    ensures Sum(run[k].result, SumAll(run[k].tables[Temp(run[k])])) == Sum(SumAll(tables), run[k].recorded)
  {
    hide Sum, SumAll;
    RunsKeepInv(run, n, writers, tables, k);
    var s := run[k];
    assert s.tables[Real(s)][..s.n + 1] == s.tables[Real(s)];
  }

  // ---------------------------------------------------------------- in plain numbers

  ghost predicate TakenAt(run: seq<State>, steps: seq<Step>, i: int)
    requires 0 <= i < |run| - 1 == |steps|
  {
    Shape(run[i]) && Enabled(run[i], steps[i]) && Safe(run[i], steps[i]) && run[i + 1] == Apply(run[i], steps[i])
  }

  /** A run together with the steps that were taken. */
  ghost predicate IsRunBy(run: seq<State>, steps: seq<Step>, n: nat, writers: nat, tables: seq<Totals>) {
    && |tables| == n + 1 && |run| == |steps| + 1 && run[0] == Init(n, writers, tables)
    && forall i :: 0 <= i < |run| - 1 ==> TakenAt(run, steps, i)
  }

  lemma RunOf(run: seq<State>, steps: seq<Step>, n: nat, writers: nat, tables: seq<Totals>)
    requires IsRunBy(run, steps, n, writers, tables)
    ensures IsRun(run, n, writers, tables)
  {
    hide Shape, Enabled, Safe, Apply;
    forall i | 0 <= i < |run| - 1
      ensures FollowsAt(run, i)
    {
      assert TakenAt(run, steps, i);
    }
  }

  /** What was recorded, call by call. */
  function Recorded(steps: seq<Step>): seq<(Pid, Stat)> {
    if steps == [] then []
    else
      var last := steps[|steps| - 1];
      Recorded(steps[..|steps| - 1]) + if last.Record? then [(last.pid, last.stat)] else []
  }

  lemma RecordedStep(s: State, step: Step)
    requires Shape(s) && Enabled(s, step) && Safe(s, step)
    ensures Apply(s, step).recorded == if step.Record? then Accumulated(s.recorded, step.pid, step.stat) else s.recorded
  {
    hide Sum, SumAll, Accumulated, DoControl, Slot, Real, Temp;
    if step.Control? {
      ControlRecords(s);
    }
  }

  lemma ControlRecords(s: State)
    requires Shape(s)
    ensures DoControl(s).recorded == s.recorded
  {
    hide Sum, SumAll;
  }

  lemma {:induction false} RecordedSoFar(run: seq<State>, steps: seq<Step>, n: nat, writers: nat, tables: seq<Totals>,
                                         k: nat)
    requires IsRunBy(run, steps, n, writers, tables) && k < |run|
    ensures run[k].recorded == AccumulatedAll(map[], Recorded(steps[..k]))
  {
    hide Apply, Enabled, Safe, Shape, Accumulated;
    if k > 0 {
      RecordedSoFar(run, steps, n, writers, tables, k - 1);
      assert TakenAt(run, steps, k - 1);
      RecordedStep(run[k - 1], steps[k - 1]);
      var done := steps[..k - 1];
      assert steps[..k][..k - 1] == done && steps[..k][k - 1] == steps[k - 1];
      if steps[k - 1].Record? {
        AccumulatedSnoc(map[], Recorded(done), (steps[k - 1].pid, steps[k - 1].stat));
      } else {
        assert Recorded(done) + [] == Recorded(done);
      }
    }
  }

  /**
   No call is lost and none is counted twice: between snapshots, the calls and the time or memory of
   each process in the tables of all threads are what they were at the beginning plus the sums over
   all calls recorded in the run, at whatever point and on whatever scheduler.
   */
  lemma NothingLostOrCountedTwice(run: seq<State>, steps: seq<Step>, n: nat, writers: nat, tables: seq<Totals>,
                                  k: nat, p: Pid)
    requires IsRunBy(run, steps, n, writers, tables) && k < |run| && run[k].ctl.Quiet?
    ensures Shape(run[k])
    ensures
      var now, calls := run[k].tables[Real(run[k])], Recorded(steps[..k]);
      && CountAll(now, p) == CountAll(tables, p) + CountOf(calls, p)
      && AccAll(now, p) == AccAll(tables, p) + AccOf(calls, p)
  {
    hide Sum, SumAll, CountIn, AccIn;
    RunOf(run, steps, n, writers, tables);
    TablesHoldRecorded(run, n, writers, tables, k);
    RecordedSoFar(run, steps, n, writers, tables, k);
    TotalsAreSums(Recorded(steps[..k]), p);
    SumAdds(SumAll(tables), run[k].recorded, p);
    SumAllAdds(tables, p);
    SumAllAdds(run[k].tables[Real(run[k])], p);
  }

  /** A snapshot has been asked for and not been completed. */
  predicate Gathering(s: State) {
    s.ctl.Prepared? || s.ctl.Switched? || s.ctl.Collecting?
  }

  /** What was recorded in the real tables between step `j` and state `k`. */
  ghost function Landed(run: seq<State>, steps: seq<Step>, j: nat, k: nat): seq<(Pid, Stat)>
    requires k < |run| == |steps| + 1
  {
    if k <= j then []
    else
      var s, last := run[k - 1], steps[k - 1];
      Landed(run, steps, j, k - 1)
      + if Shape(s) && last.Record? && last.obj == Real(s) then [(last.pid, last.stat)] else []
  }

  lemma GatheringStep(s: State, step: Step)
    requires Shape(s) && Enabled(s, step) && Safe(s, step) && Gathering(Apply(s, step))
    ensures step.Prepare? ==> Apply(s, step).before == SumAll(s.tables[Real(s)]) && Apply(s, step).landed == map[]
    ensures !step.Prepare? ==>
      && Gathering(s) && Apply(s, step).before == s.before
      && Apply(s, step).landed ==
           if step.Record? && step.obj == Real(s) then Accumulated(s.landed, step.pid, step.stat) else s.landed
  {
    hide Sum, SumAll, Accumulated;
  }

  /** When the snapshot was asked for, and what was recorded in the real tables since. */
  lemma {:induction false} AskedAt(run: seq<State>, steps: seq<Step>, n: nat, writers: nat, tables: seq<Totals>, k: nat)
    returns (j: nat)
    requires IsRunBy(run, steps, n, writers, tables) && k < |run| && Gathering(run[k])
    ensures j < k && steps[j] == Prepare && run[j].ctl.Quiet? && Shape(run[j])
    ensures forall i :: j < i < k ==> steps[i] != Prepare
    ensures run[k].before == SumAll(run[j].tables[Real(run[j])])
    ensures run[k].landed == AccumulatedAll(map[], Landed(run, steps, j + 1, k))
  {
    hide Apply, Safe, Accumulated, SumAll;
    assert TakenAt(run, steps, k - 1);
    var s, step := run[k - 1], steps[k - 1];
    GatheringStep(s, step);
    if step.Prepare? {
      j := k - 1;
    } else {
      j := AskedAt(run, steps, n, writers, tables, k - 1);
      var items := Landed(run, steps, j + 1, k - 1);
      if step.Record? && step.obj == Real(s) {
        AccumulatedSnoc(map[], items, (step.pid, step.stat));
      } else {
        assert items + [] == items;
      }
    }
  }

  /**
   A snapshot has, for each process, everything recorded before it was asked for at step `j`, and what
   came later in the real tables; with what is in the temporary tables, that is everything recorded.
   */
  lemma SnapshotIsExactForEach(run: seq<State>, steps: seq<Step>, n: nat, writers: nat, tables: seq<Totals>, k: nat,
                               p: Pid) returns (j: nat)
    requires IsRunBy(run, steps, n, writers, tables) && k < |run| && run[k].ctl == Collecting(run[k].n + 1)
    ensures Shape(run[k]) && j < k && steps[j] == Prepare && forall i :: j < i < k ==> steps[i] != Prepare
    ensures
      var before, late := Recorded(steps[..j]), Landed(run, steps, j + 1, k);
      && CountIn(run[k].result, p) == CountAll(tables, p) + CountOf(before, p) + CountOf(late, p)
      && AccIn(run[k].result, p) == AccAll(tables, p) + AccOf(before, p) + AccOf(late, p)
    ensures
      var aside, calls := run[k].tables[Temp(run[k])], Recorded(steps[..k]);
      && CountIn(run[k].result, p) + CountAll(aside, p) == CountAll(tables, p) + CountOf(calls, p)
      && AccIn(run[k].result, p) + AccAll(aside, p) == AccAll(tables, p) + AccOf(calls, p)
  {
    hide Sum, SumAll, CountIn, AccIn, AccumulatedAll, CountAll, AccAll, CountOf, AccOf, Apply;
    j := AskedAt(run, steps, n, writers, tables, k);
    NothingLostOrCountedTwice(run, steps, n, writers, tables, j, p);
    RunOf(run, steps, n, writers, tables);
    SnapshotIsExact(run, n, writers, tables, k);
    SnapshotParts(run[k], run[j], p);
    TotalsAreSums(Landed(run, steps, j + 1, k), p);
    SnapshotRest(run, steps, n, writers, tables, k, p);
  }

  lemma SnapshotParts(s: State, asked: State, p: Pid)
    requires s.result == Sum(s.before, s.landed) && Shape(asked) && s.before == SumAll(asked.tables[Real(asked)])
    ensures CountIn(s.result, p) == CountAll(asked.tables[Real(asked)], p) + CountIn(s.landed, p)
    ensures AccIn(s.result, p) == AccAll(asked.tables[Real(asked)], p) + AccIn(s.landed, p)
  {
    hide Sum, SumAll;
    SumAdds(s.before, s.landed, p);
    SumAllAdds(asked.tables[Real(asked)], p);
  }

  lemma SnapshotRest(run: seq<State>, steps: seq<Step>, n: nat, writers: nat, tables: seq<Totals>, k: nat, p: Pid)
    requires IsRunBy(run, steps, n, writers, tables) && k < |run| && run[k].ctl == Collecting(run[k].n + 1)
    ensures Shape(run[k])
    ensures
      var aside, calls := run[k].tables[Temp(run[k])], Recorded(steps[..k]);
      && CountIn(run[k].result, p) + CountAll(aside, p) == CountAll(tables, p) + CountOf(calls, p)
      && AccIn(run[k].result, p) + AccAll(aside, p) == AccAll(tables, p) + AccOf(calls, p)
  {
    hide Sum, SumAll, CountIn, AccIn;
    RunOf(run, steps, n, writers, tables);
    SnapshotIsExact(run, n, writers, tables, k);
    RecordedSoFar(run, steps, n, writers, tables, k);
    TotalsAreSums(Recorded(steps[..k]), p);
    SumAdds(SumAll(tables), run[k].recorded, p);
    SumAdds(run[k].result, SumAll(run[k].tables[Temp(run[k])]), p);
    SumAllAdds(tables, p);
    SumAllAdds(run[k].tables[Temp(run[k])], p);
  }
}
