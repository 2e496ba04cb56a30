/**
 Call-time accounting for one process in one trace session: at every call, return and scheduling
 event the time since the last one is booked on the traced function that was current.
 */
module CallTime {
  import opened Wrappers

  /** A traced function, as an index into the tables. */
  type Func = nat

  /** What a function's tables hold for the process, summed over all threads. */
  datatype Item = Item(count: nat, time: nat)

  /** `process_breakpoint_trace_t`: the current traced function, if any, and the last time stamp. */
  datatype Pbt = Pbt(ci: Option<Func>, accumulator: nat)

  /** `bp_hash_accum` on the tables of function `f`. */
  function Accumulated(t: seq<Item>, f: Func, count: nat, time: nat): seq<Item>
    requires f < |t|
  {
    t[f := Item(t[f].count + count, t[f].time + time)]
  }

  /** The time booked on all functions together. */
  function TotalTime(t: seq<Item>): nat {
    if t == [] then 0 else TotalTime(t[..|t| - 1]) + t[|t| - 1].time
  }

  lemma {:induction false} TotalAccumulated(t: seq<Item>, f: Func, count: nat, time: nat)
    requires f < |t|
    ensures TotalTime(Accumulated(t, f, count, time)) == TotalTime(t) + time
  {
    var n, t1 := |t| - 1, Accumulated(t, f, count, time);
    if f < n {
      TotalAccumulated(t[..n], f, count, time);
      assert t1[..n] == Accumulated(t[..n], f, count, time);
    } else {
      assert t1[..n] == t[..n];
    }
  }

  /** The traced function that is current: the top of the stack of traced calls. */
  function Top(stack: seq<Func>): Option<Func> {
    if stack == [] then None else Some(stack[|stack| - 1])
  }

  /** The `prev_info` that the return frame of call `i` has to hold. */
  function Below(stack: seq<Func>, i: nat): Option<Func>
    requires i < |stack|
  {
    if i == 0 then None else Some(stack[i - 1])
  }

  /** The return frames on the process's stack restore, one after the other, the functions of the call stack. */
  ghost predicate Frames(frames: seq<Option<Func>>, stack: seq<Func>) {
    |frames| == |stack| && forall i: nat {:trigger Below(stack, i)} :: i < |stack| ==> frames[i] == Below(stack, i)
  }

  lemma FramesSame(frames: seq<Option<Func>>, stack: seq<Func>)
    requires Frames(frames, stack)
    ensures |frames| == |stack|
  {
  }

  lemma FramesPush(frames: seq<Option<Func>>, stack: seq<Func>, f: Func)
    requires Frames(frames, stack)
    ensures Frames(frames + [Top(stack)], stack + [f])
  {
    forall i: nat | i < |stack| + 1
      ensures (frames + [Top(stack)])[i] == Below(stack + [f], i)
    {
      if i < |stack| {
        assert frames[i] == Below(stack, i);
      }
    }
  }

  /** A call from the last position: the frame that is already there serves the new function. */
  lemma FramesReplace(frames: seq<Option<Func>>, stack: seq<Func>, f: Func)
    requires Frames(frames, stack) && stack != []
    ensures Frames(frames, stack[..|stack| - 1] + [f])
  {
    var stack1 := stack[..|stack| - 1] + [f];
    forall i: nat | i < |stack1|
      ensures frames[i] == Below(stack1, i)
    {
      assert frames[i] == Below(stack, i);
    }
  }

  lemma FramesPop(frames: seq<Option<Func>>, stack: seq<Func>)
    requires Frames(frames, stack) && stack != []
    ensures
      var n := |stack| - 1;
      Frames(frames[..n], stack[..n]) && frames[n] == Top(stack[..n])
  {
    var n := |stack| - 1;
    assert frames[n] == Below(stack, n);
    forall i: nat | i < n
      ensures frames[..n][i] == Below(stack[..n], i)
    {
      assert frames[i] == Below(stack, i);
    }
  }

  /** What has been spent after some more time with a current function. */
  ghost function Spent(spent: seq<Item>, current: Option<Func>, time: nat): seq<Item> {
    if current.Some? && current.value < |spent| then Accumulated(spent, current.value, 0, time) else spent
  }

  class ProcessTime {
    var table: seq<Item>
    var pbt: Option<Pbt>
    var frames: seq<Option<Func>>   // `prev_info` of the return frames on the stack
    var running: bool

    // What really happened.
    ghost var now: nat              // when the last event was
    ghost var stack: seq<Func>      // the traced functions that have been called and not returned
    ghost var spent: seq<Item>      // per function, its calls and the time while it was current and the process ran
    ghost var covered: nat          // the time while some traced function was current and the process ran

    /** The time since the last time stamp, if it belongs to function `f`. */
    ghost function Unbooked(f: Func): nat
      reads this
    {
      if running && pbt.Some? && pbt.value.ci == Some(f) && pbt.value.accumulator <= now
      then now - pbt.value.accumulator
      else 0
    }

    ghost predicate StackOk()
      reads this
    {
      && (forall i :: 0 <= i < |stack| ==> stack[i] < |table|)
      && Frames(frames, stack)
      && (if pbt.None? then stack == [] else pbt.value.ci == Top(stack) && pbt.value.accumulator <= now)
    }

    ghost predicate BooksOk()
      reads this
    {
      && |spent| == |table|
      && (forall f :: 0 <= f < |table| ==> spent[f] == Item(table[f].count, table[f].time + Unbooked(f)))
      && covered == TotalTime(table) + if stack == [] then 0 else Unbooked(stack[|stack| - 1])
    }

    ghost predicate Valid()
      reads this
    {
      StackOk() && BooksOk()
    }

    constructor (n: nat, t: nat)
      ensures Valid() && Stamped() && |table| == n && stack == [] && covered == 0 && now == t && running
      ensures forall f :: 0 <= f < n ==> table[f] == Item(0, 0)
    {
      table, spent := seq(n, _ => Item(0, 0)), seq(n, _ => Item(0, 0));
      pbt, frames, running := None, [], true;
      now, stack, covered := t, [], 0;
      new;
      NoTime(table);
    }

    /** Who the running process's time belongs to. */
    ghost function Current(): Option<Func>
      reads this
    {
      if running then Top(stack) else None
    }

    /** Time passes. */
    ghost method Elapse(t: nat)
      requires Valid() && now <= t
      modifies this`now, this`spent, this`covered
      ensures Valid() && now == t
      ensures spent == Spent(old(spent), Current(), t - old(now))
      ensures covered == old(covered) + if Current().None? then 0 else t - old(now)
    {
      spent := Spent(spent, Current(), t - now);
      covered := covered + if Current().None? then 0 else t - now;
      now := t;
    }

    lemma SameLength()
      requires Valid()
      ensures |frames| == |stack|
    {
    }

    lemma CurrentInTable()
      requires Valid()
      ensures Current().Some? ==> Current().value < |table| == |spent|
    {
    }

    /** Nothing waits to be booked. */
    ghost predicate Stamped()
      reads this
    {
      !running || pbt.None? || pbt.value.ci.None? || pbt.value.accumulator == now
    }

    /** Then the books say what was really spent. */
    lemma Settled()
      requires StackOk() && Stamped()
      ensures BooksOk() <==> spent == table && covered == TotalTime(table)
    {
      assert forall f :: Unbooked(f) == 0;
      if BooksOk() {
        assert forall f :: 0 <= f < |table| ==> spent[f] == table[f];
      }
    }

    /** What is left to book is the time since the last time stamp. */
    lemma Owed()
      requires Valid() && running && pbt.Some? && pbt.value.ci.Some?
      ensures
        var f, time := pbt.value.ci.value, now - pbt.value.accumulator;
        spent == Accumulated(table, f, 0, time) && covered == TotalTime(Accumulated(table, f, 0, time))
    {
      TotalAccumulated(table, pbt.value.ci.value, 0, now - pbt.value.accumulator);
    }

    /** The counts are never behind; the times are, by what is not booked yet. */
    lemma Booked()
      requires Valid()
      ensures |spent| == |table| && forall g :: 0 <= g < |table| ==> spent[g].count == table[g].count
      ensures Stamped() ==> spent == table
    {
      if Stamped() {
        Settled();
      }
    }

    /** Book the time since the last time stamp on the current function. */
    method Book(t: nat)
      requires Valid() && running && pbt.Some? && pbt.value.ci.Some? && now == t
      modifies this`table, this`pbt
      ensures Valid() && Stamped() && |table| == old(|table|) && pbt == Some(Pbt(old(pbt.value.ci), t))
    {
      hide BooksOk, Frames;
      Owed();
      table := Accumulated(table, pbt.value.ci.value, 0, t - pbt.value.accumulator);
      pbt := Some(pbt.value.(accumulator := t));
      Settled();
    }

    /**
     `erts_trace_call_acc`: a call of traced function `f`. If a return frame is already on top of
     the stack (`tail`), none is pushed.
     */
    method Call(f: Func, tail: bool, t: nat)
      requires Valid() && running && f < |table| && now <= t && (tail ==> frames != [])
      modifies this
      ensures Valid() && running && now == t && |table| == old(|table|)
      ensures stack == (if tail then old(stack[..|stack| - 1]) else old(stack)) + [f]
      ensures spent == Accumulated(Spent(old(spent), old(Current()), t - old(now)), f, 1, 0)
      ensures covered == old(covered) + if old(stack) == [] then 0 else t - old(now)
      ensures forall g :: 0 <= g < |table| ==> table[g].count == old(table)[g].count + if g == f then 1 else 0
      ensures Stamped() && forall g :: 0 <= g < |table| ==>
        table[g].time == old(spent)[g].time + if old(Current()) == Some(g) then t - old(now) else 0
    {
      hide BooksOk, Frames;
      Booked();
      CurrentInTable();
      Elapse(t);
      if pbt.None? {
        Begin();
      } else if pbt.value.ci.Some? {
        Book(t);
      }
      Enter(f, tail, t);
      Booked();
    }

    /** The first call of the process to a traced function. */
    method Begin()
      requires Valid() && pbt.None?
      modifies this`pbt
      ensures Valid() && Stamped() && pbt == Some(Pbt(None, 0))
    {
      hide BooksOk, Frames;
      Settled();
      pbt := Some(Pbt(None, 0));
      Settled();
    }

    /** The end of `erts_trace_call_acc`, and the return frame. */
    method Enter(f: Func, tail: bool, t: nat)
      requires Valid() && Stamped() && running && pbt.Some? && f < |table| && now == t && (tail ==> frames != [])
      modifies this`table, this`pbt, this`frames, this`stack, this`spent
      ensures Valid() && Stamped() && |table| == old(|table|)
      ensures stack == (if tail then old(stack[..|stack| - 1]) else old(stack)) + [f]
      ensures spent == Accumulated(old(spent), f, 1, 0)
    {
      hide BooksOk, Frames;
      Settled();
      TotalAccumulated(table, f, 1, 0);
      table := Accumulated(table, f, 1, 0);
      var prev := pbt.value.ci;
      pbt := Some(Pbt(Some(f), t));
      spent := Accumulated(spent, f, 1, 0);
      FramesSame(frames, stack);
      if tail {
        FramesReplace(frames, stack, f);
        stack := stack[..|stack| - 1] + [f];
      } else {
        FramesPush(frames, stack, f);
        frames := frames + [prev];
        stack := stack + [f];
      }
      Settled();
    }

    /** `erts_call_trace_return`: the function on top returns. */
    method Return(t: nat)
      requires Valid() && running && now <= t && frames != []
      modifies this
      ensures Valid() && running && now == t && |table| == old(|table|)
      ensures stack == old(stack[..|stack| - 1])
      ensures spent == Spent(old(spent), old(Current()), t - old(now))
      ensures covered == old(covered) + t - old(now)
      ensures forall g :: 0 <= g < |table| ==> table[g].count == old(table)[g].count
      ensures Stamped() && forall g :: 0 <= g < |table| ==>
        table[g].time == old(spent)[g].time + if old(Current()) == Some(g) then t - old(now) else 0
    {
      hide BooksOk, Frames, Stamped;
      Booked();
      CurrentInTable();
      FramesSame(frames, stack);
      Elapse(t);
      Book(t);
      Leave(t);
      Booked();
    }

    /** Take the previous function from the return frame. */
    method Leave(t: nat)
      requires Valid() && Stamped() && running && pbt.Some? && now == t && frames != []
      modifies this`pbt, this`frames, this`stack
      ensures Valid() && Stamped() && stack == old(stack[..|stack| - 1])
    {
      hide BooksOk, Frames;
      Settled();
      FramesSame(frames, stack);
      FramesPop(frames, stack);
      var n := |frames| - 1;
      pbt := Some(Pbt(frames[n], t));
      frames, stack := frames[..n], stack[..n];
      Settled();
    }

    /** `erts_schedule_time_break` when the process is scheduled out. */
    method ScheduleOut(t: nat)
      requires Valid() && running && now <= t
      modifies this
      ensures Valid() && !running && now == t && |table| == old(|table|) && stack == old(stack)
      ensures spent == Spent(old(spent), old(Current()), t - old(now)) && spent == table
      ensures covered == old(covered) + (if stack == [] then 0 else t - old(now)) && covered == TotalTime(table)
      ensures forall g :: 0 <= g < |table| ==> table[g].count == old(table)[g].count
      ensures Stamped() && forall g :: 0 <= g < |table| ==>
        table[g].time == old(spent)[g].time + if old(Current()) == Some(g) then t - old(now) else 0
    {
      Booked();
      CurrentInTable();
      Elapse(t);
      AddLast(t);
      Settled();
    }

    /** The time stamp itself is left as it is. */
    method AddLast(t: nat)
      requires Valid() && running && now == t
      modifies this`table, this`running
      ensures Valid() && !running && |table| == old(|table|)
    {
      hide BooksOk, Frames;
      if pbt.Some? && pbt.value.ci.Some? {
        Owed();
        table := Accumulated(table, pbt.value.ci.value, 0, t - pbt.value.accumulator);
      } else {
        Settled();
      }
      running := false;
      Settled();
    }

    /** `erts_schedule_time_break` when the process is scheduled in. */
    method ScheduleIn(t: nat)
      requires Valid() && !running && now <= t
      modifies this
      ensures Valid() && running && now == t && table == old(table) && stack == old(stack)
      ensures spent == old(spent) && covered == old(covered)
      ensures Stamped()
    {
      Elapse(t);
      if pbt.Some? {
        pbt := Some(pbt.value.(accumulator := t));
      }
      running := true;
    }
  }

  // ---------------------------------------------------------------- lists of events

  datatype Event =
    | Called(f: Func, tail: bool, t: nat)
    | Returned(t: nat)
    | Out(t: nat)
    | In(t: nat)

  /** The traced calls that have not returned. */
  function StackAfter(events: seq<Event>): seq<Func> {
    if events == [] then []
    else
      var stack := StackAfter(events[..|events| - 1]);
      var below := if stack == [] then [] else stack[..|stack| - 1];
      match events[|events| - 1]
      case Called(f, tail, _) => (if tail then below else stack) + [f]
      case Returned(_) => below
      case _ => stack
  }

  predicate RunsAfter(events: seq<Event>) {
    if events == [] then true
    else
      match events[|events| - 1]
      case Out(_) => false
      case In(_) => true
      case _ => RunsAfter(events[..|events| - 1])
  }

  function ClockAfter(start: nat, events: seq<Event>): nat {
    if events == [] then start else events[|events| - 1].t
  }

  /** How often function `f` is called. */
  function CallsOf(events: seq<Event>, f: Func): nat {
    if events == [] then 0
    else
      var last := events[|events| - 1];
      CallsOf(events[..|events| - 1], f) + if last.Called? && last.f == f then 1 else 0
  }

  /** How long the process runs with `f` on top of the traced calls: the stretches between events, added up. */
  function TimeOf(start: nat, events: seq<Event>, f: Func): int {
    if events == [] then 0
    else
      var rest := events[..|events| - 1];
      TimeOf(start, rest, f)
      + if RunsAfter(rest) && Top(StackAfter(rest)) == Some(f)
        then events[|events| - 1].t - ClockAfter(start, rest)
        else 0
  }

  /** Events as they can follow each other, with `n` traced functions. */
  predicate Legal(n: nat, start: nat, events: seq<Event>) {
    events != [] ==>
      var rest, last := events[..|events| - 1], events[|events| - 1];
      && Legal(n, start, rest) && ClockAfter(start, rest) <= last.t
      && match last
         case Called(f, tail, _) => RunsAfter(rest) && f < n && (tail ==> StackAfter(rest) != [])
         case Returned(_) => RunsAfter(rest) && StackAfter(rest) != []
         case Out(_) => RunsAfter(rest)
         case In(_) => !RunsAfter(rest)
  }

  lemma {:induction false} LegalPrefix(n: nat, start: nat, events: seq<Event>, i: nat)
    requires Legal(n, start, events) && i <= |events|
    ensures Legal(n, start, events[..i])
  {
    if i < |events| {
      LegalPrefix(n, start, events[..|events| - 1], i);
      assert events[..|events| - 1][..i] == events[..i];
    } else {
      assert events[..i] == events;
    }
  }

  /** The process is where the events have brought it, and the tables say how often and how long. */
  ghost predicate Follows(p: ProcessTime, n: nat, start: nat, events: seq<Event>)
    reads p
  {
    && p.Valid() && p.Stamped() && |p.table| == n
    && p.stack == StackAfter(events) && p.running == RunsAfter(events) && p.now == ClockAfter(start, events)
    && forall f :: 0 <= f < n ==> p.table[f].count == CallsOf(events, f) && p.table[f].time == TimeOf(start, events, f)
  }

  lemma OneMoreEvent(n: nat, start: nat, before: seq<Event>, e: Event)
    ensures
      var events, stack := before + [e], StackAfter(before);
      var below := if stack == [] then [] else stack[..|stack| - 1];
      && StackAfter(events) == (if e.Called? then (if e.tail then below else stack) + [e.f]
                                else if e.Returned? then below else stack)
      && RunsAfter(events) == (if e.Out? then false else if e.In? then true else RunsAfter(before))
      && ClockAfter(start, events) == e.t
      && (forall f: Func :: CallsOf(events, f) == CallsOf(before, f) + if e.Called? && e.f == f then 1 else 0)
      && (forall f: Func :: TimeOf(start, events, f) == TimeOf(start, before, f)
            + if RunsAfter(before) && Top(stack) == Some(f) then e.t - ClockAfter(start, before) else 0)
      && (Legal(n, start, events) ==>
            && ClockAfter(start, before) <= e.t && RunsAfter(before) == !e.In?
            && (e.Called? ==> e.f < n && (e.tail ==> stack != []))
            && (e.Returned? ==> stack != []))
  {
    var events := before + [e];
    assert events[..|events| - 1] == before && events[|events| - 1] == e;
  }

  /** One event. */
  method Handle(p: ProcessTime, n: nat, ghost start: nat, ghost before: seq<Event>, e: Event)
    requires Follows(p, n, start, before) && Legal(n, start, before + [e])
    modifies p
    ensures Follows(p, n, start, before + [e])
  {
    hide StackAfter, RunsAfter, CallsOf, TimeOf, ProcessTime.StackOk, ProcessTime.BooksOk, ProcessTime.Stamped;
    OneMoreEvent(n, start, before, e);
    p.Booked();
    p.SameLength();
    match e
    case Called(f, tail, t) => p.Call(f, tail, t);
    case Returned(t) => p.Return(t);
    case Out(t) => p.ScheduleOut(t);
    case In(t) => p.ScheduleIn(t);
  }

  /**
   For every list of events, the tables hold in the end, for each function, the number of its calls
   in the list and the time the process ran with it on top.
   */
  method Replay(n: nat, start: nat, events: seq<Event>) returns (p: ProcessTime)
    requires Legal(n, start, events)
    ensures fresh(p) && p.Valid() && |p.table| == n
    ensures forall f :: 0 <= f < n ==> p.table[f].count == CallsOf(events, f)
    ensures forall f :: 0 <= f < n ==> p.table[f].time == TimeOf(start, events, f)
  {
    p := new ProcessTime(n, start);
    for i := 0 to |events|
      invariant fresh(p) && Follows(p, n, start, events[..i])
    {
      LegalPrefix(n, start, events, i + 1);
      assert events[..i + 1] == events[..i] + [events[i]];
      Handle(p, n, start, events[..i], events[i]);
    }
    assert events[..|events|] == events;
  }

  lemma {:induction false} NoTime(t: seq<Item>)
    requires forall f :: 0 <= f < |t| ==> t[f] == Item(0, 0)
    ensures TotalTime(t) == 0
  {
    if t != [] {
      NoTime(t[..|t| - 1]);
    }
  }
}
