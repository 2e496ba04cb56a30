/**
 Release of literal areas: the epoch scheme by which the literal-area collector
 finds out that no terminating process can still look into an area.

 The model is a step system. Every atomic access to a shared word is one step, and
 the schedulers' steps interleave with the collector's in any order. Each scheduler
 has its own, possibly stale, view of `block_ix` and of the published area; only
 thread progress is guaranteed to refresh them.
 */
module LiteralRelease {
  import opened Wrappers

  type Area = nat

  datatype BlockState = NotBlocked | SwitchedIx | Waiting

  /** Where the literal-area collector stands. */
  datatype Pc =
    | Idle                                         // in its Erlang message loop
    | Parked                                       // trapped, waiting for a wake-up message
    | Top                                          // head of the `while (1)` loop
    | Popped(prev: Option<Area>, ref: Option<Area>) // queue popped, new area not yet published
    | Published(prev: Option<Area>)                // new area published, index not yet switched
    | Schedule(found: bool)                        // about to schedule thread progress
    | Suspended(missing: set<nat>, found: bool)    // schedulers that have not made progress yet
    | Check(six: nat)                              // about to read a counter of the old index
    | Decrement(six: nat)                          // that read gave more than one
    | Restore(six: nat)                            // brought it to zero, own increment missing
    | WaitSetup(six: nat)                          // did not bring it to zero
    | WaitPopped(ref: Option<Area>)                // waiting, and popped the queue once more

  /** An outstanding block: what its word encodes, and the number of index switches made before it. */
  datatype Block = Block(ix: nat, sched: nat, taken: nat)

  datatype State = State(
    n: nat,                        // erts_no_schedulers
    counter: seq<seq<int>>,        // counter[block_ix][sched_ix]
    blockIx: nat,
    seenIx: seq<nat>,              // each scheduler's view of blockIx
    midBlock: seq<Option<nat>>,    // index read by a block that has not incremented yet
    copyArea: Option<Area>,
    seenArea: seq<Option<Area>>,   // each scheduler's view of copyArea
    queue: seq<Area>,
    blockState: BlockState,
    blockArea: Option<Area>,
    waitSchedIx: nat,
    pc: Pc,
    mail: nat,                     // wake-up messages sent and not yet received
    // What has happened so far:
    blocks: map<nat, Block>,       // outstanding blocks
    nextId: nat,
    switches: nat,
    enqueued: seq<Area>,
    released: seq<Area>
  )

  datatype Step =
    | ReadIx(sched: nat)           // first half of a block
    | Increment(sched: nat)        // second half of a block
    | Unblock(id: nat)
    | Refresh(sched: nat)          // a stale view catches up by itself
    | Progress(sched: nat)         // the scheduler reports thread progress
    | Enqueue(area: Area)
    | Discard                      // the message loop drops a wake-up message
    | Call                         // the collector calls the BIF, or is resumed in it
    | Collect                      // one atomic step of the BIF

  // ---------------------------------------------------------------- block words

  /** The word a block returns: never zero, index in bits 16-19, scheduler below. */
  function Encode(ix: nat, sched: nat): nat {
    0xfed00000 + ix * 0x10000 + sched
  }

  /** The word by which the holder of a block refers to it. */
  function Word(b: Block): nat {
    Encode(b.ix, b.sched)
  }

  function DecodeIx(word: nat): nat {
    (word / 0x10000) % 0x10
  }

  function DecodeSched(word: nat): nat {
    word % 0x10000
  }

  lemma WordRoundTrip(ix: nat, sched: nat)
    requires ix < 2 && sched < 0x10000
    ensures DecodeIx(Encode(ix, sched)) == ix && DecodeSched(Encode(ix, sched)) == sched
    ensures 0 < Encode(ix, sched) < 0x1_0000_0000 && Encode(ix, sched) / 0x10_0000 == 0xfed
  {
    assert Encode(ix, sched) == (0xfed0 + ix) * 0x10000 + sched;
  }

  // ---------------------------------------------------------------- steps

  /** `init_release_literal_areas`: the collector owns one increment everywhere. */
  function Init(n: nat): State {
    State(n, [seq(n, _ => 1), seq(n, _ => 1)], 0, seq(n, _ => 0), seq(n, _ => None), None,
          seq(n, _ => None), [], NotBlocked, None, 0, Idle, 0, map[], 0, 0, [], [])
  }

  predicate Shape(s: State) {
    && s.n <= 0x10000
    && |s.counter| == 2 && |s.counter[0]| == s.n && |s.counter[1]| == s.n
    && |s.seenIx| == s.n && |s.midBlock| == s.n && |s.seenArea| == s.n
    && s.blockIx < 2
    && (forall t :: 0 <= t < s.n ==> s.seenIx[t] < 2)
    && (forall t :: 0 <= t < s.n && s.midBlock[t].Some? ==> s.midBlock[t].value < 2)
    && (forall id :: id in s.blocks ==>
          id < s.nextId && s.blocks[id].ix < 2 && s.blocks[id].sched < s.n)
    && (s.blockState == Waiting ==> s.waitSchedIx < s.n)
    && (s.pc.Check? ==> s.pc.six <= s.n)
    && (s.pc.Decrement? || s.pc.Restore? || s.pc.WaitSetup? ==> s.pc.six < s.n)
    && (s.pc.Suspended? ==> forall t :: t in s.pc.missing ==> t < s.n)
  }

  predicate Enabled(s: State, step: Step)
    requires Shape(s)
  {
    match step
    case ReadIx(t) => t < s.n && s.midBlock[t].None?
    case Increment(t) => t < s.n && s.midBlock[t].Some?
    case Unblock(id) => id in s.blocks
    case Refresh(t) => t < s.n
    case Progress(t) => t < s.n && s.midBlock[t].None?
    case Enqueue(_) => true
    case Discard => s.pc.Idle? && s.mail > 0
    case Call =>
      || s.pc.Idle?
      || (s.pc.Parked? && s.mail > 0)
      || (s.pc.Suspended? && s.pc.missing == {})
    case Collect => !(s.pc.Idle? || s.pc.Parked? || s.pc.Suspended?)
  }

  function Add(s: State, ix: nat, t: nat, delta: int): State
    requires ix < |s.counter| && t < |s.counter[ix]|
  {
    s.(counter := s.counter[ix := s.counter[ix][t := s.counter[ix][t] + delta]])
  }

  function Schedulers(n: nat): (r: set<nat>)
    ensures forall t: nat :: t in r <==> t < n
  {
    if n == 0 then {} else Schedulers(n - 1) + {n - 1}
  }

  function Old(s: State): int {
    1 - s.blockIx
  }

  /** `rla_switch_area` up to its unlock: take the first queued area, if any. */
  function Pop(s: State): (Option<Area>, seq<Area>) {
    if s.queue == [] then (None, []) else (Some(s.queue[0]), s.queue[1..])
  }

  function DoUnblock(s: State, id: nat): State
    requires Shape(s) && id in s.blocks
  {
    var word := Word(s.blocks[id]);
    WordRoundTrip(s.blocks[id].ix, s.blocks[id].sched);
    var s1 := Add(s, DecodeIx(word), DecodeSched(word), -1).(blocks := s.blocks - {id});
    if s1.counter[DecodeIx(word)][DecodeSched(word)] == 0 then s1.(mail := s.mail + 1) else s1
  }

  function DoIncrement(s: State, t: nat): State
    requires Shape(s) && t < s.n && s.midBlock[t].Some?
  {
    var ix := s.midBlock[t].value;
    Add(s, ix, t, 1).(
      midBlock := s.midBlock[t := None],
      blocks := s.blocks[s.nextId := Block(ix, t, s.switches)],
      nextId := s.nextId + 1)
  }

  function DoProgress(s: State, t: nat): State
    requires Shape(s) && t < s.n
  {
    s.(seenIx := s.seenIx[t := s.blockIx], seenArea := s.seenArea[t := s.copyArea],
       pc := if s.pc.Suspended? then s.pc.(missing := s.pc.missing - {t}) else s.pc)
  }

  function DoCall(s: State): State {
    match s.pc
    case Parked => s.(pc := Top, mail := if s.mail > 0 then s.mail - 1 else 0)
    case Suspended(_, found) => s.(pc := if found then Idle else Top)
    case _ => s.(pc := Top)
  }

  /** One atomic step of `erts_literal_area_collector_release_area_switch_0`. */
  function DoCollect(s: State): State
    requires Shape(s) && Enabled(s, Collect)
  {
    match s.pc
    case Top =>
      (match s.blockState
       case NotBlocked => s.(pc := Popped(s.copyArea, Pop(s).0), queue := Pop(s).1)
       case SwitchedIx => s.(pc := Check(0))
       case Waiting => Add(s, Old(s), s.waitSchedIx, 1).(pc := Check(s.waitSchedIx)))
    case Popped(prev, ref) => s.(copyArea := ref, pc := Published(prev))
    case Published(prev) =>
      if prev.Some? then
        s.(blockIx := Old(s), switches := s.switches + 1, blockState := SwitchedIx,
           blockArea := prev, pc := Schedule(s.copyArea.Some?))
      else if s.copyArea.Some? then s.(pc := Schedule(true))
      else s.(pc := Idle)
    case Schedule(found) => s.(pc := Suspended(Schedulers(s.n), found))
    case Check(six) =>
      if six == s.n then
        s.(blockState := NotBlocked, blockArea := None, pc := Top,
           released := s.released + s.blockArea.ToSeq())
      else if s.counter[Old(s)][six] == 1 then s.(pc := Check(six + 1))
      else s.(pc := Decrement(six))
    case Decrement(six) =>
      var s1 := Add(s, Old(s), six, -1);
      s1.(pc := if s1.counter[Old(s)][six] == 0 then Restore(six) else WaitSetup(six))
    case Restore(six) => Add(s, Old(s), six, 1).(pc := Check(six + 1))
    case WaitSetup(six) =>
      var s1 := s.(waitSchedIx := six, blockState := Waiting);
      if s.copyArea.None? then s1.(pc := WaitPopped(Pop(s).0), queue := Pop(s).1)
      else s1.(pc := Parked)
    case WaitPopped(ref) => s.(copyArea := ref, pc := if ref.Some? then Schedule(true) else Parked)
  }

  function Apply(s: State, step: Step): State
    requires Shape(s) && Enabled(s, step)
  {
    match step
    case ReadIx(t) => s.(midBlock := s.midBlock[t := Some(s.seenIx[t])])
    case Increment(t) => DoIncrement(s, t)
    case Unblock(id) => DoUnblock(s, id)
    case Refresh(t) => s.(seenIx := s.seenIx[t := s.blockIx], seenArea := s.seenArea[t := s.copyArea])
    case Progress(t) => DoProgress(s, t)
    case Enqueue(a) => s.(queue := s.queue + [a], enqueued := s.enqueued + [a], mail := s.mail + 1)
    case Discard => s.(mail := s.mail - 1)
    case Call => DoCall(s)
    case Collect => DoCollect(s)
  }

  // ---------------------------------------------------------------- invariant

  /** The outstanding blocks counted by counter[ix][t]. */
  function HeldIn(blocks: map<nat, Block>, ix: int, t: int): set<nat> {
    set id | id in blocks && blocks[id].ix == ix && blocks[id].sched == t
  }

  function Held(s: State, ix: int, t: int): set<nat> {
    HeldIn(s.blocks, ix, t)
  }

  /** The scheduler whose old-index counter lacks the collector's own increment, if any. */
  function Lent(s: State): Option<nat> {
    match s.pc
    case Restore(six) => Some(six)
    case WaitSetup(six) => Some(six)
    case Check(_) => None
    case Decrement(_) => None
    case _ => if s.blockState == Waiting then Some(s.waitSchedIx) else None
  }

  predicate CounterExact(s: State, ix: nat, t: nat)
    requires Shape(s) && ix < 2 && t < s.n
  {
    s.counter[ix][t] == |Held(s, ix, t)| + (if ix == Old(s) && Lent(s) == Some(t) then 0 else 1)
  }

  predicate CountersExact(s: State)
    requires Shape(s)
  {
    forall ix: nat, t: nat :: ix < 2 && t < s.n ==> CounterExact(s, ix, t)
  }

  /** A scheduler that sees the current index and is not about to use the other one. */
  predicate Settled(s: State, t: nat)
    requires Shape(s) && t < s.n
  {
    s.seenIx[t] == s.blockIx && (s.midBlock[t].Some? ==> s.midBlock[t].value == s.blockIx)
  }

  /** Schedulers that may still use the old index: only between a switch and the end of its progress wait. */
  predicate MayLag(s: State, t: nat) {
    s.blockState == SwitchedIx && (s.pc.Schedule? || (s.pc.Suspended? && t in s.pc.missing))
  }

  predicate ViewsCurrent(s: State)
    requires Shape(s)
  {
    forall t: nat :: t < s.n ==> Settled(s, t) || MayLag(s, t)
  }

  /** Below this scheduler, no outstanding block is left on the old index. */
  function Drained(s: State): nat {
    if s.blockState == NotBlocked then s.n
    else match s.pc
      case Check(six) => six
      case Decrement(six) => six
      case Restore(six) => six
      case WaitSetup(six) => six
      case _ => if s.blockState == Waiting then s.waitSchedIx else 0
  }

  predicate OldDrained(s: State) {
    forall id :: id in s.blocks && s.blocks[id].ix == Old(s) ==>
      s.blocks[id].sched >= Drained(s)
  }

  /** A block on the current index was taken after the last switch. */
  predicate StampsCurrent(s: State) {
    forall id :: id in s.blocks && s.blocks[id].ix == s.blockIx ==> s.blocks[id].taken == s.switches
  }

  predicate StampsBounded(s: State) {
    forall id :: id in s.blocks ==> s.blocks[id].taken <= s.switches
  }

  /** If the awaited counter is at zero, a wake-up message is there to be received. */
  predicate WakeUpSent(s: State)
    requires Shape(s)
  {
    && (s.pc.WaitSetup? && s.counter[Old(s)][s.pc.six] == 0 ==> s.mail > 0)
    && (s.pc.WaitPopped? || s.pc.Parked? ==>
          s.blockState == Waiting && (s.counter[Old(s)][s.waitSchedIx] == 0 ==> s.mail > 0))
  }

  predicate PcAgrees(s: State) {
    && (s.blockState == NotBlocked <==> s.blockArea.None?)
    && (s.pc.Popped? ==> s.blockState == NotBlocked && s.pc.prev == s.copyArea)
    && (s.pc.Published? ==> s.blockState == NotBlocked)
    && (s.pc.Check? || s.pc.Decrement? || s.pc.Restore? || s.pc.WaitSetup? ==> s.blockState != NotBlocked)
    && (s.pc.WaitPopped? ==> s.blockState == Waiting && s.copyArea.None?)
    && (s.pc.Parked? ==> s.blockState == Waiting)
    && (s.pc.Schedule? ==> s.pc.found == s.copyArea.Some?)
    && (s.pc.Suspended? ==> s.pc.found == s.copyArea.Some?)
    && (s.pc.Restore? ==>
          forall id :: id in s.blocks && s.blocks[id].ix == Old(s) ==> s.blocks[id].sched != s.pc.six)
  }

  /** Every area that ever entered the system and where it is now, oldest first. */
  function Pipeline(s: State): seq<Area> {
    s.released
    + (if s.pc.Published? then s.pc.prev.ToSeq() else s.blockArea.ToSeq())
    + s.copyArea.ToSeq()
    + (if s.pc.Popped? || s.pc.WaitPopped? then s.pc.ref.ToSeq() else [])
    + s.queue
  }

  /** While the published area is in use or being waited for, every scheduler has seen it. */
  predicate AreaSeen(s: State)
    requires Shape(s)
  {
    forall t: nat :: t < s.n ==>
      || s.seenArea[t] == s.copyArea
      || s.pc.Published? || s.pc.Schedule?
      || (s.pc.Suspended? && t in s.pc.missing)
      || s.copyArea.None?
  }

  ghost predicate Inv(s: State) {
    && Shape(s)
    && PcAgrees(s)
    && CountersExact(s)
    && ViewsCurrent(s)
    && OldDrained(s)
    && StampsCurrent(s)
    && StampsBounded(s)
    && WakeUpSent(s)
    && AreaSeen(s)
    && Pipeline(s) == s.enqueued
  }

  // ---------------------------------------------------------------- preservation

  lemma InitEstablishes(n: nat)
    requires n <= 0x10000
    ensures Inv(Init(n))
  {
    var s := Init(n);
    assert forall ix: nat, t: nat :: ix < 2 && t < n ==> Held(s, ix, t) == {};
  }

  lemma HeldAfterTaking(blocks: map<nat, Block>, id: nat, b: Block, ix: int, t: int)
    requires id !in blocks
    ensures HeldIn(blocks[id := b], ix, t)
         == HeldIn(blocks, ix, t) + (if b.ix == ix && b.sched == t then {id} else {})
  {
  }

  lemma HeldAfterDropping(blocks: map<nat, Block>, id: nat, ix: int, t: int)
    requires id in blocks
    ensures HeldIn(blocks - {id}, ix, t) == HeldIn(blocks, ix, t) - {id}
    ensures id in HeldIn(blocks, ix, t) <==> blocks[id].ix == ix && blocks[id].sched == t
  {
  }

  lemma IncrementCounter(s: State, t: nat, jx: nat, u: nat)
    requires Shape(s) && Enabled(s, Increment(t)) && jx < 2 && u < s.n && CounterExact(s, jx, u)
    requires Shape(DoIncrement(s, t))
    ensures CounterExact(DoIncrement(s, t), jx, u)
  {
    hide HeldIn;
    var s1 := DoIncrement(s, t);
    HeldAfterTaking(s.blocks, s.nextId, s1.blocks[s.nextId], jx, u);
    NotHeldYet(s.blocks, s.nextId, jx, u);
  }

  lemma NotHeldYet(blocks: map<nat, Block>, id: nat, ix: int, t: int)
    requires id !in blocks
    ensures id !in HeldIn(blocks, ix, t)
  {
  }

  lemma IncrementShape(s: State, t: nat)
    requires Shape(s) && Enabled(s, Increment(t))
    ensures Shape(DoIncrement(s, t)) && DoIncrement(s, t).n == s.n
  {
  }

  lemma IncrementCounters(s: State, t: nat)
    requires Shape(s) && CountersExact(s) && Enabled(s, Increment(t))
    ensures Shape(DoIncrement(s, t)) && CountersExact(DoIncrement(s, t))
  {
    hide Shape, CounterExact, DoIncrement;
    IncrementShape(s, t);
    forall jx: nat, u: nat | jx < 2 && u < s.n
      ensures CounterExact(DoIncrement(s, t), jx, u)
    {
      assert CounterExact(s, jx, u);
      IncrementCounter(s, t, jx, u);
    }
  }

  lemma IncrementKeeps(s: State, t: nat)
    requires Inv(s) && Enabled(s, Increment(t))
    ensures Inv(DoIncrement(s, t))
  {
    var s1 := DoIncrement(s, t);
    IncrementCounters(s, t);
    assert Settled(s, t) || MayLag(s, t);
    forall u: nat | u < s.n
      ensures Settled(s1, u) || MayLag(s1, u)
    {
      assert Settled(s, u) || MayLag(s, u);
    }
  }

  lemma UnblockCounter(s: State, id: nat, jx: nat, u: nat)
    requires Shape(s) && id in s.blocks && jx < 2 && u < s.n && CounterExact(s, jx, u) && Shape(DoUnblock(s, id))
    ensures CounterExact(DoUnblock(s, id), jx, u)
  {
    hide HeldIn, Encode, DecodeIx, DecodeSched;
    WordRoundTrip(s.blocks[id].ix, s.blocks[id].sched);
    HeldAfterDropping(s.blocks, id, jx, u);
  }

  lemma UnblockShape(s: State, id: nat)
    requires Shape(s) && id in s.blocks
    ensures Shape(DoUnblock(s, id)) && DoUnblock(s, id).n == s.n
  {
    hide Encode, DecodeIx, DecodeSched;
    WordRoundTrip(s.blocks[id].ix, s.blocks[id].sched);
  }

  lemma UnblockCounters(s: State, id: nat)
    requires Shape(s) && CountersExact(s) && id in s.blocks
    ensures Shape(DoUnblock(s, id)) && CountersExact(DoUnblock(s, id))
  {
    hide Shape, CounterExact, DoUnblock;
    UnblockShape(s, id);
    forall jx: nat, u: nat | jx < 2 && u < s.n
      ensures CounterExact(DoUnblock(s, id), jx, u)
    {
      assert CounterExact(s, jx, u);
      UnblockCounter(s, id, jx, u);
    }
  }

  lemma UnblockFrame(s: State, id: nat)
    requires Shape(s) && id in s.blocks
    ensures
      var s1 := DoUnblock(s, id);
      s1 == s.(counter := s1.counter, blocks := s.blocks - {id}, mail := s1.mail)
  {
    hide Encode, DecodeIx, DecodeSched;
    WordRoundTrip(s.blocks[id].ix, s.blocks[id].sched);
  }

  lemma UnblockWakes(s: State, id: nat)
    requires Shape(s) && WakeUpSent(s) && id in s.blocks && Shape(DoUnblock(s, id))
    ensures WakeUpSent(DoUnblock(s, id))
  {
    hide Encode, DecodeIx, DecodeSched;
    WordRoundTrip(s.blocks[id].ix, s.blocks[id].sched);
  }

  lemma UnblockKeeps(s: State, id: nat)
    requires Inv(s) && id in s.blocks
    ensures Inv(DoUnblock(s, id))
  {
    hide Shape, CountersExact, WakeUpSent, DoUnblock;
    UnblockFrame(s, id);
    UnblockCounters(s, id);
    UnblockWakes(s, id);
    ViewsFrame(s, DoUnblock(s, id));
  }

  /** Steps that touch neither the counters nor the outstanding blocks keep the counters exact. */
  lemma CountersFrame(s: State, s1: State)
    requires Shape(s) && CountersExact(s) && Shape(s1)
    requires s1.n == s.n && s1.counter == s.counter && s1.blocks == s.blocks
    requires Lent(s1) == Lent(s) && (s1.blockIx == s.blockIx || Lent(s).None?)
    ensures CountersExact(s1)
  {
    forall ix: nat, t: nat | ix < 2 && t < s.n
      ensures CounterExact(s1, ix, t)
    {
      assert CounterExact(s, ix, t);
    }
  }

  lemma ReadIxKeeps(s: State, t: nat)
    requires Inv(s) && Enabled(s, ReadIx(t))
    ensures Inv(Apply(s, ReadIx(t)))
  {
    var s1 := Apply(s, ReadIx(t));
    CountersFrame(s, s1);
    forall u: nat | u < s.n
      ensures Settled(s1, u) || MayLag(s1, u)
    {
      assert Settled(s, u) || MayLag(s, u);
    }
  }

  lemma RefreshKeeps(s: State, t: nat)
    requires Inv(s) && Enabled(s, Refresh(t))
    ensures Inv(Apply(s, Refresh(t)))
  {
    var s1 := Apply(s, Refresh(t));
    CountersFrame(s, s1);
    forall u: nat | u < s.n
      ensures Settled(s1, u) || MayLag(s1, u)
    {
      assert Settled(s, u) || MayLag(s, u);
    }
  }

  lemma ProgressKeeps(s: State, t: nat)
    requires Inv(s) && Enabled(s, Progress(t))
    ensures Inv(DoProgress(s, t))
  {
    var s1 := DoProgress(s, t);
    CountersFrame(s, s1);
    forall u: nat | u < s.n
      ensures Settled(s1, u) || MayLag(s1, u)
    {
      assert Settled(s, u) || MayLag(s, u);
    }
  }

  lemma EnqueueKeeps(s: State, a: Area)
    requires Inv(s)
    ensures Inv(Apply(s, Enqueue(a)))
  {
    var s1 := Apply(s, Enqueue(a));
    CountersFrame(s, s1);
    ViewsFrame(s, s1);
    assert Pipeline(s1) == Pipeline(s) + [a];
  }

  /** Steps that change no scheduler's view and let no further scheduler lag keep the views current. */
  lemma ViewsFrame(s: State, s1: State)
    requires Shape(s) && ViewsCurrent(s) && Shape(s1)
    requires s1.n == s.n && s1.seenIx == s.seenIx && s1.midBlock == s.midBlock && s1.blockIx == s.blockIx
    requires forall u: nat :: u < s.n && MayLag(s, u) ==> MayLag(s1, u)
    ensures ViewsCurrent(s1)
  {
    forall u: nat | u < s.n
      ensures Settled(s1, u) || MayLag(s1, u)
    {
      assert Settled(s, u) || MayLag(s, u);
    }
  }

  lemma CallKeeps(s: State)
    requires Inv(s) && Enabled(s, Call)
    ensures Inv(DoCall(s))
  {
    var s1 := DoCall(s);
    CountersFrame(s, s1);
    ViewsFrame(s, s1);
    assert Pipeline(s1) == Pipeline(s);
  }

  lemma CollectTop(s: State)
    requires Inv(s) && s.pc.Top? && s.blockState != Waiting
    ensures Inv(DoCollect(s))
  {
    var s1 := DoCollect(s);
    CountersFrame(s, s1);
    ViewsFrame(s, s1);
    assert Pipeline(s1) == Pipeline(s);
  }

  lemma CollectPopped(s: State)
    requires Inv(s) && s.pc.Popped?
    ensures Inv(DoCollect(s))
  {
    var s1 := DoCollect(s);
    CountersFrame(s, s1);
    ViewsFrame(s, s1);
    assert Pipeline(s1) == Pipeline(s);
  }

  lemma CollectPublished(s: State)
    requires Inv(s) && s.pc.Published?
    ensures Inv(DoCollect(s))
  {
    var s1 := DoCollect(s);
    CountersFrame(s, s1);
    if s.pc.prev.Some? {
      assert forall u: nat :: u < s.n ==> Settled(s, u) || MayLag(s, u);
      assert forall u: nat :: u < s.n ==> MayLag(s1, u);
    } else {
      ViewsFrame(s, s1);
    }
    assert Pipeline(s1) == Pipeline(s);
  }

  lemma CollectSchedule(s: State)
    requires Inv(s) && s.pc.Schedule?
    ensures Inv(DoCollect(s))
  {
    var s1 := DoCollect(s);
    CountersFrame(s, s1);
    ViewsFrame(s, s1);
    assert Pipeline(s1) == Pipeline(s);
  }

  lemma CollectWaitSetup(s: State)
    requires Inv(s) && s.pc.WaitSetup?
    ensures Inv(DoCollect(s))
  {
    var s1 := DoCollect(s);
    CountersFrame(s, s1);
    ViewsFrame(s, s1);
    assert Pipeline(s1) == Pipeline(s);
  }

  lemma CollectWaitPopped(s: State)
    requires Inv(s) && s.pc.WaitPopped?
    ensures Inv(DoCollect(s))
  {
    var s1 := DoCollect(s);
    CountersFrame(s, s1);
    ViewsFrame(s, s1);
    assert Pipeline(s1) == Pipeline(s);
  }

  /** The collector takes back or gives away its own increment at scheduler `t` of the old index. */
  lemma CountersLend(s: State, s1: State, t: nat, delta: int)
    requires Shape(s) && CountersExact(s) && Shape(s1) && t < s.n
    requires s1.n == s.n && s1.blocks == s.blocks && s1.blockIx == s.blockIx
    requires s1.counter == Add(s, Old(s), t, delta).counter
    requires Lent(s) == (if delta == 1 then Some(t) else None)
    requires Lent(s1) == (if delta == 1 then None else Some(t))
    requires delta == 1 || delta == -1
    ensures CountersExact(s1)
  {
    forall ix: nat, u: nat | ix < 2 && u < s.n
      ensures CounterExact(s1, ix, u)
    {
      assert CounterExact(s, ix, u);
    }
  }

  lemma CollectWoken(s: State)
    requires Inv(s) && s.pc.Top? && s.blockState == Waiting
    ensures Inv(DoCollect(s))
  {
    var s1 := DoCollect(s);
    CountersLend(s, s1, s.waitSchedIx, 1);
    ViewsFrame(s, s1);
    assert Pipeline(s1) == Pipeline(s);
  }

  /** With the collector's own increment in place, a counter at one means no block is held there. */
  lemma OneMeansNoneHeld(s: State, t: nat)
    requires Shape(s) && CountersExact(s) && t < s.n
    requires s.counter[Old(s)][t] == (if Lent(s) == Some(t) then 0 else 1)
    ensures forall id :: id in s.blocks && s.blocks[id].ix == Old(s) ==> s.blocks[id].sched != t
  {
    assert CounterExact(s, Old(s), t);
    assert Held(s, Old(s), t) == {};
    forall id | id in s.blocks && s.blocks[id].ix == Old(s)
      ensures s.blocks[id].sched != t
    {
      assert id !in Held(s, Old(s), t);
    }
  }

  lemma CollectCheck(s: State)
    requires Inv(s) && s.pc.Check?
    ensures Inv(DoCollect(s))
  {
    var s1 := DoCollect(s);
    CountersFrame(s, s1);
    ViewsFrame(s, s1);
    if s.pc.six < s.n && s.counter[Old(s)][s.pc.six] == 1 {
      OneMeansNoneHeld(s, s.pc.six);
    }
    assert Pipeline(s1) == Pipeline(s);
  }

  lemma CollectDecrement(s: State)
    requires Inv(s) && s.pc.Decrement?
    ensures Inv(DoCollect(s))
  {
    var s1 := DoCollect(s);
    CountersLend(s, s1, s.pc.six, -1);
    ViewsFrame(s, s1);
    if s1.pc.Restore? {
      OneMeansNoneHeld(s1, s.pc.six);
    }
    assert Pipeline(s1) == Pipeline(s);
  }

  lemma CollectRestore(s: State)
    requires Inv(s) && s.pc.Restore?
    ensures Inv(DoCollect(s))
  {
    var s1 := DoCollect(s);
    CountersLend(s, s1, s.pc.six, 1);
    ViewsFrame(s, s1);
    assert Pipeline(s1) == Pipeline(s);
  }

  lemma DiscardKeeps(s: State)
    requires Inv(s) && Enabled(s, Discard)
    ensures Inv(Apply(s, Discard))
  {
    var s1 := Apply(s, Discard);
    CountersFrame(s, s1);
    ViewsFrame(s, s1);
    assert Pipeline(s1) == Pipeline(s);
  }

  lemma CollectKeeps(s: State)
    requires Inv(s) && Enabled(s, Collect)
    ensures Inv(DoCollect(s))
  {
    match s.pc
    case Top => if s.blockState == Waiting { CollectWoken(s); } else { CollectTop(s); }
    case Popped(_, _) => CollectPopped(s);
    case Published(_) => CollectPublished(s);
    case Schedule(_) => CollectSchedule(s);
    case Check(_) => CollectCheck(s);
    case Decrement(_) => CollectDecrement(s);
    case Restore(_) => CollectRestore(s);
    case WaitSetup(_) => CollectWaitSetup(s);
    case WaitPopped(_) => CollectWaitPopped(s);
  }

  lemma StepKeeps(s: State, step: Step)
    requires Inv(s) && Enabled(s, step)
    ensures Inv(Apply(s, step))
  {
    match step
    case ReadIx(t) => ReadIxKeeps(s, t);
    case Increment(t) => IncrementKeeps(s, t);
    case Unblock(id) => UnblockKeeps(s, id);
    case Refresh(t) => RefreshKeeps(s, t);
    case Progress(t) => ProgressKeeps(s, t);
    case Enqueue(a) => EnqueueKeeps(s, a);
    case Discard => DiscardKeeps(s);
    case Call => CallKeeps(s);
    case Collect => CollectKeeps(s);
  }

  // ---------------------------------------------------------------- runs

  /** A run of the whole system: every state follows from the one before it by some enabled step. */
  ghost predicate IsRun(run: seq<State>, n: nat) {
    && n <= 0x10000
    && |run| > 0 && run[0] == Init(n)
    && forall i :: 0 <= i < |run| - 1 ==> FollowsAt(run, i)
  }

  ghost predicate FollowsAt(run: seq<State>, i: int)
    requires 0 <= i < |run| - 1
  {
    Follows(run[i], run[i + 1])
  }

  ghost predicate Follows(s: State, s1: State) {
    Shape(s) && exists step :: Enabled(s, step) && s1 == Apply(s, step)
  }

  lemma FollowsKeeps(s: State, s1: State)
    requires Inv(s) && Follows(s, s1)
    ensures Inv(s1)
  {
    var step :| Enabled(s, step) && s1 == Apply(s, step);
    StepKeeps(s, step);
  }

  lemma {:induction false} RunsKeepInv(run: seq<State>, n: nat, k: nat)
    requires IsRun(run, n) && k < |run|
    ensures Inv(run[k])
  {
    if k == 0 {
      InitEstablishes(n);
    } else {
      RunsKeepInv(run, n, k - 1);
      assert FollowsAt(run, k - 1);
      FollowsKeeps(run[k - 1], run[k]);
    }
  }

  /** Blocks keep their identity for as long as they are outstanding, and ids are never reused. */
  predicate Older(s: State, s1: State) {
    && s.nextId <= s1.nextId && s.switches <= s1.switches && s1.n == s.n
    && forall id :: id in s1.blocks && id < s.nextId ==> id in s.blocks && s.blocks[id] == s1.blocks[id]
  }

  lemma StepOlder(s: State, step: Step)
    requires Shape(s) && Enabled(s, step)
    ensures Older(s, Apply(s, step))
  {
    if step.Unblock? {
      WordRoundTrip(s.blocks[step.id].ix, s.blocks[step.id].sched);
    }
  }

  lemma FollowsOlder(s: State, s1: State)
    requires Follows(s, s1)
    ensures Older(s, s1)
  {
    var step :| Enabled(s, step) && s1 == Apply(s, step);
    StepOlder(s, step);
  }

  /** Only the switch of the block index makes an area wait for release. */
  predicate SwitchedFrom(s: State, s1: State) {
    && s.pc == Published(s1.blockArea) && s1.switches == s.switches + 1 && s1.blockIx == 1 - s.blockIx
  }

  predicate AreaFrom(s: State, s1: State) {
    && (s1.blockState != NotBlocked ==>
          if s.blockState == NotBlocked then SwitchedFrom(s, s1)
          else s1.blockArea == s.blockArea && s1.switches == s.switches)
    && (s1.released != s.released ==> s.pc == Check(s.n) && s1.released == s.released + s.blockArea.ToSeq())
  }

  lemma StepAreaFrom(s: State, step: Step)
    requires Shape(s) && PcAgrees(s) && Enabled(s, step)
    ensures AreaFrom(s, Apply(s, step))
  {
  }

  lemma FollowsAreaFrom(s: State, s1: State)
    requires Inv(s) && Follows(s, s1)
    ensures AreaFrom(s, s1)
  {
    var step :| Enabled(s, step) && s1 == Apply(s, step);
    StepAreaFrom(s, step);
  }

  lemma {:induction false} RunOlder(run: seq<State>, n: nat, i: nat, k: nat)
    requires IsRun(run, n) && i <= k < |run|
    ensures Older(run[i], run[k])
  {
    if i < k {
      RunOlder(run, n, i, k - 1);
      assert FollowsAt(run, k - 1);
      FollowsOlder(run[k - 1], run[k]);
    }
  }

  /** An area waiting for release was taken out of use by the last switch of the block index. */
  lemma {:induction false} LastSwitchWasFor(run: seq<State>, n: nat, k: nat) returns (j: nat)
    requires IsRun(run, n) && k < |run| && run[k].blockState != NotBlocked
    ensures j < k && SwitchedFrom(run[j], run[j + 1])
    ensures run[j + 1].blockArea == run[k].blockArea && run[j + 1].switches == run[k].switches
  {
    RunsKeepInv(run, n, k - 1);
    assert FollowsAt(run, k - 1);
    FollowsAreaFrom(run[k - 1], run[k]);
    if run[k - 1].blockState != NotBlocked {
      j := LastSwitchWasFor(run, n, k - 1);
    } else {
      j := k - 1;
    }
  }

  /**
   Safety of release. Whenever a literal area is released, it was at some earlier point switched
   away from, and no block that was outstanding at that point or before is outstanding now; nor is
   any block left on the old index, and no scheduler can take one.
   */
  lemma ReleaseIsSafe(run: seq<State>, n: nat, k: nat) returns (area: Area, j: nat)
    requires IsRun(run, n) && k + 1 < |run| && run[k + 1].released != run[k].released
    ensures run[k + 1].released == run[k].released + [area]
    ensures j < k && run[j].pc == Published(Some(area)) && run[j + 1].blockIx == 1 - run[j].blockIx
    ensures forall i, id :: 0 <= i <= j && id in run[i].blocks ==> id !in run[k].blocks
    ensures forall id :: id in run[k].blocks ==> run[k].blocks[id].ix == run[k].blockIx
    ensures Shape(run[k]) && forall t: nat :: t < run[k].n ==> Settled(run[k], t)
  {
    RunsKeepInv(run, n, k);
    var s := run[k];
    assert FollowsAt(run, k);
    FollowsAreaFrom(s, run[k + 1]);
    j := LastSwitchWasFor(run, n, k);
    area := s.blockArea.value;
    forall i, id | 0 <= i <= j && id in run[i].blocks
      ensures id !in run[k].blocks
    {
      RunsKeepInv(run, n, i);
      RunOlder(run, n, i, j);
      RunOlder(run, n, i, k);
    }
    assert forall t: nat :: t < s.n ==> Settled(s, t) || MayLag(s, t);
  }

  /** With nothing awaiting release, no outstanding block uses the non-current index. */
  lemma NoBlockOnIdleIndex(run: seq<State>, n: nat, k: nat, id: nat)
    requires IsRun(run, n) && k < |run| && run[k].blockState == NotBlocked && id in run[k].blocks
    ensures run[k].blocks[id].ix == run[k].blockIx
  {
    RunsKeepInv(run, n, k);
  }

  /**
   Each counter is the number of blocks outstanding on it plus the collector's own increment,
   which is missing on at most one counter of the old index.
   */
  lemma CountersCountBlocks(run: seq<State>, n: nat, k: nat, ix: nat, t: nat)
    requires IsRun(run, n) && k < |run| && ix < 2 && t < n
    ensures Shape(run[k]) && run[k].n == n
    ensures run[k].counter[ix][t] == |Held(run[k], ix, t)|
      + (if ix == Old(run[k]) && Lent(run[k]) == Some(t) then 0 else 1)
    ensures run[k].counter[ix][t] >= 0
  {
    RunsKeepInv(run, n, k);
    RunOlder(run, n, 0, k);
    assert CounterExact(run[k], ix, t);
  }

  /** No wake-up is lost: once the awaited blocks are gone, a parked collector has a message to receive. */
  lemma NoLostWakeUp(run: seq<State>, n: nat, k: nat)
    requires IsRun(run, n) && k < |run| && run[k].pc.Parked?
    requires Held(run[k], Old(run[k]), run[k].waitSchedIx) == {}
    ensures Shape(run[k]) && Enabled(run[k], Call)
  {
    RunsKeepInv(run, n, k);
    assert CounterExact(run[k], Old(run[k]), run[k].waitSchedIx);
  }

  /**
   Areas pass through the system in order: released, then waiting for release, then published,
   then popped, then queued. None is dropped, none is released twice.
   */
  lemma ReleasedInOrder(run: seq<State>, n: nat, k: nat)
    requires IsRun(run, n) && k < |run|
    ensures Pipeline(run[k]) == run[k].enqueued
    ensures run[k].released <= run[k].enqueued
    ensures run[k].pc == Published(None) && run[k].copyArea.None? ==>
      run[k].enqueued == run[k].released + run[k].queue
  {
    RunsKeepInv(run, n, k);
  }

  /** When the BIF has returned with a new area, every scheduler sees that area. */
  lemma PublishedAreaIsSeen(run: seq<State>, n: nat, k: nat, t: nat)
    requires IsRun(run, n) && k < |run| && t < n && run[k].pc.Idle? && run[k].copyArea.Some?
    ensures Shape(run[k]) && run[k].n == n && run[k].seenArea[t] == run[k].copyArea
  {
    RunsKeepInv(run, n, k);
    RunOlder(run, n, 0, k);
  }
}
