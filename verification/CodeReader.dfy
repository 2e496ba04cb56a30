/**
 The code reader's synthesis of function boundaries: it turns the sequence label, optional line,
 func_info into int_func_start, and puts int_func_end before the next function and before the end.
 */
module CodeReader {
  import opened BeamOp
  import opened Wrappers

  datatype Code = Label | Line | FuncInfo | CodeEnd | Other(n: nat) | FuncStart | FuncEnd

  /** An instruction; a list as its last operand gives it more operands than its nominal arity. */
  datatype Op = Op(code: Code, args: seq<Arg>)

  const NIL_ARG := Arg(TagN, 0)

  function Arity(c: Code): nat {
    match c
    case Label => 1
    case Line => 1
    case FuncInfo => 3
    case FuncStart => 5
    case FuncEnd => 2
    case _ => 0
  }

  /** What can be decoded from a file: the synthesised instructions have no opcode there. */
  predicate IsRaw(op: Op) {
    op.code != FuncStart && op.code != FuncEnd && |op.args| >= Arity(op.code)
  }

  ghost predicate AllRaw(raw: seq<Op>) {
    forall i :: 0 <= i < |raw| ==> IsRaw(raw[i])
  }

  /** The labels of the current function. */
  datatype Labels = Labels(func: Arg, entry: Arg)

  function EndOf(cur: Option<Labels>): seq<Op> {
    if cur.None? then [] else [Op(FuncEnd, [Arg(TagF, cur.value.func.val), Arg(TagF, cur.value.entry.val)])]
  }

  // ---------------------------------------------------------------- the rewriting

  /** What the reader takes from the stream before it gives anything back. */
  datatype Block = Pass(n: nat) | Function(n: nat, start: Op, entry: Op) | Last | Bad

  /** `k` is where the instruction after the label and the optional line is. */
  function AfterLabel(raw: seq<Op>): nat
    requires raw != []
  {
    if 1 < |raw| && raw[1].code == Line then 2 else 1
  }

  function StartOp(raw: seq<Op>, k: nat): Op
    requires 1 <= k <= 2 && k < |raw| && AllRaw(raw) && raw[0].code == Label && raw[k].code == FuncInfo
    requires k == 2 ==> raw[1].code == Line
  {
    var line := if k == 2 then raw[1].args[0] else NIL_ARG;
    Op(FuncStart, [raw[0].args[0], line, raw[k].args[0], raw[k].args[1], raw[k].args[2]])
  }

  function NextBlock(raw: seq<Op>): (b: Block)
    requires AllRaw(raw)
    ensures b.Last? ==> raw != [] && raw[0].code == CodeEnd
    ensures b.Pass? ==> 1 <= b.n <= |raw| && forall i :: 0 <= i < b.n ==> raw[i].code != CodeEnd
    ensures b.Function? ==> 3 <= b.n <= 4 && b.n <= |raw| && b.start.code == FuncStart && |b.start.args| == 5
    ensures b.Function? ==> b.entry == raw[b.n - 1] && b.entry.code == Label && |b.entry.args| >= 1
  {
    if raw == [] then Bad
    else if raw[0].code == CodeEnd then Last
    else if raw[0].code != Label then Pass(1)
    else
      var k := AfterLabel(raw);
      if k >= |raw| || raw[k].code == CodeEnd then Bad
      else if raw[k].code != FuncInfo then Pass(k + 1)
      else if k + 1 >= |raw| || raw[k + 1].code != Label then Bad
      else if raw[k + 1].args[0].tag != TagU || raw[0].args[0].tag != TagU then Bad
      else Function(k + 2, StartOp(raw, k), raw[k + 1])
  }

  /** The instructions given out, and how many of the stream were taken. */
  datatype Output = Output(ops: seq<Op>, used: nat)

  function Prepend(ops: seq<Op>, n: nat, r: Result<Output>): Result<Output> {
    match r
    case Err => Err
    case Ok(o) => Ok(Output(ops + o.ops, n + o.used))
  }

  function Transform(raw: seq<Op>, cur: Option<Labels>): Result<Output>
    requires AllRaw(raw)
    decreases |raw|
  {
    match NextBlock(raw)
    case Bad => Err
    case Last => Ok(Output(EndOf(cur) + [raw[0]], 1))
    case Pass(n) => Prepend(raw[..n], n, Transform(raw[n..], cur))
    case Function(n, start, entry) =>
      Prepend(EndOf(cur) + [start, entry], n, Transform(raw[n..], Some(Labels(start.args[0], entry.args[0]))))
  }

  // ---------------------------------------------------------------- function boundaries alternate

  /**
   Function starts and ends alternate, each end has the labels of the start before it and of the
   entry label after that, and code_end comes once, last and outside any function.
   */
  ghost predicate Alternates(out: seq<Op>, cur: Option<Labels>)
    decreases |out|
  {
    && out != []
    && match out[0].code
       case CodeEnd => |out| == 1 && cur.None?
       case FuncStart =>
         && cur.None? && 1 < |out| && out[1].code == Label && |out[0].args| == 5 && |out[1].args| >= 1
         && Alternates(out[1..], Some(Labels(out[0].args[0], out[1].args[0])))
       case FuncEnd => cur.Some? && [out[0]] == EndOf(cur) && Alternates(out[1..], None)
       case _ => Alternates(out[1..], cur)
  }

  lemma {:induction false} PassAlternates(ops: seq<Op>, rest: seq<Op>, cur: Option<Labels>)
    requires AllRaw(ops) && Alternates(rest, cur)
    requires forall i :: 0 <= i < |ops| ==> ops[i].code != CodeEnd
    ensures Alternates(ops + rest, cur)
  {
    if ops == [] {
      assert ops + rest == rest;
    } else {
      PassAlternates(ops[1..], rest, cur);
      assert (ops + rest)[1..] == ops[1..] + rest;
    }
  }

  lemma EndAlternates(rest: seq<Op>, cur: Option<Labels>)
    requires Alternates(rest, None)
    ensures Alternates(EndOf(cur) + rest, cur)
  {
    if cur.None? {
      assert EndOf(cur) + rest == rest;
    } else {
      assert (EndOf(cur) + rest)[1..] == rest;
    }
  }

  lemma StartAlternates(start: Op, rest: seq<Op>)
    requires start.code == FuncStart && |start.args| == 5
    requires rest != [] && rest[0].code == Label && |rest[0].args| >= 1
    requires Alternates(rest, Some(Labels(start.args[0], rest[0].args[0])))
    ensures Alternates([start] + rest, None)
  {
    assert ([start] + rest)[1..] == rest;
  }

  lemma FunctionAlternates(start: Op, entry: Op, rest: seq<Op>, cur: Option<Labels>)
    requires start.code == FuncStart && |start.args| == 5 && entry.code == Label && |entry.args| >= 1
    requires Alternates(rest, Some(Labels(start.args[0], entry.args[0])))
    ensures Alternates(EndOf(cur) + [start, entry] + rest, cur)
  {
    hide Alternates, EndOf;
    PassAlternates([entry], rest, Some(Labels(start.args[0], entry.args[0])));
    StartAlternates(start, [entry] + rest);
    EndAlternates([start] + ([entry] + rest), cur);
    assert EndOf(cur) + ([start] + ([entry] + rest)) == EndOf(cur) + [start, entry] + rest;
  }

  lemma LastAlternates(op: Op, cur: Option<Labels>)
    requires op.code == CodeEnd
    ensures Alternates(EndOf(cur) + [op], cur)
  {
    EndAlternates([op], cur);
  }

  /** For every accepted stream, starts and ends alternate up to the end of the code. */
  lemma {:induction false} OutputAlternates(raw: seq<Op>, cur: Option<Labels>)
    requires AllRaw(raw) && Transform(raw, cur).Ok?
    ensures Alternates(Transform(raw, cur).value.ops, cur)
    decreases |raw|
  {
    hide NextBlock, Alternates, EndOf;
    match NextBlock(raw)
    case Last =>
      LastAlternates(raw[0], cur);
    case Pass(n) =>
      OutputAlternates(raw[n..], cur);
      PassAlternates(raw[..n], Transform(raw[n..], cur).value.ops, cur);
    case Function(n, start, entry) =>
      var cur1 := Some(Labels(start.args[0], entry.args[0]));
      OutputAlternates(raw[n..], cur1);
      FunctionAlternates(start, entry, Transform(raw[n..], cur1).value.ops, cur);
  }

  // ---------------------------------------------------------------- undoing the synthesis

  /** The instructions that a given one was made from. */
  function UndoOp(op: Op): seq<Op> {
    if op.code == FuncEnd then []
    else if op.code == FuncStart && |op.args| == 5 then
      var line := if op.args[1].tag == TagN then [] else [Op(Line, [op.args[1]])];
      [Op(Label, [op.args[0]])] + line + [Op(FuncInfo, op.args[2..])]
    else [op]
  }

  function Undo(out: seq<Op>): seq<Op> {
    if out == [] then [] else UndoOp(out[0]) + Undo(out[1..])
  }

  lemma {:induction false} UndoConcat(a: seq<Op>, b: seq<Op>)
    ensures Undo(a + b) == Undo(a) + Undo(b)
  {
    hide UndoOp;
    if a == [] {
      assert a + b == b;
    } else {
      UndoConcat(a[1..], b);
      assert (a + b)[0] == a[0] && (a + b)[1..] == a[1..] + b;
      Associates(UndoOp(a[0]), Undo(a[1..]), Undo(b));
    }
  }

  lemma {:induction false} UndoRaw(a: seq<Op>)
    requires AllRaw(a)
    ensures Undo(a) == a
  {
    if a != [] {
      UndoRaw(a[1..]);
    }
  }

  lemma UndoPair(start: Op, entry: Op)
    requires IsRaw(entry)
    ensures Undo([start, entry]) == UndoOp(start) + [entry]
  {
    UndoRaw([entry]);
    assert [start, entry][1..] == [entry];
  }

  lemma UndoEnd(cur: Option<Labels>)
    ensures Undo(EndOf(cur)) == []
  {
  }

  /** Nothing of the instructions in front of a function is lost: nominal arities, and a line that is not NIL. */
  predicate Plain(raw: seq<Op>, n: nat)
    requires 3 <= n <= |raw|
  {
    && |raw[0].args| == 1 && |raw[n - 2].args| == 3
    && (n == 4 ==> |raw[1].args| == 1 && raw[1].args[0].tag != TagN)
  }

  /** All functions of the stream have plain headers. */
  predicate PlainHeaders(raw: seq<Op>)
    requires AllRaw(raw)
    decreases |raw|
  {
    match NextBlock(raw)
    case Bad => true
    case Last => true
    case Pass(n) => PlainHeaders(raw[n..])
    case Function(n, start, entry) => Plain(raw, n) && PlainHeaders(raw[n..])
  }

  lemma HeaderUndone(raw: seq<Op>, n: nat, rest: seq<Op>, tail: seq<Op>)
    requires AllRaw(raw) && NextBlock(raw).Function? && NextBlock(raw).n == n
    ensures UndoOp(NextBlock(raw).start) + [raw[n - 1]] + rest == raw[..n] + tail <==> Plain(raw, n) && rest == tail
  {
    var start := NextBlock(raw).start;
    var k := n - 2;
    assert start.args[2..] == [raw[k].args[0], raw[k].args[1], raw[k].args[2]];
    assert |raw[0].args| == 1 ==> raw[0].args == [raw[0].args[0]];
    assert |raw[k].args| == 3 ==> raw[k].args == start.args[2..];
    assert n == 4 && |raw[1].args| == 1 ==> raw[1].args == [raw[1].args[0]];
    var u := UndoOp(start) + [raw[n - 1]];
    if Plain(raw, n) {
      assert u == raw[..n];
      assert (u + rest)[n..] == rest && (raw[..n] + tail)[n..] == tail;
    } else {
      assert u[0] == Op(Label, [raw[0].args[0]]);
      var i :=
        if |raw[0].args| != 1 then 0
        else if n == 4 && (|raw[1].args| != 1 || raw[1].args[0].tag == TagN) then 1
        else k;
      assert i < |u| && u[i] != raw[i];
      assert (u + rest)[i] != (raw[..n] + tail)[i];
    }
  }

  lemma SplitPrefix(raw: seq<Op>, n: nat, used: nat)
    requires n + used <= |raw|
    ensures raw[..n + used] == raw[..n] + raw[n..][..used]
  {
    assert raw[n..][..used] == raw[n..n + used];
  }

  lemma UndoPassed(raw: seq<Op>, n: nat, ops: seq<Op>, used: nat)
    requires AllRaw(raw) && n + used <= |raw|
    ensures Undo(raw[..n] + ops) == raw[..n + used] <==> Undo(ops) == raw[n..][..used]
  {
    hide UndoOp, Undo;
    UndoConcat(raw[..n], ops);
    UndoRaw(raw[..n]);
    var tail := raw[n..][..used];
    SplitPrefix(raw, n, used);
    assert (raw[..n] + Undo(ops))[n..] == Undo(ops) && (raw[..n] + tail)[n..] == tail;
  }

  lemma UndoFunction(raw: seq<Op>, n: nat, cur: Option<Labels>, ops: seq<Op>, used: nat)
    requires AllRaw(raw) && n + used <= |raw| && NextBlock(raw).Function? && NextBlock(raw).n == n
    ensures var b := NextBlock(raw);
      Undo(EndOf(cur) + [b.start, b.entry] + ops) == raw[..n + used] <==> Plain(raw, n) && Undo(ops) == raw[n..][..used]
  {
    hide NextBlock, UndoOp, Undo, EndOf, Plain;
    var start, entry := NextBlock(raw).start, NextBlock(raw).entry;
    UndoEnd(cur);
    UndoConcat(EndOf(cur) + [start, entry], ops);
    UndoConcat(EndOf(cur), [start, entry]);
    UndoPair(start, entry);
    SplitPrefix(raw, n, used);
    HeaderUndone(raw, n, Undo(ops), raw[n..][..used]);
  }

  /** What is to be proved of a stream and its rest. */
  ghost predicate Inverse(raw: seq<Op>, cur: Option<Labels>)
    requires AllRaw(raw)
  {
    Transform(raw, cur).Ok? ==>
      var o := Transform(raw, cur).value;
      && 0 < o.used <= |raw| && raw[o.used - 1].code == CodeEnd
      && (Undo(o.ops) == raw[..o.used] <==> PlainHeaders(raw))
  }

  lemma InverseBad(raw: seq<Op>, cur: Option<Labels>)
    requires AllRaw(raw) && NextBlock(raw).Bad?
    ensures Inverse(raw, cur)
  {
  }

  lemma InverseLast(raw: seq<Op>, cur: Option<Labels>)
    requires AllRaw(raw) && NextBlock(raw).Last?
    ensures Inverse(raw, cur)
  {
    hide NextBlock, UndoOp, Undo, EndOf;
    UndoEnd(cur);
    UndoConcat(EndOf(cur), [raw[0]]);
    UndoRaw([raw[0]]);
    assert [] + [raw[0]] == raw[..1];
  }

  lemma InversePass(raw: seq<Op>, cur: Option<Labels>)
    requires AllRaw(raw) && NextBlock(raw).Pass? && Inverse(raw[NextBlock(raw).n..], cur)
    ensures Inverse(raw, cur)
  {
    hide NextBlock, UndoOp, Undo;
    var n := NextBlock(raw).n;
    if Transform(raw, cur).Ok? {
      var o := Transform(raw[n..], cur).value;
      UndoPassed(raw, n, o.ops, o.used);
    }
  }

  lemma InverseFunction(raw: seq<Op>, cur: Option<Labels>)
    requires AllRaw(raw) && NextBlock(raw).Function?
    requires
      var b := NextBlock(raw);
      Inverse(raw[b.n..], Some(Labels(b.start.args[0], b.entry.args[0])))
    ensures Inverse(raw, cur)
  {
    hide NextBlock, UndoOp, Undo, EndOf, Plain;
    var b := NextBlock(raw);
    if Transform(raw, cur).Ok? {
      var o := Transform(raw[b.n..], Some(Labels(b.start.args[0], b.entry.args[0]))).value;
      UndoFunction(raw, b.n, cur, o.ops, o.used);
    }
  }

  lemma {:induction false} AlwaysInverse(raw: seq<Op>, cur: Option<Labels>)
    requires AllRaw(raw)
    ensures Inverse(raw, cur)
    decreases |raw|
  {
    hide NextBlock, Inverse;
    match NextBlock(raw)
    case Bad =>
      InverseBad(raw, cur);
    case Last =>
      InverseLast(raw, cur);
    case Pass(n) =>
      AlwaysInverse(raw[n..], cur);
      InversePass(raw, cur);
    case Function(n, start, entry) =>
      AlwaysInverse(raw[n..], Some(Labels(start.args[0], entry.args[0])));
      InverseFunction(raw, cur);
  }

  /**
   Undoing the synthesis gives back the raw stream exactly when all function headers are plain.
   */
  lemma UndoIsInverse(raw: seq<Op>, cur: Option<Labels>)
    requires AllRaw(raw) && Transform(raw, cur).Ok?
    ensures
      var o := Transform(raw, cur).value;
      && 0 < o.used <= |raw| && raw[o.used - 1].code == CodeEnd
      && (Undo(o.ops) == raw[..o.used] <==> PlainHeaders(raw))
  {
    hide NextBlock, Transform, PlainHeaders, Undo;
    AlwaysInverse(raw, cur);
  }

  /** A function whose line operand is NIL: accepted, but the line instruction is lost. */
  lemma NilLineWitness()
    ensures
      var raw := [Op(Label, [Arg(TagU, 1)]), Op(Line, [NIL_ARG]), Op(FuncInfo, [NIL_ARG, NIL_ARG, NIL_ARG]),
                  Op(Label, [Arg(TagU, 2)]), Op(CodeEnd, [])];
      && AllRaw(raw) && Transform(raw, None).Ok? && Transform(raw, None).value.used == 5
      && Undo(Transform(raw, None).value.ops) != raw
  {
    var raw := [Op(Label, [Arg(TagU, 1)]), Op(Line, [NIL_ARG]), Op(FuncInfo, [NIL_ARG, NIL_ARG, NIL_ARG]),
                Op(Label, [Arg(TagU, 2)]), Op(CodeEnd, [])];
    assert NextBlock(raw) == Function(4, StartOp(raw, 2), raw[3]);
    assert raw[4..] == [Op(CodeEnd, [])] && NextBlock(raw[4..]).Last?;
    assert !PlainHeaders(raw) && raw[..5] == raw;
    UndoIsInverse(raw, None);
  }

  // ---------------------------------------------------------------- the reader

  lemma LabelCases(s: seq<Op>)
    requires AllRaw(s) && s != [] && s[0].code == Label
    ensures
      var b, k := NextBlock(s), AfterLabel(s);
      && (k >= |s| || s[k].code == CodeEnd ==> b.Bad?)
      && (k < |s| && s[k].code != CodeEnd && s[k].code != FuncInfo ==> b == Pass(k + 1))
  {
  }

  lemma SliceSnoc(raw: seq<Op>, n: nat, m: nat)
    requires n <= m < |raw|
    ensures raw[n..m] + [raw[m]] == raw[n..m + 1]
  {
  }

  lemma BlockCases(s: seq<Op>)
    requires AllRaw(s)
    ensures s == [] ==> NextBlock(s).Bad?
    ensures s != [] && s[0].code == CodeEnd ==> NextBlock(s).Last?
    ensures s != [] && s[0].code != CodeEnd && s[0].code != Label ==> NextBlock(s) == Pass(1)
  {
  }

  /** What remains after a block of the stream. */
  lemma TransformStep(raw: seq<Op>, pos: nat, n: nat, cur: Option<Labels>)
    requires AllRaw(raw) && pos + n <= |raw| && (NextBlock(raw[pos..]).Pass? || NextBlock(raw[pos..]).Function?)
    requires NextBlock(raw[pos..]).n == n
    ensures
      var b := NextBlock(raw[pos..]);
      Transform(raw[pos..], cur) ==
        if b.Pass? then Prepend(raw[pos..][..n], n, Transform(raw[pos + n..], cur))
        else
          var cur1 := Some(Labels(b.start.args[0], b.entry.args[0]));
          Prepend(EndOf(cur) + [b.start, b.entry], n, Transform(raw[pos + n..], cur1))
  {
    assert raw[pos..][n..] == raw[pos + n..];
  }

  /** The queue, followed by what the stream gives unless the end is already in the queue. */
  function RestOf(pending: seq<Op>, t: Result<Output>): Result<seq<Op>> {
    if pending != [] && pending[|pending| - 1].code == CodeEnd then Ok(pending)
    else if t.Err? then Err
    else Ok(pending + t.value.ops)
  }

  lemma RestQueued(ops: seq<Op>, n: nat, t: Result<Output>)
    requires ops != [] && ops[|ops| - 1].code != CodeEnd
    ensures RestOf([], Prepend(ops, n, t)) == RestOf(ops, t)
  {
    assert t.Ok? ==> [] + (ops + t.value.ops) == ops + t.value.ops;
  }

  lemma RestAtEnd(s: seq<Op>, cur: Option<Labels>, t: Result<Output>)
    requires AllRaw(s)
    ensures s == [] ==> RestOf([], Transform(s, cur)).Err?
    ensures NextBlock(s).Bad? ==> RestOf([], Transform(s, cur)).Err?
    ensures s != [] && s[0].code == CodeEnd ==> RestOf([], Transform(s, cur)) == RestOf(EndOf(cur) + [s[0]], t)
  {
    if s != [] {
      var out := EndOf(cur) + [s[0]];
      assert [] + out == out && out[|out| - 1] == s[0];
    }
  }

  lemma RestPopped(pending: seq<Op>, t: Result<Output>)
    requires pending != [] && forall i :: 0 <= i < |pending| - 1 ==> pending[i].code != CodeEnd
    ensures pending[0].code == CodeEnd ==> RestOf(pending, t) == Ok([pending[0]])
    ensures pending[0].code != CodeEnd ==>
      var r, r1 := RestOf(pending, t), RestOf(pending[1..], t);
      (r.Err? <==> r1.Err?) && (r1.Ok? ==> r.value == [pending[0]] + r1.value)
  {
    assert pending == [pending[0]] + pending[1..];
    if pending[0].code == CodeEnd {
      assert |pending| == 1 && pending == [pending[0]];
    } else if t.Ok? {
      assert [pending[0]] + (pending[1..] + t.value.ops) == pending + t.value.ops;
    }
  }

  class Reader {
    const raw: seq<Op>           // the instructions that can be decoded from the file
    var pos: nat
    var pending: seq<Op>
    var first: bool
    var currentFunc: Arg
    var currentEntry: Arg

    ghost predicate Valid()
      reads this
    {
      && AllRaw(raw) && pos <= |raw|
      && forall i :: 0 <= i < |pending| - 1 ==> pending[i].code != CodeEnd
    }

    /** Decreases with every instruction that is given out. */
    ghost function Measure(): int
      reads this
    {
      4 * (|raw| - pos) + |pending|
    }

    ghost function Current(): Option<Labels>
      reads this
    {
      if first then None else Some(Labels(currentFunc, currentEntry))
    }

    /** Everything the reader will still give out. */
    ghost function Rest(): Result<seq<Op>>
      requires Valid()
      reads this
    {
      RestOf(pending, Transform(raw[pos..], Current()))
    }

    constructor (raw: seq<Op>)
      requires AllRaw(raw)
      ensures Valid() && this.raw == raw
      ensures Rest() == if Transform(raw, None).Err? then Err else Ok(Transform(raw, None).value.ops)
    {
      this.raw := raw;
      pos, pending, first := 0, [], true;
      currentFunc, currentEntry := NIL_ARG, NIL_ARG;
      new;
      assert raw[0..] == raw;
      assert Transform(raw, None).Ok? ==> [] + Transform(raw, None).value.ops == Transform(raw, None).value.ops;
    }

    /** `beamcodereader_read_next`, reduced to what it yields: an instruction or an error. */
    method ReadRaw() returns (r: Result<Op>)
      requires AllRaw(raw) && pos <= |raw|
      modifies this`pos
      ensures r.Err? <==> old(pos) == |raw|
      ensures r.Ok? ==> r.value == raw[old(pos)] && pos == old(pos) + 1
      ensures r.Err? ==> pos == old(pos)
    {
      if pos == |raw| {
        return Err;
      }
      r := Ok(raw[pos]);
      pos := pos + 1;
    }

    /** `synthesize_func_end`. */
    method SynthesizeFuncEnd()
      requires !first
      modifies this`pending
      ensures pending == EndOf(Current()) + old(pending)
    {
      pending := [Op(FuncEnd, [Arg(TagF, currentFunc.val), Arg(TagF, currentEntry.val)])] + pending;
    }

    /**
     A label has been read: take the instructions after it that tell whether a function begins,
     and leave in the pending queue what is to be given out.
     */
    method ReadLabel(op0: Op) returns (ok: bool)
      requires Valid() && pending == [] && 0 < pos && op0 == raw[pos - 1] && op0.code == Label
      modifies this
      ensures
        var s, n := raw[old(pos) - 1..], old(pos) - 1;
        var b := NextBlock(s);
        && (ok <==> !b.Bad?) && !b.Last?
        && (b.Pass? ==> pending == s[..b.n] && pos == n + b.n && Current() == old(Current()))
        && (b.Function? ==>
              && pending == EndOf(old(Current())) + [b.start, b.entry] && pos == n + b.n
              && Current() == Some(Labels(b.start.args[0], b.entry.args[0])))
    {
      hide NextBlock, EndOf, StartOp;
      ghost var n := pos - 1;
      LabelCases(raw[n..]);
      var r := ReadAfterLabel(op0);
      if r.Err? || r.value.code == CodeEnd { return false; }
      if r.value.code != FuncInfo {
        assert pending == raw[n..][..pos - n];
        return true;
      }
      ok := ReadEntry(r.value);
    }

    /** The instruction after a label and, perhaps, a line; the queue gets all of them. */
    method ReadAfterLabel(op0: Op) returns (r: Result<Op>)
      requires Valid() && pending == [] && 0 < pos && op0 == raw[pos - 1] && op0.code == Label
      modifies this`pos, this`pending
      ensures
        var n := old(pos) - 1;
        var k := AfterLabel(raw[n..]);
        && (r.Err? <==> n + k >= |raw|)
        && (r.Ok? ==> pos == n + k + 1 <= |raw| && r.value == raw[n + k] && pending == raw[n..pos])
    {
      ghost var n := pos - 1;
      pending := [op0];
      assert pending == raw[n..pos];
      r := ReadRaw();
      if r.Err? { return; }
      pending := pending + [r.value];
      SliceSnoc(raw, n, n + 1);
      if r.value.code == Line {
        r := ReadRaw();
        if r.Err? { return; }
        pending := pending + [r.value];
        SliceSnoc(raw, n, n + 2);
      }
    }

    /** The queue has a label and its `func_info`; the next instruction is to be the label of the entry. */
    method ReadEntry(op: Op) returns (ok: bool)
      requires Valid() && 2 <= |pending| <= 3 && |pending| <= pos && pending == raw[pos - |pending|..pos]
      requires pending[0].code == Label && (|pending| == 3 <==> pending[1].code == Line)
      requires op == pending[|pending| - 1] && op.code == FuncInfo
      modifies this
      ensures
        var n := old(pos - |pending|);
        var b := NextBlock(raw[n..]);
        && (ok <==> !b.Bad?) && (b.Bad? || b.Function?)
        && (b.Function? ==>
              && pending == EndOf(old(Current())) + [b.start, b.entry] && pos == n + b.n
              && Current() == Some(Labels(b.start.args[0], b.entry.args[0])))
    {
      ghost var s := raw[pos - |pending|..];
      assert s[..|pending|] == pending;
      var r := ReadRaw();
      if r.Err? { return false; }
      var entry := r.value;
      if entry.code != Label { return false; }
      if entry.args[0].tag != TagU { return false; }
      var funcLabel := pending[0].args[0];
      if funcLabel.tag != TagU { return false; }
      var line := NIL_ARG;
      if pending[1].code == Line {
        line := pending[1].args[0];
      }
      var start := Op(FuncStart, [funcLabel, line, op.args[0], op.args[1], op.args[2]]);
      pending := [start, entry];
      if !first {
        SynthesizeFuncEnd();
      }
      currentFunc, currentEntry, first := funcLabel, entry.args[0], false;
      return true;
    }

    /** The same, seen from the stream that the reader still gives out. */
    method FillFromLabel(op0: Op) returns (ok: bool)
      requires Valid() && pending == [] && 0 < pos && op0 == raw[pos - 1] && op0.code == Label
      modifies this
      ensures !ok ==> NextBlock(raw[old(pos) - 1..]).Bad?
      ensures ok ==>
        && Valid() && pending != [] && Measure() <= 4 * (|raw| - (old(pos) - 1))
        && Rest() == RestOf([], Transform(raw[old(pos) - 1..], old(Current())))
    {
      hide NextBlock, RestOf, Prepend, Transform;
      ghost var p, cur := pos - 1, Current();
      ok := ReadLabel(op0);
      if ok {
        ghost var n := NextBlock(raw[p..]).n;
        TransformStep(raw, p, n, cur);
        RestQueued(pending, n, Transform(raw[pos..], Current()));
      }
    }

    /** Decode instructions until there is one to give out. */
    method Fill() returns (ok: bool)
      requires Valid() && pending == []
      modifies this
      ensures !ok ==> old(Rest()).Err?
      ensures ok ==> Valid() && pending != [] && Rest() == old(Rest()) && Measure() <= old(Measure())
    {
      hide NextBlock, RestOf, Prepend, Transform;
      ghost var s, cur, p := raw[pos..], Current(), pos;
      BlockCases(s);
      RestAtEnd(s, cur, Err);
      var r := ReadRaw();
      if r.Err? { return false; }
      if r.value.code == Label {
        ok := FillFromLabel(r.value);
        return;
      }
      pending := [r.value];
      if r.value.code == CodeEnd {
        if !first {
          SynthesizeFuncEnd();
        }
        assert pending == EndOf(cur) + [s[0]];
        RestAtEnd(s, cur, Transform(raw[pos..], cur));
      } else {
        TransformStep(raw, p, 1, cur);
        assert s[..1] == pending;
        RestQueued(pending, 1, Transform(raw[pos..], cur));
      }
      return true;
    }

    /** `beamcodereader_next`. */
    method Next() returns (r: Result<Op>)
      requires Valid()
      modifies this
      ensures r.Err? ==> old(Rest()).Err?
      ensures r.Ok? && r.value.code == CodeEnd ==> old(Rest()) == Ok([r.value])
      ensures r.Ok? && r.value.code != CodeEnd ==>
        && Valid() && (Rest().Err? <==> old(Rest()).Err?)
        && (Rest().Ok? ==> old(Rest()).value == [r.value] + Rest().value)
        && Measure() < old(Measure())
    {
      hide Transform, RestOf;
      if pending == [] {
        var ok := Fill();
        if !ok { return Err; }
      }
      var op := pending[0];
      RestPopped(pending, Transform(raw[pos..], Current()));
      pending := pending[1..];
      return Ok(op);
    }
  }

  /**
   Reading a whole stream: what the caller gets up to the end of the code is the rewritten stream,
   and it gets an error exactly when the stream is not accepted.
   */
  method ReadAll(raw: seq<Op>) returns (r: Result<seq<Op>>)
    requires AllRaw(raw)
    ensures r.Err? <==> Transform(raw, None).Err?
    ensures r.Ok? ==> r.value == Transform(raw, None).value.ops
  {
    hide Transform, RestOf;
    var reader := new Reader(raw);
    ghost var all := reader.Rest();
    var out: seq<Op> := [];
    while true
      invariant fresh(reader) && reader.Valid() && reader.raw == raw
      invariant reader.Rest().Err? <==> all.Err?
      invariant reader.Rest().Ok? ==> all.value == out + reader.Rest().value
      decreases reader.Measure()
    {
      ghost var rest := reader.Rest();
      var next := reader.Next();
      if next.Err? {
        return Err;
      }
      if next.value.code == CodeEnd {
        return Ok(out + [next.value]);
      }
      assert rest.Ok? ==> out + ([next.value] + reader.Rest().value) == (out + [next.value]) + reader.Rest().value;
      out := out + [next.value];
    }
  }
}
