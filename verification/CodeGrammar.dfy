/**
 Which instruction streams the code reader accepts, and what it makes of them, by a grammar: a stream
 is a sequence of pieces, and then the end of the code or something that cannot go on.
 */
module CodeGrammar {
  import opened BeamOp
  import opened Wrappers
  import opened CodeReader

  // ---------------------------------------------------------------- the grammar

  /** The pieces of a stream: an instruction, a label with what follows it, or the header of a function. */
  datatype Piece =
    | Single(op: Op)
    | Labelled(mark: Op, line: Option<Op>, op: Op)
    | Header(mark: Op, line: Option<Op>, info: Op, entry: Op)

  predicate IsLabel(op: Op) {
    IsRaw(op) && op.code == Label
  }

  predicate IsLine(line: Option<Op>) {
    line.Some? ==> IsRaw(line.value) && line.value.code == Line
  }

  predicate Proper(p: Piece) {
    match p
    case Single(op) => IsRaw(op) && op.code != Label && op.code != CodeEnd
    case Labelled(mark, line, op) =>
      && IsLabel(mark) && IsLine(line) && IsRaw(op) && op.code != FuncInfo && op.code != CodeEnd
      && (line.None? ==> op.code != Line)
    case Header(mark, line, info, entry) =>
      && IsLabel(mark) && IsLine(line) && IsRaw(info) && info.code == FuncInfo && IsLabel(entry)
      && mark.args[0].tag == TagU && entry.args[0].tag == TagU
  }

  ghost predicate AllProper(ps: seq<Piece>) {
    forall i :: 0 <= i < |ps| ==> Proper(ps[i])
  }

  function Flat(p: Piece): seq<Op> {
    match p
    case Single(op) => [op]
    case Labelled(mark, line, op) => [mark] + line.ToSeq() + [op]
    case Header(mark, line, info, entry) => [mark] + line.ToSeq() + [info] + [entry]
  }

  function Flatten(ps: seq<Piece>): seq<Op> {
    if ps == [] then [] else Flat(ps[0]) + Flatten(ps[1..])
  }

  /** What a function begins with: its mark, its line or NIL, module, name and arity. */
  function StartOf(p: Piece): Op
    requires p.Header? && Proper(p)
  {
    var line := if p.line.Some? then p.line.value.args[0] else NIL_ARG;
    Op(FuncStart, [p.mark.args[0], line, p.info.args[0], p.info.args[1], p.info.args[2]])
  }

  function LabelsOf(p: Piece): Labels
    requires p.Header? && Proper(p)
  {
    Labels(p.mark.args[0], p.entry.args[0])
  }

  /** The output for the pieces and the end of the code. */
  function Rewritten(ps: seq<Piece>, end: Op, cur: Option<Labels>): seq<Op>
    requires AllProper(ps)
    decreases |ps|
  {
    if ps == [] then EndOf(cur) + [end]
    else if ps[0].Header? then
      EndOf(cur) + [StartOf(ps[0]), ps[0].entry] + Rewritten(ps[1..], end, Some(LabelsOf(ps[0])))
    else Flat(ps[0]) + Rewritten(ps[1..], end, cur)
  }

  /** Nothing can follow: the stream is out, or has a label that no piece can begin with. */
  predicate Stuck(tail: seq<Op>)
    requires AllRaw(tail)
  {
    || tail == []
    || (tail[0].code == Label &&
        var k := if 1 < |tail| && tail[1].code == Line then 2 else 1;
        || k >= |tail|                                                  // the stream ends
        || tail[k].code == CodeEnd                                      // the code ends
        || (tail[k].code == FuncInfo &&
            (|| k + 1 >= |tail| || tail[k + 1].code != Label            // no entry label
             || tail[0].args[0].tag != TagU || tail[k + 1].args[0].tag != TagU)))
  }

  predicate AtEnd(tail: seq<Op>) {
    tail != [] && tail[0].code == CodeEnd
  }

  // ---------------------------------------------------------------- the reader follows the grammar

  lemma FlatIsRaw(p: Piece)
    requires Proper(p)
    ensures AllRaw(Flat(p)) && 1 <= |Flat(p)| <= 4
  {
  }

  lemma {:induction false} FlattenIsRaw(ps: seq<Piece>)
    requires AllProper(ps)
    ensures AllRaw(Flatten(ps))
  {
    if ps != [] {
      FlatIsRaw(ps[0]);
      FlattenIsRaw(ps[1..]);
    }
  }

  /** The reader takes exactly the piece that the stream begins with. */
  lemma PieceIsBlock(p: Piece, tail: seq<Op>)
    requires Proper(p) && AllRaw(tail)
    ensures AllRaw(Flat(p) + tail)
    ensures NextBlock(Flat(p) + tail) ==
      if p.Header? then Function(|Flat(p)|, StartOf(p), p.entry) else Pass(|Flat(p)|)
  {
    FlatIsRaw(p);
    var raw := Flat(p) + tail;
    if p.Labelled? || p.Header? {
      assert raw[0] == p.mark && raw[1] == Flat(p)[1];
      if p.line.Some? {
        assert raw[1] == p.line.value && raw[2] == Flat(p)[2];
      }
    }
  }

  /** One piece of the stream. */
  lemma TransformPiece(p: Piece, tail: seq<Op>, cur: Option<Labels>)
    requires Proper(p) && AllRaw(tail)
    ensures AllRaw(Flat(p) + tail)
    ensures Transform(Flat(p) + tail, cur) ==
      if p.Header? then
        Prepend(EndOf(cur) + [StartOf(p), p.entry], |Flat(p)|, Transform(tail, Some(LabelsOf(p))))
      else Prepend(Flat(p), |Flat(p)|, Transform(tail, cur))
  {
    hide NextBlock, Proper, Prepend, EndOf;
    PieceIsBlock(p, tail);
    var raw, n := Flat(p) + tail, |Flat(p)|;
    assert raw[..n] == Flat(p) && raw[n..] == tail;
    if p.Header? {
      StartLabels(p);
    }
  }

  lemma StartLabels(p: Piece)
    requires p.Header? && Proper(p)
    ensures Labels(StartOf(p).args[0], p.entry.args[0]) == LabelsOf(p)
  {
  }

  lemma {:induction false} TransformPieces(ps: seq<Piece>, tail: seq<Op>, cur: Option<Labels>)
    requires AllProper(ps) && AllRaw(tail)
    ensures AllRaw(Flatten(ps) + tail)
    ensures AtEnd(tail) ==>
      Transform(Flatten(ps) + tail, cur) == Ok(Output(Rewritten(ps, tail[0], cur), |Flatten(ps)| + 1))
    ensures Stuck(tail) ==> Transform(Flatten(ps) + tail, cur) == Err
    decreases |ps|
  {
    hide Flat, Transform, Stuck, Proper, EndOf, AllRaw, Prepend;
    if ps == [] {
      TransformTail(tail, cur);
      assert Flatten(ps) + tail == tail;
    } else {
      var p, rest := ps[0], Flatten(ps[1..]) + tail;
      Associates(Flat(p), Flatten(ps[1..]), tail);
      TransformPieces(ps[1..], tail, if p.Header? then Some(LabelsOf(p)) else cur);
      TransformPiece(p, rest, cur);
      var head := if p.Header? then EndOf(cur) + [StartOf(p), p.entry] else Flat(p);
      if AtEnd(tail) {
        var out := Rewritten(ps[1..], tail[0], if p.Header? then Some(LabelsOf(p)) else cur);
        PrependOk(head, |Flat(p)|, out, |Flatten(ps[1..])| + 1);
      } else {
        PrependErr(head, |Flat(p)|);
      }
    }
  }

  lemma TransformTail(tail: seq<Op>, cur: Option<Labels>)
    requires AllRaw(tail)
    ensures AtEnd(tail) ==> Transform(tail, cur) == Ok(Output(EndOf(cur) + [tail[0]], 1))
    ensures Stuck(tail) ==> Transform(tail, cur) == Err
  {
  }

  lemma PrependOk(ops: seq<Op>, n: nat, out: seq<Op>, used: nat)
    ensures Prepend(ops, n, Ok(Output(out, used))) == Ok(Output(ops + out, n + used))
  {
  }

  lemma PrependErr(ops: seq<Op>, n: nat)
    ensures Prepend(ops, n, Err) == Err
  {
  }

  /** Every stream is a sequence of pieces, followed by the end of the code or stuck. */
  lemma {:induction false} Parse(raw: seq<Op>) returns (ps: seq<Piece>, tail: seq<Op>)
    requires AllRaw(raw)
    ensures AllProper(ps) && AllRaw(tail) && raw == Flatten(ps) + tail && (AtEnd(tail) || Stuck(tail))
    decreases |raw|
  {
    if AtEnd(raw) || Stuck(raw) {
      ps, tail := [], raw;
    } else {
      var p := FirstPiece(raw);
      var rest;
      rest, tail := Parse(raw[|Flat(p)|..]);
      ps := [p] + rest;
      assert ps[1..] == rest;
      Associates(Flat(p), Flatten(rest), tail);
    }
  }

  lemma FirstPiece(raw: seq<Op>) returns (p: Piece)
    requires AllRaw(raw) && !AtEnd(raw) && !Stuck(raw)
    ensures Proper(p) && 1 <= |Flat(p)| <= |raw| && raw == Flat(p) + raw[|Flat(p)|..]
  {
    if raw[0].code != Label {
      p := Single(raw[0]);
    } else {
      var line := if raw[1].code == Line then Some(raw[1]) else None;
      var k := if raw[1].code == Line then 2 else 1;
      if raw[k].code == FuncInfo {
        p := Header(raw[0], line, raw[k], raw[k + 1]);
        assert Flat(p) == raw[..k + 2];
      } else {
        p := Labelled(raw[0], line, raw[k]);
        assert Flat(p) == raw[..k + 1];
      }
    }
    assert raw == raw[..|Flat(p)|] + raw[|Flat(p)|..];
  }

  /**
   A stream is accepted exactly if it is a sequence of pieces with the end of the code after them, and
   then the output is what the pieces say.
   */
  lemma AcceptedExactly(raw: seq<Op>)
    requires AllRaw(raw)
    ensures Transform(raw, None).Ok? <==>
      exists ps: seq<Piece>, tail: seq<Op> :: AllProper(ps) && AtEnd(tail) && raw == Flatten(ps) + tail
    ensures forall ps: seq<Piece>, tail: seq<Op> :: AllProper(ps) && AtEnd(tail) && raw == Flatten(ps) + tail ==>
      Transform(raw, None) == Ok(Output(Rewritten(ps, tail[0], None), |Flatten(ps)| + 1))
  {
    hide Transform, Stuck, Flatten, Rewritten;
    forall ps: seq<Piece>, tail: seq<Op> | AllProper(ps) && AtEnd(tail) && raw == Flatten(ps) + tail
      ensures Transform(raw, None) == Ok(Output(Rewritten(ps, tail[0], None), |Flatten(ps)| + 1))
    {
      TailIsRaw(raw, ps, tail);
      TransformPieces(ps, tail, None);
    }
    var ps, tail := Parse(raw);
    TransformPieces(ps, tail, None);
  }

  /** And it is refused exactly if, after a sequence of pieces, it cannot go on. */
  lemma RefusedExactly(raw: seq<Op>)
    requires AllRaw(raw)
    ensures Transform(raw, None).Err? <==>
      exists ps: seq<Piece>, tail: seq<Op> ::
        AllProper(ps) && AllRaw(tail) && Stuck(tail) && raw == Flatten(ps) + tail
  {
    hide Transform, Stuck, Flatten, Rewritten;
    forall ps: seq<Piece>, tail: seq<Op> | AllProper(ps) && AllRaw(tail) && Stuck(tail) && raw == Flatten(ps) + tail
      ensures Transform(raw, None).Err?
    {
      TransformPieces(ps, tail, None);
    }
    var ps, tail := Parse(raw);
    TransformPieces(ps, tail, None);
  }

  /**
   Reading a whole stream, by the grammar: an error exactly if it is not a sequence of pieces and then
   the end of the code, and otherwise the output that the pieces give.
   */
  method ReadStream(raw: seq<Op>) returns (r: Result<seq<Op>>)
    requires AllRaw(raw)
    ensures r.Ok? <==>
      exists ps: seq<Piece>, tail: seq<Op> :: AllProper(ps) && AtEnd(tail) && raw == Flatten(ps) + tail
    ensures forall ps: seq<Piece>, tail: seq<Op> :: AllProper(ps) && AtEnd(tail) && raw == Flatten(ps) + tail ==>
      r == Ok(Rewritten(ps, tail[0], None))
  {
    hide Transform, Flatten, Rewritten;
    r := ReadAll(raw);
    AcceptedExactly(raw);
  }

  lemma TailIsRaw(raw: seq<Op>, ps: seq<Piece>, tail: seq<Op>)
    requires AllRaw(raw) && raw == Flatten(ps) + tail
    ensures AllRaw(tail)
  {
    forall i | 0 <= i < |tail|
      ensures IsRaw(tail[i])
    {
      assert tail[i] == raw[|Flatten(ps)| + i];
    }
  }

  // ---------------------------------------------------------------- modules as the compiler writes them

  /** A function: its header, and a body that has no header of its own. */
  datatype Func = Func(header: Piece, body: seq<Op>)

  /** No func_info and no end of code; and the body does not stop at a mark, or at a line after one. */
  predicate IsBody(body: seq<Op>) {
    && (forall i :: 0 <= i < |body| ==> IsRaw(body[i]) && body[i].code != FuncInfo && body[i].code != CodeEnd)
    && var n := |body|;
       && (n > 0 ==> body[n - 1].code != Label)
       && (n > 1 && body[n - 1].code == Line ==> body[n - 2].code != Label)
  }

  predicate IsFunc(f: Func) {
    f.header.Header? && Proper(f.header) && IsBody(f.body)
  }

  ghost predicate AllFuncs(fs: seq<Func>) {
    forall i :: 0 <= i < |fs| ==> IsFunc(fs[i])
  }

  /** The functions one after the other, as they are in the file. */
  function Code(fs: seq<Func>): seq<Op> {
    if fs == [] then [] else Flat(fs[0].header) + fs[0].body + Code(fs[1..])
  }

  /** The functions one after the other, each from its start to its end. */
  function Bounded(fs: seq<Func>): seq<Op>
    requires AllFuncs(fs)
  {
    if fs == [] then []
    else
      [StartOf(fs[0].header), fs[0].header.entry] + fs[0].body + EndOf(Some(LabelsOf(fs[0].header)))
      + Bounded(fs[1..])
  }

  lemma BodyNotStuck(body: seq<Op>, tail: seq<Op>)
    requires IsBody(body) && body != [] && AllRaw(tail)
    ensures AllRaw(body + tail) && (NextBlock(body + tail).Pass?) && NextBlock(body + tail).n <= |body|
  {
    var raw := body + tail;
    assert forall i :: 0 <= i < |body| ==> raw[i] == body[i];
  }

  lemma BodyRest(body: seq<Op>, n: nat)
    requires IsBody(body) && n <= |body|
    ensures IsBody(body[n..])
  {
    var rest := body[n..];
    assert forall i :: 0 <= i < |rest| ==> rest[i] == body[n + i];
  }

  /** A body passes through as it is. */
  lemma {:induction false} BodyPasses(body: seq<Op>, tail: seq<Op>, cur: Option<Labels>)
    requires IsBody(body) && AllRaw(tail)
    ensures AllRaw(body + tail) && Transform(body + tail, cur) == Prepend(body, |body|, Transform(tail, cur))
    decreases |body|
  {
    hide NextBlock, IsBody, IsRaw;
    var raw := body + tail;
    if body == [] {
      assert raw == tail;
      PrependNone(Transform(tail, cur));
    } else {
      BodyNotStuck(body, tail);
      var n := NextBlock(raw).n;
      BodyRest(body, n);
      BodyPasses(body[n..], tail, cur);
      assert raw[..n] == body[..n] && raw[n..] == body[n..] + tail;
      PrependTwice(body, n, Transform(tail, cur));
    }
  }

  lemma PrependNone(t: Result<Output>)
    ensures Prepend([], 0, t) == t
  {
    assert t.Ok? ==> [] + t.value.ops == t.value.ops;
  }

  lemma PrependTwice(body: seq<Op>, n: nat, t: Result<Output>)
    requires n <= |body|
    ensures Prepend(body[..n], n, Prepend(body[n..], |body[n..]|, t)) == Prepend(body, |body|, t)
  {
    if t.Ok? {
      Associates(body[..n], body[n..], t.value.ops);
      assert body[..n] + body[n..] == body;
    }
  }

  lemma {:induction false} CodeIsRaw(fs: seq<Func>)
    requires AllFuncs(fs)
    ensures AllRaw(Code(fs))
  {
    if fs != [] {
      FlatIsRaw(fs[0].header);
      CodeIsRaw(fs[1..]);
    }
  }

  /** One function in front of the rest of the code. */
  lemma TransformFunc(f: Func, tail: seq<Op>, cur: Option<Labels>)
    requires IsFunc(f) && AllRaw(tail)
    ensures AllRaw(Flat(f.header) + f.body + tail)
    ensures
      var n := |Flat(f.header) + f.body|;
      Transform(Flat(f.header) + f.body + tail, cur) ==
        Prepend(EndOf(cur) + [StartOf(f.header), f.header.entry] + f.body, n, Transform(tail, Some(LabelsOf(f.header))))
  {
    hide Flat, Transform, Proper, EndOf, IsBody;
    Associates(Flat(f.header), f.body, tail);
    var cur1 := Some(LabelsOf(f.header));
    BodyPasses(f.body, tail, cur1);
    TransformPiece(f.header, f.body + tail, cur);
    if Transform(tail, cur1).Ok? {
      Associates(EndOf(cur) + [StartOf(f.header), f.header.entry], f.body, Transform(tail, cur1).value.ops);
    }
  }

  /**
   Any list of functions, with lines or without, is accepted, and comes out with each function between
   its start and its end.
   */
  lemma {:induction false} ModuleIsAccepted(fs: seq<Func>, tail: seq<Op>, cur: Option<Labels>)
    requires AllFuncs(fs) && AllRaw(tail) && AtEnd(tail)
    ensures AllRaw(Code(fs) + tail)
    ensures Transform(Code(fs) + tail, cur) == Ok(Output(EndOf(cur) + Bounded(fs) + [tail[0]], |Code(fs)| + 1))
    decreases |fs|
  {
    hide Flat, Transform, EndOf, IsBody, Proper, AllRaw, Prepend;
    if fs == [] {
      TransformTail(tail, cur);
      assert Code(fs) + tail == tail && EndOf(cur) + [] == EndOf(cur);
    } else {
      var f, code1, cur1 := fs[0], Code(fs[1..]), Some(LabelsOf(fs[0].header));
      Associates(Flat(f.header) + f.body, code1, tail);
      ModuleIsAccepted(fs[1..], tail, cur1);
      TransformFunc(f, code1 + tail, cur);
      var head := EndOf(cur) + [StartOf(f.header), f.header.entry] + f.body;
      PrependOk(head, |Flat(f.header) + f.body|, EndOf(cur1) + Bounded(fs[1..]) + [tail[0]], |code1| + 1);
      BoundedFirst(fs, tail[0], cur);
    }
  }

  lemma BoundedFirst(fs: seq<Func>, end: Op, cur: Option<Labels>)
    requires AllFuncs(fs) && fs != []
    ensures
      var f, cur1 := fs[0], Some(LabelsOf(fs[0].header));
      EndOf(cur) + Bounded(fs) + [end] ==
        EndOf(cur) + [StartOf(f.header), f.header.entry] + f.body + (EndOf(cur1) + Bounded(fs[1..]) + [end])
  {
    hide EndOf, IsBody, Proper;
    var f, cur1 := fs[0], Some(LabelsOf(fs[0].header));
    Regroup(EndOf(cur), [StartOf(f.header), f.header.entry], f.body, EndOf(cur1), Bounded(fs[1..]), [end]);
  }

  lemma Regroup(a: seq<Op>, b: seq<Op>, c: seq<Op>, d: seq<Op>, e: seq<Op>, f: seq<Op>)
    ensures a + (b + c + d + e) + f == a + b + c + (d + e + f)
  {
    Associates(a, b + c + d + e, f);
    Associates(b + c + d, e, f);
    Associates(b + c, d, e + f);
    Associates(d, e, f);
    Associates(a, b, c);
    Associates(a, b + c, d + e + f);
  }
}
