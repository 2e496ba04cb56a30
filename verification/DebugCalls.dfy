/**
 The calls of a debug-information item: validated forwards when the file is read, decoded
 backwards when the information is asked for.
 */
module DebugCalls {
  import opened Wrappers

  const MAX_ARG: int := 255
  const INT_RANGE: int := 0x1_0000_0000             // values of a C `int`
  const SMALL_RANGE: int := 0x1000_0000_0000_0000   // values of a small integer term

  /** A name: an atom, or a literal that has to be a bitstring of whole bytes. */
  datatype Name = Atom(a: nat) | Literal(index: nat)

  datatype Operand = Unsigned(val: nat) | AtomArg(a: nat) | LiteralArg(index: nat, isBytes: bool) | OtherArg

  datatype Term = Int(n: nat) | Named(name: Name)

  datatype Call = Remote(m: Term, f: Term, arity: nat) | Local(f: Term, arity: nat) | Variable(v: Term)

  // ---------------------------------------------------------------- forwards

  /** The conversion of an operand's value to a C `int`. */
  function AsInt(val: nat): int {
    var low := val % INT_RANGE;
    if low < INT_RANGE / 2 then low else low - INT_RANGE
  }

  function MakeSmall(val: nat): Term {
    Int(val % SMALL_RANGE)
  }

  predicate IsName(a: Operand) {
    a.AtomArg? || (a.LiteralArg? && a.isBytes)
  }

  function TermOf(a: Operand): Term {
    match a
    case Unsigned(val) => MakeSmall(val)
    case AtomArg(x) => Named(Atom(x))
    case LiteralArg(i, _) => Named(Literal(i))
    case OtherArg => Int(0)
  }

  function Terms(args: seq<Operand>): (r: seq<Term>)
    ensures |r| == |args| && forall i :: 0 <= i < |r| ==> r[i] == TermOf(args[i])
  {
    seq(|args|, i requires 0 <= i < |args| => TermOf(args[i]))
  }

  /** A call with names where names belong and an arity that functions can have. */
  predicate Normal(c: Call) {
    match c
    case Remote(m, f, arity) => m.Named? && f.Named? && arity <= MAX_ARG
    case Local(f, arity) => f.Named? && arity <= MAX_ARG
    case Variable(v) => v.Named?
  }

  /** How many operands the first call has. */
  function FirstWidth(args: seq<Operand>): (k: nat)
    requires args != []
    ensures 1 <= k <= 3
  {
    if !args[0].Unsigned? then 1 else if AsInt(args[0].val) <= MAX_ARG then 3 else 2
  }

  /**
   The first call of a list of operands: arity, module and function of a remote call; arity
   (increased by 256) and function of a local call; the name of a variable.
   */
  function FirstOf(args: seq<Operand>): (c: Option<Call>)
    requires args != []
    ensures c.Some? ==> FirstWidth(args) <= |args| && Normal(c.value)
  {
    if args[0].Unsigned? then
      var a := AsInt(args[0].val);
      if 0 <= a <= MAX_ARG && |args| >= 3 && IsName(args[1]) && IsName(args[2]) then
        Some(Remote(TermOf(args[1]), TermOf(args[2]), a))
      else if MAX_ARG < a <= 2 * MAX_ARG + 1 && |args| >= 2 && IsName(args[1]) then
        Some(Local(TermOf(args[1]), a - (MAX_ARG + 1)))
      else None
    else if args[0].LiteralArg? && args[0].isBytes then Some(Variable(TermOf(args[0])))
    else None
  }

  /** The calls that a list of operands stands for. */
  function Parse(args: seq<Operand>): Option<seq<Call>> {
    if args == [] then Some([])
    else if FirstOf(args).None? then None
    else Cons(FirstOf(args).value, Parse(args[FirstWidth(args)..]))
  }

  function Cons(c: Call, cs: Option<seq<Call>>): Option<seq<Call>> {
    if cs.None? then None else Some([c] + cs.value)
  }

  /** What the loop still accepts when it expects `expected` names first. */
  predicate Continues(args: seq<Operand>, expected: nat) {
    expected <= |args| && (forall i :: 0 <= i < expected ==> IsName(args[i])) && Parse(args[expected..]).Some?
  }

  lemma ContinuesName(args: seq<Operand>, expected: nat)
    requires args != [] && expected > 0
    ensures Continues(args, expected) <==> IsName(args[0]) && Continues(args[1..], expected - 1)
  {
    if expected <= |args| {
      assert args[expected..] == args[1..][expected - 1..];
      assert forall i :: 0 < i < expected ==> args[i] == args[1..][i - 1];
    }
  }

  lemma ContinuesCall(args: seq<Operand>, expected: nat)
    requires args != [] && args[0].Unsigned? && 1 <= expected <= 2
    requires var a := AsInt(args[0].val); if expected == 2 then 0 <= a <= MAX_ARG else MAX_ARG < a <= 2 * MAX_ARG + 1
    ensures Continues(args, 0) <==> Continues(args[1..], expected)
  {
    assert args[0..] == args;
    if expected < |args| {
      assert args[1..][expected..] == args[expected + 1..];
      assert forall i :: 0 <= i < expected ==> args[1..][i] == args[i + 1];
    }
  }

  lemma ContinuesVariable(args: seq<Operand>)
    requires args != [] && args[0].LiteralArg? && args[0].isBytes
    ensures Continues(args, 0) <==> Continues(args[1..], 0)
  {
    assert args[0..] == args && args[1..][0..] == args[1..];
  }

  /** Operands no call begins with. */
  lemma NoCall(args: seq<Operand>)
    requires args != [] && match args[0]
      case Unsigned(val) => AsInt(val) < 0 || AsInt(val) > 2 * MAX_ARG + 1
      case LiteralArg(_, isBytes) => !isBytes
      case _ => true
    ensures !Continues(args, 0)
  {
    assert args[0..] == args;
  }

  lemma ContinuesEnds(args: seq<Operand>, expected: nat)
    ensures Continues(args, 0) <==> Parse(args).Some?
    ensures Continues([], expected) <==> expected == 0
  {
    assert args[0..] == args;
  }

  /** `parse_debug_chunk_calls`. */
  method Validate(args: seq<Operand>) returns (r: Option<seq<Term>>)
    ensures r.Some? <==> Parse(args).Some?
    ensures r.Some? ==> r.value == Terms(args)
  {
    hide Parse, AsInt, Continues, TermOf;
    var expected := 0;
    var out: seq<Term> := [];
    assert args[0..] == args;
    ContinuesEnds(args, 0);
    for i := 0 to |args|
      invariant 0 <= expected <= 2 && (Parse(args).Some? <==> Continues(args[i..], expected))
      invariant out == Terms(args)[..i]
    {
      ghost var rest := args[i..];
      assert rest[1..] == args[i + 1..];
      if expected > 0 {
        ContinuesName(rest, expected);
      }
      match args[i] {
        case Unsigned(val) =>
          if expected > 0 {
            return None;
          }
          var arity := AsInt(val);
          if arity > MAX_ARG {
            arity := arity - (MAX_ARG + 1);
            expected := 1;
          } else {
            expected := 2;
          }
          if arity < 0 || arity > MAX_ARG {
            NoCall(rest);
            return None;
          }
          ContinuesCall(rest, expected);
        case AtomArg(_) =>
          if expected == 0 {
            NoCall(rest);
            return None;
          }
          expected := expected - 1;
        case LiteralArg(_, isBytes) =>
          if !isBytes {
            if expected == 0 {
              NoCall(rest);
            }
            return None;
          }
          if expected > 0 {
            expected := expected - 1;
          } else {
            ContinuesVariable(rest);
          }
        case OtherArg =>
          if expected == 0 {
            NoCall(rest);
          }
          return None;
      }
      out := out + [TermOf(args[i])];
      assert Terms(args)[..i + 1] == Terms(args)[..i] + [TermOf(args[i])];
    }
    assert args[|args|..] == [];
    ContinuesEnds(args, expected);
    if expected > 0 {
      return None;
    }
    return Some(out);
  }

  // ---------------------------------------------------------------- backwards

  /** How many terms at the end the decoder takes for the last call. */
  function Width(ts: seq<Term>): (k: nat)
    requires ts != []
    ensures 1 <= k <= 3 && k <= |ts|
  {
    var n := |ts|;
    if n > 1 && ts[n - 2].Int? then 2
    else if n > 2 && ts[n - 3].Int? && ts[n - 3].n <= MAX_ARG then 3
    else 1
  }

  /** The arity of a local call, as a small integer. */
  function LocalArity(n: nat): nat {
    (n - (MAX_ARG + 1)) % SMALL_RANGE
  }

  /** The call it makes of them. */
  function LastCall(ts: seq<Term>): Call
    requires ts != []
  {
    var n := |ts|;
    if n > 1 && ts[n - 2].Int? then Local(ts[n - 1], LocalArity(ts[n - 2].n))
    else if n > 2 && ts[n - 3].Int? && ts[n - 3].n <= MAX_ARG then Remote(ts[n - 2], ts[n - 1], ts[n - 3].n)
    else Variable(ts[n - 1])
  }

  /** What the decoder makes of a sequence of terms, beginning with the last call. */
  function Decoded(ts: seq<Term>): seq<Call> {
    if ts == [] then [] else Decoded(ts[..|ts| - Width(ts)]) + [LastCall(ts)]
  }

  lemma {:induction false} DecodeStep(ts: seq<Term>, pre: seq<Term>, left: nat, c: Call, calls: seq<Call>)
    requires pre != [] && pre <= ts && left == |pre| - Width(pre) && c == LastCall(pre)
    ensures Decoded(ts[..left]) + ([c] + calls) == Decoded(pre) + calls
  {
    hide LastCall, Width;
    assert pre[..left] == ts[..left];
    assert Decoded(ts[..left]) + [c] + calls == Decoded(ts[..left]) + ([c] + calls);
  }

  /**
   The loop of `code_get_debug_info_1` over the last `num` of an item's terms, which builds the list
   of calls from its end. It does not depend on the terms of the variables before them.
   */
  method DecodeCalls(all: seq<Term>, num: nat) returns (calls: seq<Call>)
    requires num <= |all|
    ensures calls == Decoded(all[|all| - num..])
  {
    hide Decoded, LocalArity;
    ghost var ts := all[|all| - num..];
    var left, tp := num, |all| - 1;
    calls := [];
    DecodedNone();
    assert ts[..num] == ts;
    while left != 0
      invariant 0 <= left <= num && tp == |all| - num + left - 1
      invariant Decoded(ts[..left]) + calls == Decoded(ts)
      decreases left
    {
      ghost var pre := ts[..left];
      var c;
      if left > 1 && all[tp - 1].Int? {
        c := Local(all[tp], LocalArity(all[tp - 1].n));
        left, tp := left - 2, tp - 2;
      } else if left > 2 && all[tp - 2].Int? && all[tp - 2].n <= MAX_ARG {
        c := Remote(all[tp - 1], all[tp], all[tp - 2].n);
        left, tp := left - 3, tp - 3;
      } else {
        c := Variable(all[tp]);
        left, tp := left - 1, tp - 1;
      }
      DecodeStep(ts, pre, left, c, calls);
      calls := [c] + calls;
    }
    assert ts[..0] == [];
  }

  lemma DecodedNone()
    ensures Decoded([]) == []
  {
  }

  // ---------------------------------------------------------------- both directions agree

  ghost predicate AllNormal(cs: seq<Call>) {
    forall i :: 0 <= i < |cs| ==> Normal(cs[i])
  }

  /** The terms that a call is written as. */
  function Encoded(c: Call): seq<Term> {
    match c
    case Remote(m, f, arity) => [Int(arity), m, f]
    case Local(f, arity) => [Int(arity + MAX_ARG + 1), f]
    case Variable(v) => [v]
  }

  function EncodedAll(cs: seq<Call>): seq<Term> {
    if cs == [] then [] else EncodedAll(cs[..|cs| - 1]) + Encoded(cs[|cs| - 1])
  }

  lemma EncodedEnd(ts: seq<Term>, c: Call)
    requires Normal(c) && (|ts| > 0 ==> ts[|ts| - 1].Named?)
    ensures var all := ts + Encoded(c);
      && |all| > 0 && all[|all| - 1].Named?
      && (|all| > 1 && all[|all| - 2].Int? ==> all[|all| - 2].n > MAX_ARG)
  {
  }

  /** A complete sequence of calls ends with a name, and an integer just before that is no remote arity. */
  lemma {:induction false} EncodedEnds(cs: seq<Call>)
    requires AllNormal(cs)
    ensures var ts := EncodedAll(cs);
      && (|ts| > 0 ==> ts[|ts| - 1].Named?)
      && (|ts| > 1 && ts[|ts| - 2].Int? ==> ts[|ts| - 2].n > MAX_ARG)
  {
    if cs != [] {
      var init, c := cs[..|cs| - 1], cs[|cs| - 1];
      EncodedEnds(init);
      assert Normal(c);
      EncodedEnd(EncodedAll(init), c);
    }
  }

  /** Decoding is the inverse of writing. */
  lemma {:induction false} DecodedEncoded(cs: seq<Call>)
    requires AllNormal(cs)
    ensures Decoded(EncodedAll(cs)) == cs
  {
    hide LastCall, Width, Encoded, Normal;
    if cs != [] {
      var init, c := cs[..|cs| - 1], cs[|cs| - 1];
      DecodedEncoded(init);
      EncodedEnds(init);
      DecodedLast(EncodedAll(init), c);
      assert cs == init + [c];
    }
  }

  lemma {:induction false} DecodedLast(ts: seq<Term>, c: Call)
    requires Normal(c)
    requires |ts| > 0 ==> ts[|ts| - 1].Named?
    requires |ts| > 1 && ts[|ts| - 2].Int? ==> ts[|ts| - 2].n > MAX_ARG
    ensures Decoded(ts + Encoded(c)) == Decoded(ts) + [c]
  {
    var all := ts + Encoded(c);
    var n := |all|;
    match c {
      case Remote(m, f, arity) =>
        assert all[n - 3] == Int(arity) && all[n - 2] == m && all[n - 1] == f;
      case Local(f, arity) =>
        assert all[n - 2] == Int(arity + MAX_ARG + 1) && all[n - 1] == f;
      case Variable(v) =>
        assert all[n - 1] == v;
        assert n > 1 ==> all[n - 2] == ts[|ts| - 1];
        assert n > 2 ==> all[n - 3] == ts[|ts| - 2];
    }
    assert Width(all) == |Encoded(c)| && LastCall(all) == c;
    assert all[..|ts|] == ts;
  }

  /** Every `Unsigned` operand survives as a small integer what it was as an `int`. */
  ghost predicate FitsInt(args: seq<Operand>) {
    forall i :: 0 <= i < |args| && args[i].Unsigned? ==> args[i].val % SMALL_RANGE < INT_RANGE
  }

  lemma {:induction false} ParsedNormal(args: seq<Operand>)
    requires Parse(args).Some?
    ensures AllNormal(Parse(args).value)
  {
    if args != [] {
      ParsedNormal(args[FirstWidth(args)..]);
    }
  }

  lemma SmallIsInt(val: nat)
    requires val % SMALL_RANGE < INT_RANGE
    ensures val % INT_RANGE == val % SMALL_RANGE
  {
    var q, r := val / SMALL_RANGE, val % SMALL_RANGE;
    assert val == (q * (SMALL_RANGE / INT_RANGE)) * INT_RANGE + r;
  }

  lemma FirstEncoded(args: seq<Operand>)
    requires args != [] && FirstOf(args).Some? && FitsInt(args)
    ensures Terms(args[..FirstWidth(args)]) == Encoded(FirstOf(args).value)
  {
    if args[0].Unsigned? {
      SmallIsInt(args[0].val);
    }
  }

  /** An accepted list whose operands fit is the written form of its calls. */
  lemma {:induction false} TermsEncode(args: seq<Operand>)
    requires Parse(args).Some? && FitsInt(args)
    ensures Terms(args) == EncodedAll(Parse(args).value)
    decreases |args|
  {
    hide FirstOf, FirstWidth, TermOf, Encoded, EncodedAll;
    EncodedNone();
    if args != [] {
      var k := FirstWidth(args);
      FirstEncoded(args);
      FitsRest(args, k);
      TermsEncode(args[k..]);
      EncodedFront(FirstOf(args).value, Parse(args[k..]).value);
      TermsSplit(args, k);
    }
  }

  lemma EncodedNone()
    ensures EncodedAll([]) == []
  {
  }

  lemma FitsRest(args: seq<Operand>, k: nat)
    requires FitsInt(args) && k <= |args|
    ensures FitsInt(args[k..])
  {
  }

  lemma TermsSplit(args: seq<Operand>, k: nat)
    requires k <= |args|
    ensures Terms(args) == Terms(args[..k]) + Terms(args[k..])
  {
  }

  lemma {:induction false} EncodedFront(c: Call, cs: seq<Call>)
    ensures EncodedAll([c] + cs) == Encoded(c) + EncodedAll(cs)
  {
    hide Encoded;
    var all := [c] + cs;
    if cs == [] {
      assert all[..|all| - 1] == [];
    } else {
      var init := cs[..|cs| - 1];
      EncodedFront(c, init);
      assert all[..|all| - 1] == [c] + init && all[|all| - 1] == cs[|cs| - 1];
      Associates(Encoded(c), EncodedAll(init), Encoded(cs[|cs| - 1]));
    }
  }

  /** If the decoder yields only proper calls, every integer was a proper arity. */
  lemma {:induction false} NormalDecoded(ts: seq<Term>, i: nat)
    requires AllNormal(Decoded(ts)) && i < |ts| && ts[i].Int? && ts[i].n < SMALL_RANGE
    ensures ts[i].n <= 2 * MAX_ARG + 1
  {
    var k, cs := Width(ts), Decoded(ts);
    var init := ts[..|ts| - k];
    assert cs == Decoded(init) + [LastCall(ts)];
    assert Normal(cs[|cs| - 1]);
    if i < |init| {
      forall j | 0 <= j < |Decoded(init)|
        ensures Normal(Decoded(init)[j])
      {
        assert Decoded(init)[j] == cs[j];
      }
      NormalDecoded(init, i);
    }
  }

  /**
   Decoding backwards recovers the calls that were accepted forwards exactly when every arity
   operand fits an `int`, up to the bits that a small integer drops.
   */
  lemma DecodingRecoversCalls(args: seq<Operand>)
    requires Parse(args).Some?
    ensures Decoded(Terms(args)) == Parse(args).value <==> FitsInt(args)
  {
    ParsedNormal(args);
    if FitsInt(args) {
      TermsEncode(args);
      DecodedEncoded(Parse(args).value);
    } else {
      var i :| 0 <= i < |args| && args[i].Unsigned? && args[i].val % SMALL_RANGE >= INT_RANGE;
      if AllNormal(Decoded(Terms(args))) {
        NormalDecoded(Terms(args), i);
      }
    }
  }

  /** An accepted call whose arity is decoded as something else. */
  lemma LargeArityWitness()
    ensures
      var args := [Unsigned(INT_RANGE + 5), AtomArg(1), AtomArg(2)];
      Parse(args) == Some([Remote(Named(Atom(1)), Named(Atom(2)), 5)]) && Decoded(Terms(args)) != Parse(args).value
  {
    var args := [Unsigned(INT_RANGE + 5), AtomArg(1), AtomArg(2)];
    assert AsInt(args[0].val) == 5;
    assert FirstOf(args) == Some(Remote(Named(Atom(1)), Named(Atom(2)), 5));
    assert Parse(args[FirstWidth(args)..]) == Some([]);
    assert Parse(args).value == [Remote(Named(Atom(1)), Named(Atom(2)), 5)];
    DecodingRecoversCalls(args);
  }

  // ---------------------------------------------------------------- what is accepted

  /** The operand that a name is written as. */
  function NameOperand(t: Term): Operand
    requires t.Named?
  {
    match t.name
    case Atom(a) => AtomArg(a)
    case Literal(i) => LiteralArg(i, true)
  }

  /** Calls that can be written; the name of a variable is not an atom. */
  predicate Writable(c: Call) {
    Normal(c) && (c.Variable? ==> c.v.name.Literal?)
  }

  ghost predicate AllWritable(cs: seq<Call>) {
    forall i :: 0 <= i < |cs| ==> Writable(cs[i])
  }

  /** The operands of a call as they are written: arity and names, or just the name. */
  function Written(c: Call): seq<Operand>
    requires Writable(c)
  {
    match c
    case Remote(m, f, arity) => [Unsigned(arity), NameOperand(m), NameOperand(f)]
    case Local(f, arity) => [Unsigned(arity + 256), NameOperand(f)]
    case Variable(v) => [NameOperand(v)]
  }

  function WrittenAll(cs: seq<Call>): seq<Operand>
    requires AllWritable(cs)
  {
    if cs == [] then [] else Written(cs[0]) + WrittenAll(cs[1..])
  }

  /** The operands as the validation sees them: of a number, only the bits of an `int`. */
  function Seen(a: Operand): Operand {
    if a.Unsigned? then Unsigned(a.val % INT_RANGE) else a
  }

  function SeenAll(args: seq<Operand>): (r: seq<Operand>)
    ensures |r| == |args| && forall i :: 0 <= i < |r| ==> r[i] == Seen(args[i])
  {
    seq(|args|, i requires 0 <= i < |args| => Seen(args[i]))
  }

  lemma IntOfSmall(val: nat)
    requires val <= 2 * MAX_ARG + 1
    ensures AsInt(val) == val
  {
  }

  lemma IntOfSeen(val: nat)
    ensures AsInt(val % INT_RANGE) == AsInt(val)
    ensures 0 <= AsInt(val) ==> AsInt(val) == val % INT_RANGE
  {
  }

  lemma NameRoundTrip(t: Term)
    requires t.Named?
    ensures IsName(NameOperand(t)) && TermOf(NameOperand(t)) == t
  {
  }

  lemma NameWritten(a: Operand)
    requires IsName(a)
    ensures TermOf(a).Named? && NameOperand(TermOf(a)) == a
  {
  }

  /** The first call of what was written. */
  lemma FirstWritten(c: Call, rest: seq<Operand>)
    requires Writable(c)
    ensures FirstOf(Written(c) + rest) == Some(c) && FirstWidth(Written(c) + rest) == |Written(c)|
  {
    hide AsInt, TermOf, NameOperand;
    match c
    case Remote(m, f, arity) =>
      IntOfSmall(arity);
      NameRoundTrip(m);
      NameRoundTrip(f);
    case Local(f, arity) =>
      IntOfSmall(arity + 256);
      NameRoundTrip(f);
    case Variable(v) =>
      NameRoundTrip(v);
      LiteralOperand(v);
  }

  lemma LiteralOperand(v: Term)
    requires v.Named? && v.name.Literal?
    ensures NameOperand(v).LiteralArg? && NameOperand(v).isBytes
  {
  }

  /** Every list of calls, written out, is accepted, and stands for these calls. */
  lemma {:induction false} WrittenIsAccepted(cs: seq<Call>)
    requires AllWritable(cs)
    ensures Parse(WrittenAll(cs)) == Some(cs)
  {
    hide FirstOf, FirstWidth, Written, Writable;
    if cs != [] {
      var rest := WrittenAll(cs[1..]);
      WrittenIsAccepted(cs[1..]);
      FirstWritten(cs[0], rest);
      assert WrittenAll(cs)[|Written(cs[0])|..] == rest;
      assert cs == [cs[0]] + cs[1..];
      WrittenNotEmpty(cs[0]);
    }
  }

  lemma WrittenNotEmpty(c: Call)
    requires Writable(c)
    ensures Written(c) != []
  {
  }

  lemma FirstSeen(args: seq<Operand>)
    requires args != [] && FirstOf(args).Some?
    ensures
      var c, k := FirstOf(args).value, FirstWidth(args);
      Writable(c) && k <= |args| && SeenAll(args[..k]) == Written(c)
  {
    hide AsInt, TermOf, NameOperand;
    if args[0].Unsigned? {
      IntOfSeen(args[0].val);
      NameWritten(args[1]);
      if FirstWidth(args) == 3 {
        NameWritten(args[2]);
      }
    } else {
      NameWritten(args[0]);
      LiteralTerm(args[0]);
    }
  }

  lemma LiteralTerm(a: Operand)
    requires a.LiteralArg?
    ensures TermOf(a).Named? && TermOf(a).name.Literal?
  {
  }

  /** And whatever is accepted is written that way, up to the bits of a number that an `int` drops. */
  lemma {:induction false} AcceptedIsWritten(args: seq<Operand>)
    requires Parse(args).Some?
    ensures AllWritable(Parse(args).value) && SeenAll(args) == WrittenAll(Parse(args).value)
    decreases |args|
  {
    hide FirstOf, FirstWidth, Seen, Written, Writable;
    if args != [] {
      var k := FirstWidth(args);
      FirstSeen(args);
      AcceptedIsWritten(args[k..]);
      assert SeenAll(args) == SeenAll(args[..k]) + SeenAll(args[k..]);
      var c, cs := FirstOf(args).value, Parse(args[k..]).value;
      assert Parse(args).value == [c] + cs && ([c] + cs)[1..] == cs;
    }
  }

  lemma SameFirst(args: seq<Operand>)
    requires args != []
    ensures FirstOf(SeenAll(args)) == FirstOf(args) && FirstWidth(SeenAll(args)) == FirstWidth(args)
  {
    hide AsInt;
    if args[0].Unsigned? {
      IntOfSeen(args[0].val);
    }
  }

  lemma {:induction false} SameParse(args: seq<Operand>)
    ensures Parse(SeenAll(args)) == Parse(args)
  {
    hide FirstOf, FirstWidth, Seen;
    if args != [] {
      SameFirst(args);
      if FirstOf(args).Some? {
        var k := FirstWidth(args);
        SameParse(args[k..]);
        assert SeenAll(args)[k..] == SeenAll(args[k..]);
      }
    }
  }

  /** Operands stand for a list of calls exactly if they are how these calls are written. */
  lemma AcceptedExactly(args: seq<Operand>, cs: seq<Call>)
    ensures Parse(args) == Some(cs) <==> AllWritable(cs) && SeenAll(args) == WrittenAll(cs)
  {
    hide Parse, Seen;
    if Parse(args).Some? {
      AcceptedIsWritten(args);
    }
    if AllWritable(cs) && SeenAll(args) == WrittenAll(cs) {
      WrittenIsAccepted(cs);
      SameParse(args);
    }
  }
}
