/**
 The compact numbers of a BEAM file: a tag and a number in one, two or more bytes; and the
 conversion of large integers to sign and magnitude.
 */
module CompactNumber {
  import opened Wrappers

  const TAG_u: nat := 0
  const TAG_i: nat := 1
  const TAG_o: nat := 8
  const SINT32_MAX: int := 0x7FFF_FFFF
  const WORD: int := 0x1_0000_0000_0000_0000        // values of a 64-bit word
  const SMALL_LIMIT: int := 0x800_0000_0000_0000    // small integers have 60 bits

  function Pow256(n: nat): (p: nat)
    ensures p >= 1
  {
    if n == 0 then 1 else 256 * Pow256(n - 1)
  }

  // ---------------------------------------------------------------- what bytes denote

  /** Bytes as an unsigned number, most significant byte first. */
  function Big(s: seq<Byte>): nat {
    if s == [] then 0 else Big(s[..|s| - 1]) * 256 + s[|s| - 1]
  }

  /** Bytes as a two's complement number. */
  function Signed(s: seq<Byte>): int {
    if s != [] && s[0] >= 128 then Big(s) - Pow256(|s|) else Big(s)
  }

  /** Bytes as an unsigned number, least significant byte first. */
  function Little(s: seq<Byte>): nat {
    if s == [] then 0 else Little(s[..|s| - 1]) + s[|s| - 1] * Pow256(|s| - 1)
  }

  lemma {:induction false} BigBound(s: seq<Byte>)
    ensures Big(s) < Pow256(|s|)
    ensures s != [] ==> (Big(s) >= 128 * Pow256(|s| - 1) <==> s[0] >= 128)
  {
    if s != [] {
      var init := s[..|s| - 1];
      BigBound(init);
    }
  }

  lemma {:induction false} LittleCons(x: Byte, t: seq<Byte>)
    ensures Little([x] + t) == x + 256 * Little(t)
  {
    var s := [x] + t;
    if t == [] {
      assert s[..0] == [];
    } else {
      var n := |t|;
      LittleCons(x, t[..n - 1]);
      assert s[..n] == [x] + t[..n - 1];
      assert t[n - 1] * Pow256(n) == 256 * (t[n - 1] * Pow256(n - 1));
    }
  }

  function Reversed(s: seq<Byte>): (r: seq<Byte>)
    ensures |r| == |s| && forall i :: 0 <= i < |s| ==> r[i] == s[|s| - 1 - i]
  {
    seq(|s|, i requires 0 <= i < |s| => s[|s| - 1 - i])
  }

  lemma {:induction false} ReversedDenotes(s: seq<Byte>)
    ensures Little(Reversed(s)) == Big(s)
  {
    if s != [] {
      var init := s[..|s| - 1];
      ReversedDenotes(init);
      LittleCons(s[|s| - 1], Reversed(init));
      assert Reversed(s) == [s[|s| - 1]] + Reversed(init);
    }
  }

  // ---------------------------------------------------------------- one number

  /** How a number is written: the byte with the tag alone, with one more byte, or with `data` after it. */
  datatype Form = Bad | Short(used: nat) | Medium(used: nat) | Long(used: nat, data: seq<Byte>)

  function FormOf(s: seq<Byte>): (f: Form)
    ensures !f.Bad? ==> 0 < f.used <= |s|
    ensures f.Long? ==> 2 <= |f.data| < f.used
    decreases |s|, 0
  {
    if s == [] then Bad
    else if s[0] / 8 % 2 == 0 then Short(1)
    else if s[0] / 16 % 2 == 0 then (if |s| >= 2 then Medium(2) else Bad)
    else if s[0] / 32 < 7 then LongForm(s, 1, s[0] / 32 + 2)
    else
      var prefix := FormOf(s[1..]);
      if prefix.Bad? || s[1] % 8 != TAG_u then Bad
      else if UnsignedValue(s[1..]) >= SINT32_MAX - 9 || (prefix.Long? && |prefix.data| > 8) then Bad
      else LongForm(s, 1 + prefix.used, UnsignedValue(s[1..]) + 9)
  }

  function LongForm(s: seq<Byte>, at: nat, count: nat): Form
    requires at >= 1 && count >= 2
  {
    if at + count <= |s| then Long(at + count, s[at..at + count]) else Bad
  }

  /** The number that is written, taken as unsigned. */
  function UnsignedValue(s: seq<Byte>): nat
    decreases |s|, 1
  {
    match FormOf(s)
    case Bad => 0
    case Short(_) => s[0] / 16
    case Medium(_) => s[0] / 32 * 256 + s[1]
    case Long(_, data) => Big(data)
  }

  function TagOf(s: seq<Byte>): nat
    requires s != []
  {
    s[0] % 8
  }

  /** The number that is written: long integers are in two's complement, everything else is unsigned. */
  function Value(s: seq<Byte>): int
    requires s != []
  {
    if TagOf(s) == TAG_i && FormOf(s).Long? then Signed(FormOf(s).data) else UnsignedValue(s)
  }

  /** The decoder's result: a word, or, if `size` is not zero, the bytes of a number that was not unpacked. */
  datatype Tagged = Tagged(tag: nat, size: nat, word: int, data: seq<Byte>)

  predicate IsSmall(x: int) {
    -SMALL_LIMIT <= x < SMALL_LIMIT
  }

  /** The bytes were unpacked into a word. */
  predicate Unpacked(s: seq<Byte>)
    requires s != []
  {
    var f := FormOf(s);
    !f.Long? || (|f.data| <= 8 && if TagOf(s) == TAG_i then IsSmall(Value(s)) else Value(s) < WORD / 2)
  }

  /** What decoding has to give for the number at the beginning of `s`. */
  predicate Reads(s: seq<Byte>, r: Tagged)
    requires s != []
  {
    if Unpacked(s) then r == Tagged(TagOf(s), 0, Value(s), [])
    else
      var data := FormOf(s).data;
      FormOf(s).Long? && r == Tagged(if TagOf(s) == TAG_i then TAG_i else TAG_o, |data|, 0, data)
  }

  // ---------------------------------------------------------------- unpacking

  /** The conversion of an unsigned word to a signed one. */
  function AsSigned(w: int): int {
    if w < WORD / 2 then w else w - WORD
  }

  /** `unpack_varint`; the bits that it ors together are disjoint, so it adds them here. */
  method UnpackVarint(data: seq<Byte>) returns (r: Option<int>)
    ensures r.Some? <==> |data| <= 8
    ensures r.Some? ==> r.value == AsSigned(Big(data)) && 0 <= Big(data) < WORD
  {
    hide Big, Pow256;
    if |data| > 8 {
      return None;
    }
    var size := |data|;
    var res: nat := 0;
    UnpackEnds(data);
    assert data[..0] == [];
    for i := 0 to size
      invariant res == Big(data[..i]) * Pow256(size - i)
    {
      UnpackStep(data, i);
      res := data[i] * Pow256(size - i - 1) + res;
    }
    assert data[..size] == data;
    return Some(AsSigned(res));
  }

  lemma UnpackEnds(data: seq<Byte>)
    requires |data| <= 8
    ensures Big([]) * Pow256(|data|) == 0 && Big(data) * Pow256(0) == Big(data) && Big(data) < WORD
  {
    BigBound(data);
    PowBound(|data|);
  }

  lemma UnpackStep(data: seq<Byte>, i: nat)
    requires i < |data|
    ensures
      var k := |data| - i - 1;
      Big(data[..i + 1]) * Pow256(k) == data[i] * Pow256(k) + Big(data[..i]) * Pow256(k + 1)
  {
    assert data[..i + 1][..i] == data[..i];
    Distribute(Big(data[..i]), data[i], Pow256(|data| - i - 1));
  }

  lemma Distribute(a: nat, b: nat, p: nat)
    ensures (a * 256 + b) * p == b * p + a * (256 * p)
  {
  }

  lemma PowBound(n: nat)
    requires n <= 8
    ensures Pow256(n) * Pow256(8 - n) == WORD && Pow256(n) <= WORD
  {
    assert Pow256(1) == 0x100 && Pow256(2) == 0x1_0000 && Pow256(3) == 0x100_0000 && Pow256(4) == 0x1_0000_0000;
    assert Pow256(5) == 0x100_0000_0000 && Pow256(6) == 0x1_0000_0000_0000;
    assert Pow256(7) == 0x100_0000_0000_0000 && Pow256(8) == WORD;
  }

  /** Shifting a word left and, as a signed one, right again by `8 - count` bytes. */
  function SignExtended(word: int, count: nat): int
    requires count <= 8
  {
    var p := Pow256(8 - count);
    AsSigned((word * p) % WORD) / p
  }

  lemma SignExtendedDenotes(data: seq<Byte>)
    requires 2 <= |data| <= 8
    ensures SignExtended(AsSigned(Big(data)), |data|) == Signed(data)
  {
    var n, u := |data|, Big(data);
    BigBound(data);
    PowBound(n);
    var p, q := Pow256(8 - n), Pow256(n - 1);
    Regroup(n);
    ShiftBack(u, p, q);
    if n < 8 {
      PowBound(n + 1);
      assert Pow256(n + 1) == 256 * Pow256(n);
      assert AsSigned(u) == u;
    } else {
      assert (AsSigned(u) * p) % WORD == u;
    }
  }

  lemma Regroup(n: nat)
    requires 1 <= n <= 8
    ensures Pow256(n) == 256 * Pow256(n - 1) && 256 * Pow256(n - 1) * Pow256(8 - n) == WORD
  {
    PowBound(n);
  }

  /** With room for `256 * q` values in a word of `256 * q * p`. */
  lemma ShiftBack(u: nat, p: nat, q: nat)
    requires p > 0 && 256 * q * p == WORD && u < 256 * q
    ensures u * p < WORD && AsSigned((u * p) % WORD) / p == if u >= 128 * q then u - 256 * q else u
  {
    HalfWord(q, p);
    ShiftBackBy(u, p, 128 * q);
  }

  lemma ShiftBackBy(u: nat, p: nat, half: nat)
    requires p > 0 && half * p == WORD / 2 && u < 2 * half
    ensures u * p < WORD && AsSigned((u * p) % WORD) / p == if u >= half then u - 2 * half else u
  {
    Twice(half, p);
    Scale(u, 2 * half, p);
    SignedWord(u * p);
    if u >= half {
      Scale(half - 1, u, p);
      Spread(u, 2 * half, p);
      Unscale(u - 2 * half, p);
    } else {
      Scale(u, half, p);
      Unscale(u, p);
    }
  }

  lemma SignedWord(x: nat)
    requires x < WORD
    ensures AsSigned(x % WORD) == if x >= WORD / 2 then x - WORD else x
  {
  }

  lemma Scale(a: int, b: int, p: nat)
    requires p > 0 && a < b
    ensures a * p < b * p && (a + 1) * p <= b * p
  {
  }

  lemma Twice(a: int, p: nat)
    ensures (2 * a) * p == 2 * (a * p)
  {
  }

  lemma Spread(a: int, b: int, p: nat)
    ensures (a - b) * p == a * p - b * p
  {
  }

  lemma SmallMultiple(d: int, p: nat)
    requires 0 <= d * p < p
    ensures d == 0
  {
    if d > 0 {
      Scale(0, d, p);
    } else if d < 0 {
      Scale(d, 0, p);
    }
  }

  lemma Unscale(a: int, p: nat)
    requires p > 0
    ensures (a * p) / p == a
  {
    var x := a * p;
    var q := x / p;
    assert x == q * p + x % p;
    Spread(a, q, p);
    SmallMultiple(a - q, p);
  }

  lemma HalfWord(q: nat, p: nat)
    requires 256 * q * p == WORD
    ensures (128 * q) * p == WORD / 2 && (256 * q) * p == WORD
  {
    assert 256 * q * p == 2 * ((128 * q) * p);
  }

  // ---------------------------------------------------------------- the decoder

  lemma ShortForms(s: seq<Byte>)
    ensures s == [] ==> FormOf(s).Bad?
    ensures s != [] && s[0] / 8 % 2 == 0 ==> FormOf(s) == Short(1) && Reads(s, Tagged(s[0] % 8, 0, s[0] / 16, []))
    ensures s != [] && s[0] / 8 % 2 == 1 && s[0] / 16 % 2 == 0 ==>
      if |s| < 2 then FormOf(s).Bad?
      else FormOf(s) == Medium(2) && Reads(s, Tagged(s[0] % 8, 0, (s[0] as int) / 32 * 256 + s[1], []))
    ensures s != [] && s[0] / 8 % 2 == 1 && s[0] / 16 % 2 == 1 && s[0] / 32 < 7 ==>
      FormOf(s) == LongForm(s, 1, s[0] / 32 + 2)
  {
  }

  /** What follows from the number that gives the size. */
  lemma PrefixedForm(s: seq<Byte>, prefix: Option<Tagged>)
    requires s != [] && s[0] / 8 % 2 == 1 && s[0] / 16 % 2 == 1 && s[0] / 32 == 7
    requires prefix.None? <==> FormOf(s[1..]).Bad?
    requires prefix.Some? ==> s[1..] != [] && Reads(s[1..], prefix.value)
    ensures
      if prefix.None? || prefix.value.tag != TAG_u || prefix.value.word >= SINT32_MAX - 9 then FormOf(s).Bad?
      else prefix.value.word >= 0 && FormOf(s) == LongForm(s, 1 + FormOf(s[1..]).used, prefix.value.word + 9)
  {
    if prefix.Some? {
      assert s[1..][0] == s[1];
    }
  }

  /** `BeamReader`. */
  class BeamReader {
    const data: seq<Byte>
    var head: nat

    ghost predicate Valid()
      reads this
    {
      head <= |data|
    }

    constructor (data: seq<Byte>)
      ensures Valid() && this.data == data && head == 0
    {
      this.data, head := data, 0;
    }

    method ReadU8() returns (r: Option<Byte>)
      requires Valid()
      modifies this`head
      ensures Valid() && (r.Some? <==> old(head) < |data|)
      ensures r.Some? ==> r.value == data[old(head)] && head == old(head) + 1
      ensures r.None? ==> head == old(head)
    {
      if |data| - head < 1 {
        return None;
      }
      r := Some(data[head]);
      head := head + 1;
    }

    method ReadBytes(size: nat) returns (r: Option<seq<Byte>>)
      requires Valid()
      modifies this`head
      ensures Valid() && (r.Some? <==> old(head) + size <= |data|)
      ensures r.Some? ==> r.value == data[old(head)..old(head) + size] && head == old(head) + size
      ensures r.None? ==> head == old(head)
    {
      if |data| - head < size {
        return None;
      }
      r := Some(data[head..head + size]);
      head := head + size;
    }

    /**
     `beamreader_read_tagged`: an error exactly when the bytes are malformed; otherwise the head
     moves past the number and the result is what the bytes denote.
     */
    method ReadTagged() returns (r: Option<Tagged>)
      requires Valid()
      modifies this`head
      ensures Valid() && old(head) <= head
      ensures r.None? <==> FormOf(data[old(head)..]).Bad?
      ensures r.Some? ==> Reads(data[old(head)..], r.value) && head == old(head) + FormOf(data[old(head)..]).used
      decreases |data| - head, 0
    {
      hide FormOf, Reads;
      ShortForms(data[head..]);
      var code := ReadU8();
      if code.None? {
        return None;
      }
      var lenCode: nat := code.value;
      if lenCode / 8 % 2 == 0 {
        return Some(Tagged(lenCode % 8, 0, lenCode / 16, []));
      }
      if lenCode / 16 % 2 == 0 {
        var extra := ReadU8();
        if extra.None? {
          return None;
        }
        return Some(Tagged(lenCode % 8, 0, lenCode / 32 * 256 + extra.value, []));
      }
      r := ReadLong(code.value);
    }

    /** The long form, after its first byte. */
    method ReadLong(lenCode: Byte) returns (r: Option<Tagged>)
      requires Valid() && 0 < head && lenCode == data[head - 1] && lenCode / 8 % 2 == 1 && lenCode / 16 % 2 == 1
      modifies this`head
      ensures Valid() && old(head) <= head
      ensures r.None? <==> FormOf(data[old(head) - 1..]).Bad?
      ensures r.Some? ==> Reads(data[old(head) - 1..], r.value)
      ensures r.Some? ==> head == old(head) - 1 + FormOf(data[old(head) - 1..]).used
      decreases |data| - head, 2
    {
      hide FormOf, Reads;
      ghost var s, h := data[head - 1..], head - 1;
      var count := ReadCount(lenCode);
      if count.None? {
        return None;
      }
      var bytes := ReadBytes(count.value);
      if bytes.None? {
        return None;
      }
      assert bytes.value == s[head - h - count.value..head - h];
      r := Interpret(lenCode % 8, bytes.value, s);
    }

    /** The number of bytes of the long form. */
    method ReadCount(lenCode: Byte) returns (count: Option<nat>)
      requires Valid() && 0 < head && lenCode == data[head - 1] && lenCode / 8 % 2 == 1 && lenCode / 16 % 2 == 1
      modifies this`head
      ensures Valid() && old(head) <= head
      ensures var s := data[old(head) - 1..];
        if count.None? then FormOf(s).Bad?
        else count.value >= 2 && FormOf(s) == LongForm(s, head - old(head) + 1, count.value)
      decreases |data| - head, 1
    {
      hide FormOf, Reads;
      ghost var s := data[head - 1..];
      ShortForms(s);
      if lenCode / 32 < 7 {
        return Some(lenCode / 32 + 2);
      }
      assert s[1..] == data[head..];
      var prefix := ReadTagged();
      PrefixedForm(s, prefix);
      if prefix.None? || prefix.value.tag != TAG_u || prefix.value.word >= SINT32_MAX - 9 {
        return None;
      }
      return Some(prefix.value.word + 9);
    }

    /** The end of the decoder: unpack the bytes into a word if possible. */
    static method Interpret(tag: nat, data: seq<Byte>, ghost s: seq<Byte>) returns (r: Option<Tagged>)
      requires s != [] && FormOf(s).Long? && FormOf(s).data == data && tag == TagOf(s)
      ensures r.Some? && Reads(s, r.value)
    {
      var tag1 := tag;
      var word := UnpackVarint(data);
      if word.Some? {
        if tag == TAG_i {
          SignExtendedDenotes(data);
          var extended := SignExtended(word.value, |data|);
          if IsSmall(extended) {
            return Some(Tagged(tag, 0, extended, []));
          }
        } else if word.value >= 0 {
          return Some(Tagged(tag, 0, word.value, []));
        }
      }
      if tag != TAG_i {
        tag1 := TAG_o;
      }
      return Some(Tagged(tag1, |data|, 0, data));
    }
  }

  // ---------------------------------------------------------------- what the result means

  /**
   Every accepted number decodes to the value its bytes denote, in a word or as the bytes
   themselves.
   */
  lemma DecodedValue(s: seq<Byte>, r: Tagged)
    requires s != [] && !FormOf(s).Bad? && Reads(s, r)
    ensures r.size == 0 ==> r.word == Value(s)
    ensures r.size > 0 ==> r.size == |r.data| && Value(s) == if r.tag == TAG_i then Signed(r.data) else Big(r.data)
    ensures r.size == 0 && r.tag != TAG_i ==> 0 <= r.word < WORD / 2
    ensures r.size == 0 && r.tag == TAG_i ==> IsSmall(r.word)
  {
  }

  /**
   A number that is not an integer overflows exactly when it has more than eight bytes or does not
   fit a signed word.
   */
  lemma Overflow(s: seq<Byte>, r: Tagged)
    requires s != [] && !FormOf(s).Bad? && Reads(s, r) && TagOf(s) != TAG_i
    ensures r.tag == TAG_o <==> (FormOf(s).Long? && |FormOf(s).data| > 8) || Value(s) >= WORD / 2
  {
  }

  /** More than eight bytes may denote a number that fits; it overflows all the same. */
  lemma OverflowOfSmallValue(s: seq<Byte>, r: Tagged)
    requires s != [] && !FormOf(s).Bad? && Reads(s, r) && TagOf(s) != TAG_i
    ensures (r.tag == TAG_o <==> Value(s) >= WORD / 2)
      <==> !(FormOf(s).Long? && |FormOf(s).data| > 8 && Value(s) < WORD / 2)
  {
    Overflow(s, r);
  }

  /** Nine zero bytes, with the tag for unsigned numbers. */
  lemma OverflowWitness()
    ensures
      var s: seq<Byte> := [248, 0, 0, 0, 0, 0, 0, 0, 0, 0, 0];
      FormOf(s) == Long(11, s[2..]) && Value(s) == 0 && !Unpacked(s)
  {
    hide FormOf, Big;
    var s: seq<Byte> := [248, 0, 0, 0, 0, 0, 0, 0, 0, 0, 0];
    var size := s[1..];
    ShortForms(size);
    PrefixedForm(s, Some(Tagged(0, 0, 0, [])));
    assert s[2..11] == s[2..] && |s[2..]| == 9;
    ZeroBytes(s[2..]);
  }

  lemma {:induction false} ZeroBytes(s: seq<Byte>)
    requires forall i :: 0 <= i < |s| ==> s[i] == 0
    ensures Big(s) == 0
  {
    if s != [] {
      ZeroBytes(s[..|s| - 1]);
    }
  }

  // ---------------------------------------------------------------- large integers

  function Abs(x: int): nat {
    if x < 0 then -x else x
  }

  /** Negating a byte of a two's complement number, given the carry from the bytes below. */
  function Negated(b: Byte, carry: nat): Byte {
    (255 - b + carry) % 256
  }

  lemma {:induction false} LittleBound(s: seq<Byte>)
    ensures Little(s) < Pow256(|s|)
  {
    if s != [] {
      var n := |s| - 1;
      LittleBound(s[..n]);
      LittleTop(Little(s[..n]), s[n], Pow256(n));
    }
  }

  lemma LittleTop(l: nat, b: Byte, p: nat)
    requires l < p
    ensures l + b * p < 256 * p
    ensures b > 0 ==> l + b * p >= p
  {
    assert b * p <= 255 * p;
    if b > 0 {
      assert b * p >= p;
    }
  }

  /** The top byte is zero exactly when the number fits the bytes below it. */
  lemma LittleSplit(s: seq<Byte>)
    requires s != []
    ensures Little(s) == Little(s[..|s| - 1]) + s[|s| - 1] * Pow256(|s| - 1)
  {
  }

  lemma TopByte(s: seq<Byte>)
    requires s != []
    ensures s[|s| - 1] == 0 <==> Little(s) < Pow256(|s| - 1)
    ensures s[|s| - 1] == 0 ==> Little(s[..|s| - 1]) == Little(s)
  {
    hide Little, Pow256;
    var n := |s| - 1;
    LittleBound(s[..n]);
    LittleSplit(s);
    LittleTop(Little(s[..n]), s[n], Pow256(n));
  }

  lemma NegateStep(l0: nat, l: nat, b0: Byte, carry: nat, p: nat)
    requires carry <= 1 && l + carry * p == p - l0
    ensures
      var b := Negated(b0, carry);
      var carry1 := if b == 0 && carry == 1 then 1 else 0;
      (l + b * p) + carry1 * (256 * p) == 256 * p - (l0 + b0 * p)
  {
    var b := Negated(b0, carry);
    var carry1 := if b == 0 && carry == 1 then 1 else 0;
    assert b + 256 * carry1 == 255 - b0 + carry;
    assert (b + 256 * carry1) * p == (255 - b0 + carry) * p;
    assert (b + 256 * carry1) * p == b * p + carry1 * (256 * p);
    assert (255 - b0 + carry) * p == 255 * p - b0 * p + carry * p;
  }

  /** The loop that negates a number in place. */
  method Negate(buf: array<Byte>, size: nat) returns (carry: nat)
    requires size <= buf.Length
    modifies buf
    ensures carry <= 1 && Little(buf[..size]) + carry * Pow256(size) == Pow256(size) - old(Little(buf[..size]))
    ensures buf[size..] == old(buf[size..])
  {
    hide Little, Pow256, Negated;
    ghost var s := buf[..size];
    carry := 1;
    LittleSnoc(s, 0);
    assert buf[..0] == [];
    for i := 0 to size
      invariant carry <= 1 && Little(buf[..i]) + carry * Pow256(i) == Pow256(i) - Little(s[..i])
      invariant buf[i..size] == s[i..] && buf[size..] == old(buf[size..])
    {
      assert buf[i] == s[i] by { assert buf[i..size][0] == s[i..][0]; }
      ghost var done := buf[..i];
      NegateStep(Little(s[..i]), Little(done), s[i], carry, Pow256(i));
      buf[i] := Negated(buf[i], carry);
      carry := if buf[i] == 0 && carry == 1 then 1 else 0;
      assert buf[..i + 1] == done + [buf[i]] && s[..i + 1] == s[..i] + [s[i]];
      LittleSnoc(done, buf[i]);
      LittleSnoc(s[..i], s[i]);
    }
    assert s[..size] == s;
  }

  lemma LittleSnoc(s: seq<Byte>, b: Byte)
    ensures Little(s + [b]) == Little(s) + b * Pow256(|s|)
    ensures Pow256(|s| + 1) == 256 * Pow256(|s|)
    ensures Little([]) == 0 && Pow256(0) == 1
  {
    assert (s + [b])[..|s|] == s;
  }

  /** Sign and magnitude, least significant byte first. */
  datatype Magnitude = Magnitude(negative: bool, bytes: seq<Byte>)

  /** The number in the buffer is the magnitude of the two's complement number. */
  lemma NegatedMagnitude(source: seq<Byte>, l0: nat, l: nat, carry: nat)
    requires source != [] && source[0] >= 128 && l0 == Big(source)
    requires carry <= 1 && l + carry * Pow256(|source|) == Pow256(|source|) - l0
    ensures carry == 0 && l == Abs(Signed(source))
  {
    BigBound(source);
  }

  /**
   `marshal_integer` on a number that was not unpacked: sign and magnitude of the same number, padded
   to whole words. It is refused exactly when the two top bytes of the magnitude are zero.
   */
  method MarshalInteger(source: seq<Byte>) returns (r: Option<Magnitude>)
    requires |source| >= 2
    ensures r.None? <==> Abs(Signed(source)) < Pow256(|source| - 2)
    ensures r.Some? ==> Little(r.value.bytes) == Abs(Signed(source)) && (r.value.negative <==> Signed(source) < 0)
    ensures r.Some? ==> |r.value.bytes| % 8 == 0 && |r.value.bytes| < |source| + 8
  {
    var n := |source|;
    var conv := new Byte[if n < 128 - 8 then 128 else n + 8];
    for i := 0 to n
      invariant forall j :: 0 <= j < i ==> conv[n - j - 1] == source[j]
    {
      conv[n - i - 1] := source[i];
    }
    assert conv[..n] == Reversed(source);
    ReversedDenotes(source);
    BigBound(source);
    var negative := conv[n - 1] >= 128;
    if negative {
      var carry := Negate(conv, n);
      NegatedMagnitude(source, Big(source), Little(conv[..n]), carry);
    }
    r := Trim(conv, n, negative, Signed(source));
  }

  /** Cut away a leading zero, and pad to whole words. */
  method Trim(conv: array<Byte>, n: nat, negative: bool, ghost v: int) returns (r: Option<Magnitude>)
    requires 2 <= n && n + 8 <= conv.Length && Little(conv[..n]) == Abs(v) && (negative <==> v < 0)
    modifies conv
    ensures r.None? <==> Abs(v) < Pow256(n - 2)
    ensures r.Some? ==> Little(r.value.bytes) == Abs(v) && (r.value.negative <==> v < 0)
    ensures r.Some? ==> |r.value.bytes| % 8 == 0 && |r.value.bytes| < n + 8
  {
    var size := n;
    TopByte(conv[..n]);
    PowGrows(n - 2);
    if conv[size - 1] == 0 {
      size := size - 1;
      assert conv[..n][..size] == conv[..size];
      TopByte(conv[..size]);
      if conv[size - 1] == 0 {
        return None;
      }
    }
    size := Pad(conv, size);
    return Some(Magnitude(negative, conv[..size]));
  }

  /** The loop that aligns a number to the nearest word boundary. */
  method Pad(conv: array<Byte>, n: nat) returns (size: nat)
    requires n + 8 <= conv.Length
    modifies conv
    ensures n <= size < n + 8 && size % 8 == 0 && Little(conv[..size]) == old(Little(conv[..n]))
  {
    hide Little, Pow256;
    size := n;
    ghost var aligned := (n + 7) / 8 * 8;
    while size % 8 != 0
      invariant n <= size <= aligned && Little(conv[..size]) == old(Little(conv[..n]))
      decreases aligned - size
    {
      LittleSnoc(conv[..size], 0);
      conv[size] := 0;
      assert conv[..size + 1] == conv[..size] + [0];
      size := size + 1;
    }
  }

  lemma PowGrows(n: nat)
    ensures Pow256(n) < Pow256(n + 1)
  {
  }
}
