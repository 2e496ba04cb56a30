/**
 The compiler's writer of compact numbers, and what the loader makes of what it writes.
 */
module CompactEncoder {
  import opened CompactNumber
  import opened Wrappers

  /** The shortest unsigned form, most significant byte first. */
  function Unsigned(n: nat): (s: seq<Byte>)
    ensures s != []
  {
    if n < 256 then [n] else Unsigned(n / 256) + [n % 256]
  }

  /** The low `k` bytes of a number. */
  function Fixed(m: nat, k: nat): (s: seq<Byte>)
    ensures |s| == k
  {
    if k == 0 then [] else Fixed(m / 256, k - 1) + [m % 256]
  }

  /** `to_bytes`: a zero byte keeps the number from looking negative. */
  function ToBytes(n: nat): seq<Byte> {
    var s := Unsigned(n);
    if s[0] < 128 then s else [0] + s
  }

  /** `negative_to_bytes`. */
  function NegativeToBytes(n: int): seq<Byte>
    requires n < 0
  {
    if n >= -0x8000 then Fixed(n + 0x1_0000, 2)
    else
      var k := |Unsigned(-n)|;
      UnsignedFits(-n);
      var s := Fixed(n + Pow256(k), k);
      if s[0] < 128 then [255] + s else s
  }

  function BytesOf(n: int): seq<Byte> {
    if n < 0 then NegativeToBytes(n) else ToBytes(n)
  }

  /** `encode` and `encode1`. */
  function Encode(tag: nat, n: int): seq<Byte>
    requires tag < 8
    decreases Abs(n)
  {
    if 0 <= n < 16 then [n * 16 + tag]
    else if 0 <= n < 0x800 then [n / 256 * 32 + 8 + tag, n % 256]
    else
      var bytes := BytesOf(n);
      BytesAreFew(n);
      if |bytes| <= 8 then [(|bytes| - 2) * 32 + 24 + tag] + bytes
      else [248 + tag] + Encode(TAG_u, |bytes| - 9) + bytes
  }

  // ---------------------------------------------------------------- the bytes of a number

  lemma BigSnoc(s: seq<Byte>, b: Byte)
    ensures Big(s + [b]) == Big(s) * 256 + b
  {
    assert (s + [b])[..|s|] == s;
  }

  lemma {:induction false} BigCons(b: Byte, s: seq<Byte>)
    ensures Big([b] + s) == b * Pow256(|s|) + Big(s)
  {
    if s == [] {
      assert [b] + s == [] + [b];
      BigSnoc([], b);
    } else {
      var n := |s| - 1;
      BigCons(b, s[..n]);
      assert [b] + s == ([b] + s[..n]) + [s[n]];
      BigSnoc([b] + s[..n], s[n]);
      assert (b * Pow256(n)) * 256 == b * Pow256(n + 1);
    }
  }

  lemma {:induction false} UnsignedDenotes(n: nat)
    ensures Big(Unsigned(n)) == n
    ensures n > 0 ==> Unsigned(n)[0] != 0 && Pow256(|Unsigned(n)| - 1) <= n
  {
    if n >= 256 {
      UnsignedDenotes(n / 256);
      BigSnoc(Unsigned(n / 256), n % 256);
    } else {
      BigSnoc([], n);
      assert [] + [n] == [n];
    }
  }

  lemma {:induction false} FixedDenotes(m: nat, k: nat)
    requires m < Pow256(k)
    ensures Big(Fixed(m, k)) == m
  {
    if k > 0 {
      FixedDenotes(m / 256, k - 1);
      BigSnoc(Fixed(m / 256, k - 1), m % 256);
    }
  }

  lemma ToBytesDenotes(n: nat)
    ensures Big(ToBytes(n)) == n && Signed(ToBytes(n)) == n
  {
    UnsignedDenotes(n);
    BigCons(0, Unsigned(n));
  }

  /** A leading byte of ones does not change a negative number, and makes a positive one negative. */
  lemma SignByte(s: seq<Byte>)
    requires s != []
    ensures Signed(if s[0] < 128 then [255] + s else s) == Big(s) - Pow256(|s|)
  {
    BigCons(255, s);
  }

  lemma UnsignedFits(n: nat)
    ensures n < Pow256(|Unsigned(n)|)
  {
    UnsignedDenotes(n);
    BigBound(Unsigned(n));
  }

  lemma NegativeDenotes(n: int)
    requires n < 0
    ensures Signed(NegativeToBytes(n)) == n
  {
    hide Unsigned, Signed;
    if n >= -0x8000 {
      TwoBytesDenote(n);
    } else {
      var k := |Unsigned(-n)|;
      UnsignedFits(-n);
      FixedDenotes(n + Pow256(k), k);
      SignByte(Fixed(n + Pow256(k), k));
    }
  }

  lemma TwoBytesDenote(n: int)
    requires -0x8000 <= n < 0
    ensures Signed(Fixed(n + 0x1_0000, 2)) == n
  {
    assert Pow256(1) == 0x100 && Pow256(2) == 0x1_0000;
    FixedDenotes(n + 0x1_0000, 2);
    BigBound(Fixed(n + 0x1_0000, 2));
  }

  lemma {:induction false} PowLarge(n: nat)
    ensures Pow256(n) > n
  {
    if n > 0 {
      PowLarge(n - 1);
    }
  }

  /** Numbers that need bytes of their own have at least two of them, and far fewer than their value. */
  lemma BytesAreFew(n: int)
    requires n < 0 || n >= 0x800
    ensures 2 <= |BytesOf(n)| && (|BytesOf(n)| > 8 ==> |BytesOf(n)| - 9 < Abs(n))
  {
    UnsignedDenotes(Abs(n));
    PowLarge(|Unsigned(Abs(n))| - 1);
  }

  // ---------------------------------------------------------------- reading what was written

  /** Numbers without bytes of their own. */
  predicate IsInline(n: int) {
    0 <= n < 0x800
  }

  /** The number of bytes is one that the loader can take. */
  predicate Fits(n: int) {
    IsInline(n) || |BytesOf(n)| < SINT32_MAX
  }

  /** The loader finds the number, with its tag, at the beginning of `s`. */
  predicate Finds(s: seq<Byte>, tag: nat, n: int, used: nat) {
    && s != [] && TagOf(s) == tag && !FormOf(s).Bad? && FormOf(s).used == used
    && (if IsInline(n) then !FormOf(s).Long? && UnsignedValue(s) == n else FormOf(s) == Long(used, BytesOf(n)))
  }

  /** A first byte without more: the tag, and the number above four bits. */
  lemma ShortByte(tag: nat, x: nat)
    requires tag < 8
    ensures var b := x * 16 + tag; b / 8 % 2 == 0 && b / 16 == x && b % 8 == tag
  {
    Eighth(x * 16 + tag, 2 * x, tag);
    Sixteenth(x * 16 + tag, x, tag);
    LowBit(x, 0);
  }

  /** A first byte with more to follow: the tag, two bits that tell the form, and three more. */
  lemma LongByte(tag: nat, form: nat, x: nat)
    requires tag < 8 && form < 2
    ensures
      var b := x * 32 + form * 16 + 8 + tag;
      b / 8 % 2 == 1 && b / 16 % 2 == form && b / 32 == x && b % 8 == tag
  {
    var b := x * 32 + form * 16 + 8 + tag;
    Eighth(b, 2 * (2 * x + form) + 1, tag);
    Sixteenth(b, 2 * x + form, 8 + tag);
    ThirtySecond(b, x, form * 16 + 8 + tag);
    LowBit(2 * x + form, 1);
    LowBit(x, form);
  }

  lemma Eighth(b: nat, y: nat, r: nat)
    requires b == 8 * y + r && r < 8
    ensures b / 8 == y && b % 8 == r
  {
  }

  lemma Sixteenth(b: nat, y: nat, r: nat)
    requires b == 16 * y + r && r < 16
    ensures b / 16 == y
  {
  }

  lemma ThirtySecond(b: nat, y: nat, r: nat)
    requires b == 32 * y + r && r < 32
    ensures b / 32 == y
  {
  }

  lemma LowBit(y: nat, r: nat)
    requires r < 2
    ensures (2 * y + r) % 2 == r
  {
  }

  lemma InlineRoundTrip(tag: nat, n: nat, rest: seq<Byte>)
    requires tag < 8 && IsInline(n)
    ensures Finds(Encode(tag, n) + rest, tag, n, |Encode(tag, n)|)
  {
    var s := Encode(tag, n) + rest;
    if n < 16 {
      ShortByte(tag, n);
      assert s[0] == n * 16 + tag;
    } else {
      LongByte(tag, 0, n / 256);
      assert s[0] == n / 256 * 32 + 8 + tag && s[1] == n % 256;
    }
    InlineFound(s, tag, n);
  }

  lemma InlineFound(s: seq<Byte>, tag: nat, n: nat)
    requires s != [] && s[0] % 8 == tag && IsInline(n)
    requires
      if n < 16 then s[0] / 8 % 2 == 0 && s[0] / 16 == n
      else s[0] / 8 % 2 == 1 && s[0] / 16 % 2 == 0 && |s| >= 2 && (s[0] as int) / 32 == n / 256 && s[1] == n % 256
    ensures Finds(s, tag, n, if n < 16 then 1 else 2)
  {
    ShortForms(s);
  }

  lemma LongRoundTrip(tag: nat, n: int, rest: seq<Byte>)
    requires tag < 8 && !IsInline(n) && |BytesOf(n)| <= 8
    ensures Finds(Encode(tag, n) + rest, tag, n, |Encode(tag, n)|)
  {
    hide FormOf, BytesOf;
    BytesAreFew(n);
    var bytes, s := BytesOf(n), Encode(tag, n) + rest;
    var count := |bytes|;
    LongByte(tag, 1, count - 2);
    assert s[0] == (count - 2) * 32 + 24 + tag;
    ShortForms(s);
    assert s[1..1 + count] == bytes;
  }

  lemma {:induction false} PowMonotone(a: nat, b: nat)
    requires a <= b
    ensures Pow256(a) <= Pow256(b)
  {
    if a < b {
      PowMonotone(a, b - 1);
    }
  }

  /** A size that the loader can take needs few bytes itself. */
  lemma SizeIsShort(n: nat)
    requires n < SINT32_MAX
    ensures |ToBytes(n)| <= 8
  {
    if n > 0 {
      UnsignedDenotes(n);
      assert Pow256(1) == 0x100 && Pow256(2) == 0x1_0000 && Pow256(3) == 0x100_0000 && Pow256(4) == 0x1_0000_0000;
      if |Unsigned(n)| > 5 {
        PowMonotone(4, |Unsigned(n)| - 1);
      }
    }
  }

  lemma PrefixedLayout(tag: nat, n: int, rest: seq<Byte>)
    requires tag < 8 && !IsInline(n) && |BytesOf(n)| > 8
    ensures
      var bytes, e := BytesOf(n), Encode(TAG_u, |BytesOf(n)| - 9);
      var s := Encode(tag, n) + rest;
      && |Encode(tag, n)| == 1 + |e| + |bytes|
      && s[0] == 248 + tag && s[1..] == e + (bytes + rest) && s[1 + |e|..1 + |e| + |bytes|] == bytes
  {
    hide BytesOf, Encode;
    PrefixedBytes(tag, n);
    Layout(248 + tag, Encode(TAG_u, |BytesOf(n)| - 9), BytesOf(n), rest);
  }

  lemma PrefixedBytes(tag: nat, n: int)
    requires tag < 8 && !IsInline(n) && |BytesOf(n)| > 8
    ensures Encode(tag, n) == [248 + tag] + Encode(TAG_u, |BytesOf(n)| - 9) + BytesOf(n)
  {
    hide BytesOf;
  }

  lemma Layout(b: Byte, e: seq<Byte>, bytes: seq<Byte>, rest: seq<Byte>)
    ensures
      var s := [b] + e + bytes + rest;
      s[0] == b && s[1..] == e + (bytes + rest) && s[1 + |e|..1 + |e| + |bytes|] == bytes
  {
  }

  /** The size in front of the bytes decides whether the number is accepted. */
  lemma PrefixedRoundTrip(tag: nat, n: int, rest: seq<Byte>)
    requires tag < 8 && !IsInline(n) && |BytesOf(n)| > 8
    requires
      var n1 := |BytesOf(n)| - 9;
      var s1 := Encode(TAG_u, n1) + (BytesOf(n) + rest);
      if Fits(n1) then Finds(s1, TAG_u, n1, |Encode(TAG_u, n1)|) else FormOf(s1).Bad?
    ensures
      var s := Encode(tag, n) + rest;
      if Fits(n) then Finds(s, tag, n, |Encode(tag, n)|) else FormOf(s).Bad?
  {
    hide FormOf, BytesOf, UnsignedValue, ToBytes, Encode;
    var bytes := BytesOf(n);
    var n1 := |bytes| - 9;
    var s, s1, k := Encode(tag, n) + rest, Encode(TAG_u, n1) + (bytes + rest), |Encode(TAG_u, n1)|;
    PrefixedLayout(tag, n, rest);
    LongByte(tag, 1, 7);
    PrefixForm(s);
    SizeFound(s1, n1, k);
  }

  lemma {:induction false} PrefixForm(s: seq<Byte>)
    requires s != [] && s[0] / 8 % 2 == 1 && s[0] / 16 % 2 == 1 && s[0] / 32 == 7
    ensures
      var prefix, size := FormOf(s[1..]), UnsignedValue(s[1..]);
      FormOf(s) ==
        if prefix.Bad? || s[1] % 8 != TAG_u || size >= SINT32_MAX - 9 || (prefix.Long? && |prefix.data| > 8) then Bad
        else LongForm(s, 1 + prefix.used, size + 9)
  {
    hide UnsignedValue, LongForm;
  }

  lemma SizeFound(s1: seq<Byte>, n1: nat, k: nat)
    requires Fits(n1) ==> Finds(s1, TAG_u, n1, k)
    ensures n1 < SINT32_MAX ==> Fits(n1)
    ensures Fits(n1) ==> UnsignedValue(s1) == n1
    ensures n1 < SINT32_MAX && FormOf(s1).Long? ==> |FormOf(s1).data| <= 8
  {
    ToBytesDenotes(n1);
    if n1 < SINT32_MAX {
      SizeIsShort(n1);
    }
  }

  /**
   The loader reads what the compiler writes: same tag, same number, all bytes used and no more, if
   the size of the number can be taken; otherwise it refuses.
   */
  lemma {:induction false} RoundTrip(tag: nat, n: int, rest: seq<Byte>)
    requires tag < 8
    ensures
      var s := Encode(tag, n) + rest;
      if Fits(n) then Finds(s, tag, n, |Encode(tag, n)|) else FormOf(s).Bad?
    decreases Abs(n)
  {
    if IsInline(n) {
      InlineRoundTrip(tag, n, rest);
    } else if |BytesOf(n)| <= 8 {
      LongRoundTrip(tag, n, rest);
    } else {
      BytesAreFew(n);
      RoundTrip(TAG_u, |BytesOf(n)| - 9, BytesOf(n) + rest);
      PrefixedRoundTrip(tag, n, rest);
    }
  }

  /** The number that the loader sees is the one the compiler wrote. */
  lemma RoundTripValue(tag: nat, n: int, rest: seq<Byte>)
    requires tag < 8 && Fits(n) && (n >= 0 || tag == TAG_i)
    ensures var s := Encode(tag, n) + rest; s != [] && !FormOf(s).Bad? && TagOf(s) == tag && Value(s) == n
  {
    RoundTrip(tag, n, rest);
    if n < 0 {
      NegativeDenotes(n);
    } else {
      ToBytesDenotes(n);
    }
  }

  /** Eight bytes are enough exactly for the numbers that fit a signed word. */
  lemma EightBytes(n: nat)
    requires n > 0
    ensures |ToBytes(n)| <= 8 <==> n < WORD / 2
  {
    var u := Unsigned(n);
    UnsignedDenotes(n);
    BigBound(u);
    PowBound(8);
    assert Pow256(8) == 256 * Pow256(7);
    if |u| <= 7 {
      PowMonotone(|u|, 7);
    } else if |u| >= 9 {
      PowMonotone(8, |u| - 1);
    }
  }

  /** Of the numbers that the compiler writes, exactly those overflow that exceed a signed word. */
  lemma WrittenOverflow(tag: nat, n: nat, rest: seq<Byte>, r: Tagged)
    requires tag < 8 && tag != TAG_i && Fits(n)
    requires var s := Encode(tag, n) + rest; s != [] && Reads(s, r)
    ensures r.tag == TAG_o <==> n >= WORD / 2
  {
    RoundTrip(tag, n, rest);
    RoundTripValue(tag, n, rest);
    if n > 0 {
      EightBytes(n);
    }
    Overflow(Encode(tag, n) + rest, r);
  }

  /** No integer that the compiler writes is refused as not normalised. */
  lemma WrittenNormalised(n: int)
    requires !IsInline(n)
    ensures |BytesOf(n)| >= 2 && Abs(Signed(BytesOf(n))) >= Pow256(|BytesOf(n)| - 2)
  {
    hide BytesOf, Unsigned, Signed;
    BytesAreFew(n);
    BytesDenote(n);
    BytesLength(n);
    UnsignedDenotes(Abs(n));
    PowMonotone(|BytesOf(n)| - 2, if -0x8000 <= n < 0 then 0 else |Unsigned(Abs(n))| - 1);
  }

  lemma BytesDenote(n: int)
    ensures Signed(BytesOf(n)) == n
  {
    hide Signed, NegativeToBytes, ToBytes;
    if n < 0 {
      NegativeDenotes(n);
    } else {
      ToBytesDenotes(n);
    }
  }

  lemma BytesLength(n: int)
    ensures |BytesOf(n)| <= if -0x8000 <= n < 0 then 2 else |Unsigned(Abs(n))| + 1
  {
    hide Unsigned, Pow256;
  }
}
