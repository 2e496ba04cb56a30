/**
 Atom names: Latin-1 names are kept in UTF-8, and are hashed and compared as if they were not.
 */
module AtomName {

  import opened Wrappers

  // ---------------------------------------------------------------- Latin-1 in UTF-8

  /** The one or two bytes of a Latin-1 character. */
  function Utf8Char(c: Byte): seq<Byte> {
    if c < 0x80 then [c] else [0xC0 + c / 64, 0x80 + c % 64]
  }

  /** The bytes denote the character: section 3 of RFC 3629. */
  lemma Utf8CharDenotes(c: Byte)
    ensures
      var u := Utf8Char(c);
      if |u| == 1 then u[0] == c < 0x80
      else |u| == 2 && u[0] / 32 == 6 && u[1] / 64 == 2 && u[0] % 32 * 64 + u[1] % 64 == c >= 0x80
  {
    assert c == c / 64 * 64 + c % 64;
  }

  function Utf8(s: seq<Byte>): seq<Byte> {
    if s == [] then [] else Utf8Char(s[0]) + Utf8(s[1..])
  }

  lemma {:induction false} Utf8Concat(a: seq<Byte>, b: seq<Byte>)
    ensures Utf8(a + b) == Utf8(a) + Utf8(b)
  {
    hide Utf8Char;
    if a == [] {
      assert a + b == b;
    } else {
      Utf8Concat(a[1..], b);
      assert (a + b)[0] == a[0] && (a + b)[1..] == a[1..] + b;
      Associates(Utf8Char(a[0]), Utf8(a[1..]), Utf8(b));
    }
  }

  lemma Utf8Snoc(a: seq<Byte>, c: Byte)
    ensures Utf8(a + [c]) == Utf8(a) + Utf8Char(c)
  {
    Utf8Concat(a, [c]);
    assert Utf8([c]) == Utf8Char(c) + Utf8([c][1..]);
  }

  ghost predicate IsAscii(s: seq<Byte>) {
    forall i :: 0 <= i < |s| ==> s[i] < 0x80
  }

  lemma {:induction false} AsciiIsUtf8(s: seq<Byte>)
    requires IsAscii(s)
    ensures Utf8(s) == s
  {
    if s != [] {
      AsciiIsUtf8(s[1..]);
    }
  }

  lemma {:induction false} Utf8Length(s: seq<Byte>)
    ensures |s| <= |Utf8(s)| <= 2 * |s|
  {
    if s != [] {
      Utf8Length(s[1..]);
    }
  }

  /**
   `latin1_to_utf8`: an ASCII name is left where it is; otherwise its UTF-8 form is made in the
   buffer, for which twice the length is enough.
   */
  method Latin1ToUtf8(src: seq<Byte>, buf: array<Byte>) returns (converted: bool, len: nat)
    requires 2 * |src| <= buf.Length
    modifies buf
    ensures converted <==> !IsAscii(src)
    ensures len <= 2 * |src|
    ensures if converted then buf[..len] == Utf8(src) else len == |src| && Utf8(src) == src
  {
    var i := 0;
    while i < |src| && src[i] < 0x80
      invariant i <= |src| && IsAscii(src[..i])
    {
      i := i + 1;
    }
    if i == |src| {
      assert src[..i] == src;
      AsciiIsUtf8(src);
      return false, |src|;
    }
    for k := 0 to i
      invariant forall j :: 0 <= j < k ==> buf[j] == src[j]
    {
      buf[k] := src[k];
    }
    AsciiIsUtf8(src[..i]);
    assert buf[..i] == src[..i];
    len := ConvertRest(src, buf, i);
    converted := true;
  }

  /** The loop that converts the characters from the first one above ASCII. */
  method ConvertRest(src: seq<Byte>, buf: array<Byte>, i: nat) returns (len: nat)
    requires 2 * |src| <= buf.Length && i <= |src| && buf[..i] == Utf8(src[..i])
    modifies buf
    ensures len <= 2 * |src| && buf[..len] == Utf8(src)
  {
    hide Utf8, Utf8Char;
    len := i;
    for k := i to |src|
      invariant k <= len <= 2 * k && buf[..len] == Utf8(src[..k])
    {
      len := Put(buf, len, src[k]);
      Utf8Snoc(src[..k], src[k]);
      assert src[..k + 1] == src[..k] + [src[k]];
    }
    assert src[..|src|] == src;
  }

  method Put(buf: array<Byte>, len: nat, c: Byte) returns (len1: nat)
    requires len + 2 <= buf.Length
    modifies buf
    ensures len < len1 <= len + 2 && buf[..len1] == old(buf[..len]) + Utf8Char(c)
  {
    if c < 0x80 {
      buf[len] := c;
      len1 := len + 1;
    } else {
      buf[len] := 0xC0 + c / 64;
      buf[len + 1] := 0x80 + c % 64;
      len1 := len + 2;
    }
  }

  // ---------------------------------------------------------------- hashing

  /** The end of a round of hashpjw. */
  function FoldTop(h: bv64): bv64 {
    var g := h & 0xf0000000;
    if g != 0 then (h ^ (g >> 24)) ^ g else h
  }

  function Wide(v: Byte): bv64 {
    v as bv64
  }

  function Round(h: bv64, v: bv64): bv64 {
    FoldTop((h << 4) + v)
  }

  /** One round of hashpjw. */
  function HashStep(h: bv64, v: Byte): bv64 {
    Round(h, Wide(v))
  }

  /** hashpjw over a sequence of characters. */
  function Hashpjw(s: seq<Byte>): bv64 {
    if s == [] then 0 else HashStep(Hashpjw(s[..|s| - 1]), s[|s| - 1])
  }

  /** A byte that, with the next one, is a Latin-1 character above ASCII. */
  predicate IsPair(s: seq<Byte>) {
    |s| >= 2 && s[0] / 2 == 0x61 && s[1] / 64 == 2
  }

  function PairChar(a: Byte, b: Byte): Byte {
    (a as int) * 64 % 256 + b % 64
  }

  /** The characters as the hash function sees them. */
  function Folded(s: seq<Byte>): seq<Byte> {
    if s == [] then []
    else if IsPair(s) then [PairChar(s[0], s[1])] + Folded(s[2..])
    else [s[0]] + Folded(s[1..])
  }

  /** The hash function sees the Latin-1 characters again. */
  lemma {:induction false} FoldedUtf8(s: seq<Byte>)
    ensures Folded(Utf8(s)) == s
  {
    if s != [] {
      FoldedUtf8(s[1..]);
      var c, rest := s[0], Utf8(s[1..]);
      FoldedChar(c, rest);
    }
  }

  lemma FoldedChar(c: Byte, rest: seq<Byte>)
    ensures Folded(Utf8Char(c) + rest) == [c] + Folded(rest)
  {
    var u := Utf8Char(c) + rest;
    if c < 0x80 {
      assert u[1..] == rest;
    } else {
      assert u[0] == 0xC0 + c / 64 && u[1] == 0x80 + c % 64 && u[2..] == rest;
      assert c / 64 == 2 || c / 64 == 3;
      assert PairChar(u[0], u[1]) == c;
    }
  }

  /** `atom_hash`. */
  method AtomHash(name: seq<Byte>) returns (h: bv64)
    ensures h == Hashpjw(Folded(name))
  {
    hide HashStep, PairChar, Folded, Hashpjw;
    h := 0;
    var p := 0;
    ghost var seen: seq<Byte> := [];
    assert name[0..] == name;
    HashEnds(name);
    while p < |name|
      invariant p <= |name| && h == Hashpjw(seen) && seen + Folded(name[p..]) == Folded(name)
    {
      FoldedStep(name, p);
      var v := name[p];
      p := p + 1;
      if p < |name| && v / 2 == 0x61 && name[p] / 64 == 2 {
        v := PairChar(v, name[p]);
        p := p + 1;
      }
      h := HashStep(h, v);
      HashSnoc(seen, v);
      assert seen + ([v] + Folded(name[p..])) == (seen + [v]) + Folded(name[p..]);
      seen := seen + [v];
    }
    assert seen + [] == seen;
  }

  lemma HashEnds(name: seq<Byte>)
    ensures Hashpjw([]) == 0 && name[|name|..] == [] && Folded([]) == [] && [] + Folded(name) == Folded(name)
  {
  }

  lemma FoldedStep(name: seq<Byte>, p: nat)
    requires p < |name|
    ensures
      if p + 1 < |name| && name[p] / 2 == 0x61 && name[p + 1] / 64 == 2 then
        Folded(name[p..]) == [PairChar(name[p], name[p + 1])] + Folded(name[p + 2..])
      else Folded(name[p..]) == [name[p]] + Folded(name[p + 1..])
  {
    var s := name[p..];
    assert |s| >= 2 ==> s[2..] == name[p + 2..];
    assert s[1..] == name[p + 1..];
  }

  lemma HashSnoc(s: seq<Byte>, v: Byte)
    ensures Hashpjw(s + [v]) == HashStep(Hashpjw(s), v)
  {
    assert (s + [v])[..|s|] == s;
  }

  /** For every Latin-1 string, the hash of its UTF-8 form is plain hashpjw of the string itself. */
  lemma HashOfLatin1(s: seq<Byte>)
    ensures Hashpjw(Folded(Utf8(s))) == Hashpjw(s)
  {
    FoldedUtf8(s);
  }

  // ---- what hashpjw computes

  /** A hash of 28 bits. */
  predicate IsSmall(h: bv64) {
    h < 0x1000_0000
  }

  /** The sum in a round carries out of 32 bits. */
  predicate Carries(h: bv64, v: Byte) {
    (h << 4) + Wide(v) >= 0x1_0000_0000
  }

  /** The four bits above the low 28 are cleared, after they have been added, without carry, to bits 4 to 7. */
  lemma FoldTopFolds(h: bv64)
    ensures FoldTop(h) == (h & 0xffff_ffff_0fff_ff0f) | ((((h >> 4) ^ (h >> 28)) & 0xf) << 4)
  {
  }

  /** A round keeps a hash of 28 bits to 28 bits exactly if it does not carry. */
  lemma RoundStaysSmall(h: bv64, v: Byte)
    requires IsSmall(h)
    ensures IsSmall(HashStep(h, v)) <==> !Carries(h, v)
  {
  }

  lemma {:induction false} HashSmallUpTo(s: seq<Byte>, k: nat)
    requires k <= |s| && forall i :: 0 <= i < k ==> !Carries(Hashpjw(s[..i]), s[i])
    ensures IsSmall(Hashpjw(s[..k]))
  {
    hide HashStep, Hashpjw, IsSmall, Carries;
    NoHash();
    if k == 0 {
      assert s[..0] == [];
    } else {
      HashSmallUpTo(s, k - 1);
      assert s[..k] == s[..k - 1] + [s[k - 1]];
      HashSnoc(s[..k - 1], s[k - 1]);
      RoundStaysSmall(Hashpjw(s[..k - 1]), s[k - 1]);
    }
  }

  lemma NoHash()
    ensures Hashpjw([]) == 0 && IsSmall(0)
  {
  }

  /** The hash has 28 bits all the way exactly if no round carries. */
  lemma HashIsSmall(s: seq<Byte>)
    ensures (forall k :: 0 <= k <= |s| ==> IsSmall(Hashpjw(s[..k]))) <==>
      (forall i :: 0 <= i < |s| ==> !Carries(Hashpjw(s[..i]), s[i]))
  {
    hide HashStep, Hashpjw, IsSmall, Carries;
    if forall k :: 0 <= k <= |s| ==> IsSmall(Hashpjw(s[..k])) {
      forall i | 0 <= i < |s|
        ensures !Carries(Hashpjw(s[..i]), s[i])
      {
        assert s[..i + 1] == s[..i] + [s[i]];
        HashSnoc(s[..i], s[i]);
        RoundStaysSmall(Hashpjw(s[..i]), s[i]);
      }
    }
    if forall i :: 0 <= i < |s| ==> !Carries(Hashpjw(s[..i]), s[i]) {
      forall k | 0 <= k <= |s|
        ensures IsSmall(Hashpjw(s[..k]))
      {
        HashSmallUpTo(s, k);
      }
    }
  }

  /** A Latin-1 name whose hash has more than 28 bits. */
  lemma LargeHashWitness()
    ensures !IsSmall(Hashpjw([255, 15, 15, 15, 15, 15, 255]))
  {
    hide HashStep, Hashpjw, IsSmall;
    WitnessRounds();
    NoHash();
    HashSnoc([], 255);
    assert [] + [255] == [255];
    HashSnoc([255], 15);
    assert [255] + [15] == [255, 15];
    HashSnoc([255, 15], 15);
    assert [255, 15] + [15] == [255, 15, 15];
    HashSnoc([255, 15, 15], 15);
    assert [255, 15, 15] + [15] == [255, 15, 15, 15];
    HashSnoc([255, 15, 15, 15], 15);
    assert [255, 15, 15, 15] + [15] == [255, 15, 15, 15, 15];
    HashSnoc([255, 15, 15, 15, 15], 15);
    assert [255, 15, 15, 15, 15] + [15] == [255, 15, 15, 15, 15, 15];
    HashSnoc([255, 15, 15, 15, 15, 15], 255);
    assert [255, 15, 15, 15, 15, 15] + [255] == [255, 15, 15, 15, 15, 15, 255];
  }

  lemma WitnessRounds()
    ensures HashStep(0, 255) == 0xff && HashStep(0xff, 15) == 0xfff && HashStep(0xfff, 15) == 0xffff
    ensures HashStep(0xffff, 15) == 0xf_ffff && HashStep(0xf_ffff, 15) == 0xff_ffff
    ensures HashStep(0xff_ffff, 15) == 0xfff_ffff && !IsSmall(HashStep(0xfff_ffff, 255))
  {
  }

  /** The number whose digits to base 16 are the characters. */
  function Positional(s: seq<Byte>): bv64 {
    if s == [] then 0 else WithDigit(Positional(s[..|s| - 1]), s[|s| - 1])
  }

  function WithDigit(h: bv64, v: Byte): bv64 {
    Append(h, Wide(v))
  }

  function Append(h: bv64, v: bv64): bv64 {
    (h << 4) + v
  }

  /** The largest such number for `k` ASCII characters. */
  function MaxPositional(k: nat): bv64 {
    if k == 0 then 0 else if k == 1 then 0x7f else if k == 2 then 0x86f else if k == 3 then 0x876f
    else if k == 4 then 0x8_776f else if k == 5 then 0x87_776f else 0x877_776f
  }

  predicate Reaches(h: bv64, k: nat) {
    h <= MaxPositional(k)
  }

  predicate IsAsciiDigit(v: bv64) {
    v <= 0x7f
  }

  lemma NextPositional(h: bv64, v: Byte, k: nat)
    requires k < 6 && Reaches(h, k) && v < 0x80
    ensures HashStep(h, v) == WithDigit(h, v) && Reaches(WithDigit(h, v), k + 1)
  {
    hide Wide, Round, Append, Reaches, IsAsciiDigit;
    AsciiByte(v);
    NextDigit(h, Wide(v), k);
  }

  lemma AsciiByte(v: Byte)
    requires v < 0x80
    ensures IsAsciiDigit(Wide(v))
  {
  }

  lemma NextDigit(h: bv64, v: bv64, k: nat)
    requires k < 6 && Reaches(h, k) && IsAsciiDigit(v)
    ensures Round(h, v) == Append(h, v) && Reaches(Append(h, v), k + 1)
  {
  }

  lemma NoDigits()
    ensures Reaches(0, 0)
  {
  }

  /** For ASCII names of up to six characters nothing is folded: the hash is that number. */
  lemma {:induction false} ShortHash(s: seq<Byte>)
    requires IsAscii(s) && |s| <= 6
    ensures Hashpjw(s) == Positional(s) && Reaches(Positional(s), |s|)
  {
    hide HashStep, WithDigit, Reaches, IsSmall;
    NoHash();
    NoDigits();
    if s != [] {
      var n := |s| - 1;
      ShortHash(s[..n]);
      NextPositional(Hashpjw(s[..n]), s[n], n);
    }
  }

  // ---------------------------------------------------------------- comparing with a string

  predicate IsTail(b: Byte) {
    0x80 <= b <= 0xBF
  }

  /** How many bytes the first character has, or 0 if it is malformed: section 4 of RFC 3629. */
  function CharLength(s: seq<Byte>): (n: nat)
    requires s != []
    ensures n <= |s| && n <= 4
  {
    var b := s[0];
    if b < 0x80 then 1
    else if 0xC2 <= b <= 0xDF then (if |s| >= 2 && IsTail(s[1]) then 2 else 0)
    else if 0xE0 <= b <= 0xEF then
      (if |s| >= 3 && IsTail(s[1]) && IsTail(s[2]) && (b == 0xE0 ==> s[1] >= 0xA0) && (b == 0xED ==> s[1] <= 0x9F)
       then 3 else 0)
    else if 0xF0 <= b <= 0xF4 then
      (if |s| >= 4 && IsTail(s[1]) && IsTail(s[2]) && IsTail(s[3])
          && (b == 0xF0 ==> s[1] >= 0x90) && (b == 0xF4 ==> s[1] <= 0x8F)
       then 4 else 0)
    else 0
  }

  predicate ValidUtf8(s: seq<Byte>) {
    s == [] || (CharLength(s) > 0 && ValidUtf8(s[CharLength(s)..]))
  }

  /** The UTF-8 form of a Latin-1 string is valid. */
  lemma {:induction false} Utf8Valid(s: seq<Byte>)
    ensures ValidUtf8(Utf8(s))
  {
    if s != [] {
      Utf8Valid(s[1..]);
      var u := Utf8(s);
      assert u[|Utf8Char(s[0])|..] == Utf8(s[1..]);
    }
  }

  /** The test of one round: the next character of the name is the next character of the string. */
  predicate SameChar(name: seq<Byte>, c: Byte)
    requires name != [] && CharLength(name) > 0
  {
    if name[0] < 0x80 then name[0] == c && c != 0
    else name[0] == 0xC0 + c / 64 && name[1] == 0x80 + c % 64
  }

  /**
   If the test fails the rest of the name is not the rest of the string; if it succeeds one
   character is dealt with.
   */
  lemma CompareChar(name: seq<Byte>, text: seq<Byte>)
    requires name != [] && ValidUtf8(name) && 0 !in text
    ensures text == [] ==> !SameChar(name, 0) && Utf8(text) != name
    ensures text != [] ==>
      var n := |Utf8Char(text[0])|;
      if SameChar(name, text[0]) then
        && n <= |name| && name[..n] == Utf8Char(text[0])
        && n == CharLength(name) && n == (if name[0] < 0x80 then 1 else 2)
        && (Utf8(text) == name <==> Utf8(text[1..]) == name[n..])
      else Utf8(text) != name
  {
    hide ValidUtf8, CharLength;
    NextChar(name);
    FirstBytes(name);
    if text == [] {
      assert Utf8(text) == [];
    } else if SameChar(name, text[0]) {
      SameCharMeans(name, text[0]);
      Utf8Head(name, text);
    } else {
      OtherChar(name, text);
    }
  }

  /** What a well-formed character can begin with. */
  lemma FirstBytes(name: seq<Byte>)
    requires name != [] && CharLength(name) > 0
    ensures name[0] < 0x80 <==> CharLength(name) == 1
    ensures name[0] < 0x80 || (name[0] >= 0xC2 && |name| >= 2 && IsTail(name[1]))
    ensures name[0] <= 0xDF ==> CharLength(name) <= 2
  {
  }

  lemma SameCharMeans(name: seq<Byte>, c: Byte)
    requires name != [] && CharLength(name) > 0 && SameChar(name, c)
    ensures var n := |Utf8Char(c)|;
      n <= |name| && name[..n] == Utf8Char(c) && n == CharLength(name) && n == (if name[0] < 0x80 then 1 else 2)
  {
    FirstBytes(name);
    if name[0] >= 0x80 {
      assert c >= 0x80;
      assert name[..2] == [name[0], name[1]];
    }
  }

  lemma Utf8Head(name: seq<Byte>, text: seq<Byte>)
    requires text != [] && |Utf8Char(text[0])| <= |name| && name[..|Utf8Char(text[0])|] == Utf8Char(text[0])
    ensures Utf8(text) == name <==> Utf8(text[1..]) == name[|Utf8Char(text[0])|..]
  {
    var u := Utf8Char(text[0]);
    assert name == u + name[|u|..];
    assert (u + Utf8(text[1..]))[|u|..] == Utf8(text[1..]);
  }

  lemma OtherChar(name: seq<Byte>, text: seq<Byte>)
    requires name != [] && CharLength(name) > 0 && text != [] && text[0] != 0 && !SameChar(name, text[0])
    ensures Utf8(text) != name
  {
    FirstBytes(name);
    var u := Utf8(text);
    assert u[..|Utf8Char(text[0])|] == Utf8Char(text[0]);
    assert u[0] == Utf8Char(text[0])[0];
    if text[0] >= 0x80 {
      assert u[1] == 0x80 + text[0] % 64;
    }
  }

  /**
   `erts_is_atom_str` for Latin-1: true exactly when the UTF-8 form of the string up to its NUL is
   the name. Nothing after the NUL is read.
   */
  method IsAtomStr(str: seq<Byte>, name: seq<Byte>, ghost z: nat) returns (r: bool)
    requires z < |str| && str[z] == 0 && 0 !in str[..z] && ValidUtf8(name)
    ensures r <==> Utf8(str[..z]) == name
  {
    hide ValidUtf8, Utf8;
    ghost var text := str[..z];
    var i, k := 0, 0;
    assert text[0..] == text && name[0..] == name;
    while i < |name|
      invariant i <= |name| && k <= z
      invariant ValidUtf8(name[i..]) && (Utf8(text) == name <==> Utf8(text[k..]) == name[i..])
    {
      ghost var m, t := name[i..], text[k..];
      NextChar(m);
      CompareChar(m, t);
      if name[i] < 0x80 {
        if name[i] != str[k] || str[k] == 0 {
          assert !SameChar(m, str[k]);
          return false;
        }
        i := i + 1;
      } else {
        if name[i] != 0xC0 + str[k] / 64 || name[i + 1] != 0x80 + str[k] % 64 {
          assert !SameChar(m, str[k]);
          return false;
        }
        i := i + 2;
      }
      k := k + 1;
      assert t[1..] == text[k..];
    }
    NoText(text[k..]);
    return str[k] == 0;
  }

  lemma NextChar(name: seq<Byte>)
    requires name != [] && ValidUtf8(name)
    ensures 0 < CharLength(name) <= |name| && ValidUtf8(name[CharLength(name)..])
    ensures name[0] >= 0x80 ==> |name| >= 2
  {
  }

  lemma NoText(text: seq<Byte>)
    ensures Utf8(text) == [] <==> text == []
  {
  }

  // ---------------------------------------------------------------- the order of atoms

  /** Byte by byte, a prefix before what it is a prefix of. */
  predicate Less(a: seq<Byte>, b: seq<Byte>) {
    b != [] && (a == [] || a[0] < b[0] || (a[0] == b[0] && Less(a[1..], b[1..])))
  }

  function Padded(s: seq<Byte>, i: nat): Byte {
    if i < |s| then s[i] else 0
  }

  /** The ordinal that `atom_alloc` computes from the first four bytes. */
  function Ord0(s: seq<Byte>): int {
    (Padded(s, 0) as int) * 0x80_0000 + (Padded(s, 1) as int) * 0x8000 + (Padded(s, 2) as int) * 0x80 + Padded(s, 3) / 2
  }

  /** It is the upper 31 bits of the first four bytes, so that the difference of two fits an `int`. */
  lemma OrdinalIsTop(s: seq<Byte>, t: seq<Byte>)
    ensures Ord0(s) == (((Padded(s, 0) as int) * 256 + Padded(s, 1)) * 256 + Padded(s, 2)) * 256 / 2 + Padded(s, 3) / 2
    ensures 0 <= Ord0(s) < 0x8000_0000 && -0x8000_0000 < Ord0(s) - Ord0(t) < 0x8000_0000
  {
  }

  /** `memcmp`. */
  function Memcmp(a: seq<Byte>, b: seq<Byte>, n: nat): int
    requires n <= |a| && n <= |b|
  {
    if n == 0 then 0
    else if a[0] != b[0] then (a[0] as int) - b[0]
    else Memcmp(a[1..], b[1..], n - 1)
  }

  /** `erts_cmp_atoms`. */
  function CmpAtoms(a: seq<Byte>, b: seq<Byte>): int {
    var diff := Ord0(a) - Ord0(b);
    if diff != 0 then diff
    else
      var lenA, lenB := |a| - 3, |b| - 3;
      var rest := if lenA > 0 && lenB > 0 then Memcmp(a[3..], b[3..], if lenA < lenB then lenA else lenB) else 0;
      if rest != 0 then rest else lenA - lenB
  }

  ghost predicate SamePadded(a: seq<Byte>, b: seq<Byte>, k: nat) {
    forall i: nat :: i < k ==> Padded(a, i) == Padded(b, i)
  }

  lemma PaddedTail(a: seq<Byte>, b: seq<Byte>, k: nat)
    requires a != [] && b != [] && k > 0 && SamePadded(a, b, k)
    ensures a[0] == b[0] && SamePadded(a[1..], b[1..], k - 1)
  {
    assert Padded(a, 0) == Padded(b, 0);
    forall i: nat | i < k - 1
      ensures Padded(a[1..], i) == Padded(b[1..], i)
    {
      assert Padded(a, i + 1) == Padded(b, i + 1);
    }
  }

  /** The first difference of the padded names decides. */
  lemma {:induction false} FirstDifference(a: seq<Byte>, b: seq<Byte>, k: nat)
    requires SamePadded(a, b, k) && Padded(a, k) < Padded(b, k)
    ensures Less(a, b) && !Less(b, a) && a != b
  {
    if k > 0 && a != [] {
      PaddedTail(a, b, k);
      assert Padded(a[1..], k - 1) == Padded(a, k) && Padded(b[1..], k - 1) == Padded(b, k);
      FirstDifference(a[1..], b[1..], k - 1);
    }
  }

  /** Where the padded names agree, the rest decides, or else the length. */
  lemma {:induction false} AfterPrefix(a: seq<Byte>, b: seq<Byte>, k: nat)
    requires SamePadded(a, b, k)
    ensures Less(a, b) <==> if |a| >= k && |b| >= k then Less(a[k..], b[k..]) else |a| < |b|
    ensures a == b <==> if |a| >= k && |b| >= k then a[k..] == b[k..] else |a| == |b|
  {
    if k > 0 && a != [] && b != [] {
      PaddedTail(a, b, k);
      AfterPrefix(a[1..], b[1..], k - 1);
      if |a| >= k && |b| >= k {
        assert a[1..][k - 1..] == a[k..] && b[1..][k - 1..] == b[k..];
      }
      assert a == [a[0]] + a[1..] && b == [b[0]] + b[1..];
    }
  }

  lemma {:induction false} MemcmpDecides(a: seq<Byte>, b: seq<Byte>, n: nat)
    requires n == if |a| < |b| then |a| else |b|
    ensures Less(a, b) <==> Memcmp(a, b, n) < 0 || (Memcmp(a, b, n) == 0 && |a| < |b|)
    ensures a == b <==> Memcmp(a, b, n) == 0 && |a| == |b|
  {
    if n > 0 {
      MemcmpDecides(a[1..], b[1..], n - 1);
      assert a == [a[0]] + a[1..] && b == [b[0]] + b[1..];
    }
  }

  /** The ordinal compares the padded names up to seven bits of the fourth byte. */
  lemma OrdinalsDiffer(a: seq<Byte>, b: seq<Byte>)
    requires Ord0(a) < Ord0(b)
    ensures exists k: nat :: SamePadded(a, b, k) && Padded(a, k) < Padded(b, k)
  {
    var k := if Padded(a, 0) != Padded(b, 0) then 0 else if Padded(a, 1) != Padded(b, 1) then 1
             else if Padded(a, 2) != Padded(b, 2) then 2 else 3;
    assert SamePadded(a, b, k) && Padded(a, k) < Padded(b, k);
  }

  /** Comparing atoms by their ordinals first gives the order of their names. */
  lemma CmpAtomsIsLess(a: seq<Byte>, b: seq<Byte>)
    ensures CmpAtoms(a, b) < 0 <==> Less(a, b)
    ensures CmpAtoms(a, b) == 0 <==> a == b
  {
    if Ord0(a) < Ord0(b) {
      OrdinalsDiffer(a, b);
      var k: nat :| SamePadded(a, b, k) && Padded(a, k) < Padded(b, k);
      FirstDifference(a, b, k);
    } else if Ord0(b) < Ord0(a) {
      OrdinalsDiffer(b, a);
      var k: nat :| SamePadded(b, a, k) && Padded(b, k) < Padded(a, k);
      FirstDifference(b, a, k);
    } else {
      OrdinalsAgree(a, b);
      AfterPrefix(a, b, 3);
      if |a| > 3 && |b| > 3 {
        MemcmpDecides(a[3..], b[3..], if |a| < |b| then |a| - 3 else |b| - 3);
      }
    }
  }

  lemma OrdinalsAgree(a: seq<Byte>, b: seq<Byte>)
    requires Ord0(a) == Ord0(b)
    ensures SamePadded(a, b, 3)
  {
    assert Padded(a, 0) == Padded(b, 0) && Padded(a, 1) == Padded(b, 1) && Padded(a, 2) == Padded(b, 2);
  }
}
