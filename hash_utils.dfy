/**
 * HashUtils: 32-bit polynomial hash combining and the byte layout of fingerprints.
 *
 * The MD5 digest is not modelled: the fingerprint operations of this module take the digest
 * function as a parameter, so the properties below hold whatever digest is plugged in.
 */
module HashUtils {
  import opened JavaLang
  import opened Wrappers

  /** combine(h1, h2) = 31 * h1 + h2 in int arithmetic. */
  function Combine(h1: Int32, h2: Int32): (r: Int32)
    ensures (r - (31 * h1 + h2)) % TWO_32 == 0
  {
    Wrap32(31 * h1 + h2)
  }

  /** For a fixed first hash, combine is one-to-one in the second. */
  lemma CombineInjectiveRight(h1: Int32, x: Int32, y: Int32)
    requires Combine(h1, x) == Combine(h1, y)
    ensures x == y
  {
    var a, b := 31 * h1 + x, 31 * h1 + y;
    ModSum3(a - Combine(h1, x), 0, Combine(h1, y) - b);
    assert x - y == (a - Combine(h1, x)) + (Combine(h1, y) - b);
    Wrap32Unique(x, y);
  }

  /** 31 is odd, so it is invertible modulo 2^32: combine is one-to-one in the first hash too. */
  lemma CombineInjectiveLeft(x: Int32, y: Int32, h2: Int32)
    requires Combine(x, h2) == Combine(y, h2)
    ensures x == y
  {
    var zx, zy := 31 * x + h2, 31 * y + h2;
    var qx, qy := (zx + TWO_31) / TWO_32, (zy + TWO_31) / TWO_32;
    assert Combine(x, h2) == zx - TWO_32 * qx;
    assert Combine(y, h2) == zy - TWO_32 * qy;
    Inverse31(x - y, qx - qy);
  }

  /** 0xBDEF7BDF is the inverse of 31 modulo 2^32 (0xBDEF7BDF * 31 == 1 + 30 * 2^32). */
  lemma Inverse31(d: int, e: int)
    requires 31 * d == TWO_32 * e && -TWO_32 < d < TWO_32
    ensures d == 0
  {
    var k := 0xBDEF7BDF * e - 30 * d;
    assert d == 0xBDEF7BDF * (31 * d) - 30 * 0x1_0000_0000 * d;
    assert d == 0x1_0000_0000 * k;
  }

  /** The left fold of combine over a non-empty sequence, starting from its first element. */
  function FoldHashes(hashes: seq<Int32>): Int32
    requires |hashes| >= 1
  {
    if |hashes| == 1 then hashes[0]
    else Combine(FoldHashes(hashes[..|hashes| - 1]), hashes[|hashes| - 1])
  }

  /** The polynomial h[0]*31^(n-1) + ... + h[n-1] over the integers. */
  function Polynomial(hashes: seq<int>): int
  {
    if hashes == [] then 0 else 31 * Polynomial(hashes[..|hashes| - 1]) + hashes[|hashes| - 1]
  }

  /** Folding with combine computes the base-31 polynomial of the hashes, modulo 2^32. */
  lemma {:induction false} FoldHashesIsPolynomial(hashes: seq<Int32>)
    requires |hashes| >= 1
    ensures FoldHashes(hashes) == Wrap32(Polynomial(hashes))
  {
    if |hashes| == 1 {
      assert hashes[..0] == [];
    } else {
      var init := hashes[..|hashes| - 1];
      var last := hashes[|hashes| - 1];
      FoldHashesIsPolynomial(init);
      var f, p := FoldHashes(init), Polynomial(init);
      // f and p agree modulo 2^32, hence so do 31*f + last and 31*p + last
      assert (f - p) % TWO_32 == 0;
      var k := (f - p) / TWO_32;
      assert (31 * f + last) - (31 * p + last) == (31 * k) * TWO_32;
      Wrap32Congruent(31 * f + last, 31 * p + last);
    }
  }

  /** String.hashCode is combine folded over the characters, starting from 0. */
  lemma {:induction false} StringHashIsFold(s: string)
    ensures StringHash(s) == FoldHashes([0] + CharCodes(s))
  {
    if s != [] {
      var init := s[..|s| - 1];
      StringHashIsFold(init);
      assert ([0] + CharCodes(s))[..|s|] == [0] + CharCodes(init);
    }
  }

  function CharCodes(s: string): (codes: seq<Int32>)
    ensures |codes| == |s|
    ensures forall i :: 0 <= i < |s| ==> codes[i] == s[i] as int
  {
    if s == [] then [] else CharCodes(s[..|s| - 1]) + [s[|s| - 1] as int]
  }

  /** combineMany: fails (index out of bounds) on an empty array, else folds left. */
  method CombineMany(hashes: seq<Int32>) returns (r: Option<Int32>)
    ensures hashes == [] <==> r.None?
    ensures hashes != [] ==> r == Some(FoldHashes(hashes))
  {
    if |hashes| == 0 {
      return None;
    }
    var hash := hashes[0];
    var i := 0;
    while i < |hashes| - 1
      invariant 0 <= i <= |hashes| - 1
      invariant hash == FoldHashes(hashes[..i + 1])
    {
      assert hashes[..i + 2][..i + 1] == hashes[..i + 1];
      hash := Combine(hash, hashes[i + 1]);
      i := i + 1;
    }
    assert hashes[..|hashes|] == hashes;
    r := Some(hash);
  }

  /** The value of hash(Collection) for a collection whose elements hash to `elementHashes`. */
  function CollectionHash(elementHashes: seq<Int32>, emptyHash: Int32): Int32
  {
    if elementHashes == [] then emptyHash else FoldHashes(elementHashes)
  }

  /**
   * hash(Collection): the collection's own hashCode (`emptyHash`) when it is empty, otherwise
   * the left fold of the element hashes in iteration order.
   */
  method HashCollection(elementHashes: seq<Int32>, emptyHash: Int32) returns (r: Int32)
    ensures elementHashes == [] ==> r == emptyHash
    ensures elementHashes != [] ==> r == FoldHashes(elementHashes)
  {
    if elementHashes == [] {
      return emptyHash;
    }
    r := elementHashes[0];
    var i := 0;
    while i < |elementHashes| - 1
      invariant 0 <= i <= |elementHashes| - 1
      invariant r == FoldHashes(elementHashes[..i + 1])
    {
      assert elementHashes[..i + 2][..i + 1] == elementHashes[..i + 1];
      r := Combine(r, elementHashes[i + 1]);
      i := i + 1;
    }
    assert elementHashes[..|elementHashes|] == elementHashes;
  }

  /** hash(Map) = combine(hash(keySet), hash(values)). */
  method HashMap(keyHashes: seq<Int32>, valueHashes: seq<Int32>, emptyKeysHash: Int32, emptyValuesHash: Int32)
    returns (r: Int32)
    ensures r == Combine(CollectionHash(keyHashes, emptyKeysHash), CollectionHash(valueHashes, emptyValuesHash))
  {
    var k := HashCollection(keyHashes, emptyKeysHash);
    var v := HashCollection(valueHashes, emptyValuesHash);
    r := Combine(k, v);
  }

  /** Maps with the same value hashes but different key hashes hash differently. */
  lemma MapHashSeesKeys(k1: Int32, k2: Int32, v: Int32)
    requires k1 != k2
    ensures Combine(k1, v) != Combine(k2, v)
  {
    if Combine(k1, v) == Combine(k2, v) {
      CombineInjectiveLeft(k1, k2, v);
    }
  }

  // ---------------------------------------------------------------------------------------------
  // Fingerprints

  type Octet = x: int | 0 <= x < 256

  function Pow256(n: nat): (r: nat)
    ensures r >= 1
  {
    if n == 0 then 1 else 256 * Pow256(n - 1)
  }

  /**
   * The low `n` bytes of `h`, most significant first. Unfolded, byte k is
   * ((h >> 8) >> 8 ...) & 0xFF with one shift per following byte, that is (h >> 8*(n-1-k)) & 0xFF.
   */
  function BytesBE(h: int, n: nat): (b: seq<Octet>)
    ensures |b| == n
    decreases n
  {
    if n == 0 then [] else BytesBE(h / 256, n - 1) + [h % 256]
  }

  /** The four bytes of an int, most significant first: (hash >> 24) & 0xFF ... hash & 0xFF. */
  function IntBytes(h: Int32): (b: seq<Octet>)
    ensures |b| == 4
  {
    BytesBE(h, 4)
  }

  /** The eight bytes of a long, most significant first: (hash >> 56) & 0xFF ... hash & 0xFF. */
  function LongBytes(h: Int64): (b: seq<Octet>)
    ensures |b| == 8
  {
    BytesBE(h, 8)
  }

  /** The unsigned big-endian number spelled by some bytes. */
  function BigEndian(b: seq<Octet>): nat
  {
    if b == [] then 0 else 256 * BigEndian(b[..|b| - 1]) + b[|b| - 1]
  }

  /** The n bytes spell the low 8n bits of h, i.e. h modulo 256^n. */
  lemma {:induction false} BytesBERoundTrip(h: int, n: nat)
    ensures BigEndian(BytesBE(h, n)) == h % Pow256(n)
    decreases n
  {
    if n > 0 {
      BytesBERoundTrip(h / 256, n - 1);
      var b := BytesBE(h, n);
      assert b[..n - 1] == BytesBE(h / 256, n - 1);
      ModStep(h, 256, Pow256(n - 1));
    }
  }

  lemma Pow256Shift(n: nat)
    ensures Pow256(n + 4) == Pow256(n) * 0x1_0000_0000
  {
    if n > 0 {
      Pow256Shift(n - 1);
    } else {
      assert Pow256(4) == 0x1_0000_0000;
    }
  }

  /** The bytes of an int spell its 32-bit pattern, so distinct ints are digested differently. */
  lemma IntBytesRoundTrip(h: Int32)
    ensures BigEndian(IntBytes(h)) == Unsigned32(h)
  {
    BytesBERoundTrip(h, 4);
    Pow256Shift(0);
  }

  lemma IntBytesInjective(h1: Int32, h2: Int32)
    requires IntBytes(h1) == IntBytes(h2)
    ensures h1 == h2
  {
    IntBytesRoundTrip(h1);
    IntBytesRoundTrip(h2);
  }

  /** The bytes of a long spell its 64-bit pattern. */
  lemma LongBytesRoundTrip(h: Int64)
    ensures BigEndian(LongBytes(h)) == (if h < 0 then h + 0x1_0000_0000_0000_0000 else h)
  {
    BytesBERoundTrip(h, 8);
    Pow256Shift(4);
    Pow256Shift(0);
  }

  lemma LongBytesInjective(h1: Int64, h2: Int64)
    requires LongBytes(h1) == LongBytes(h2)
    ensures h1 == h2
  {
    LongBytesRoundTrip(h1);
    LongBytesRoundTrip(h2);
  }

  function UpperHexDigit(d: nat): (c: char)
    requires d < 16
  {
    if d < 10 then ('0' as int + d) as char else ('A' as int + d - 10) as char
  }

  /** String.format("%02X", b) for a byte b: two upper-case digits of its unsigned value. */
  function HexByte(b: Octet): (s: string)
    ensures |s| == 2
  {
    [UpperHexDigit(b / 16), UpperHexDigit(b % 16)]
  }

  /** The fingerprint text of a digest: two upper-case hex digits per byte, in order. */
  function HexOfDigest(digest: seq<Octet>): (s: string)
    ensures |s| == 2 * |digest|
  {
    if digest == [] then "" else HexOfDigest(digest[..|digest| - 1]) + HexByte(digest[|digest| - 1])
  }

  predicate IsUpperHexDigit(c: char)
  {
    '0' <= c <= '9' || 'A' <= c <= 'F'
  }

  /** Reads a fingerprint back into bytes, two digits at a time. */
  function ParseFingerprint(s: string): seq<Octet>
    requires |s| % 2 == 0
  {
    if s == [] then []
    else
      ParseFingerprint(s[..|s| - 2]) + [ParseByte(s[|s| - 2], s[|s| - 1])]
  }

  /** The byte two hex digits spell, high digit first; 0 when either is not a digit. */
  function ParseByte(hi: char, lo: char): Octet
  {
    var h, l := HexValue(hi), HexValue(lo);
    if h < 16 && l < 16 then 16 * h + l else 0
  }

  /** A fingerprint consists of upper-case hex digits only. */
  lemma {:induction false} HexOfDigestIsUpperHex(digest: seq<Octet>)
    ensures forall i :: 0 <= i < |HexOfDigest(digest)| ==> IsUpperHexDigit(HexOfDigest(digest)[i])
  {
    if digest != [] {
      var init := digest[..|digest| - 1];
      HexOfDigestIsUpperHex(init);
      var s := HexOfDigest(digest);
      var t := HexByte(digest[|digest| - 1]);
      assert IsUpperHexDigit(t[0]) && IsUpperHexDigit(t[1]);
      assert s == HexOfDigest(init) + t;
    }
  }

  /** A fingerprint determines the digest it was made from. */
  lemma {:induction false} HexOfDigestRoundTrip(digest: seq<Octet>)
    ensures ParseFingerprint(HexOfDigest(digest)) == digest
  {
    if digest != [] {
      var init := digest[..|digest| - 1];
      var b := digest[|digest| - 1];
      HexOfDigestRoundTrip(init);
      ParseAppendHexByte(HexOfDigest(init), b);
    }
  }

  lemma ParseAppendHexByte(s: string, b: Octet)
    requires |s| % 2 == 0
    ensures ParseFingerprint(s + HexByte(b)) == ParseFingerprint(s) + [b]
  {
    var t := s + HexByte(b);
    assert t[..|t| - 2] == s;
    ParseHexByte(b);
  }

  lemma ParseHexByte(b: Octet)
    ensures ParseByte(UpperHexDigit(b / 16), UpperHexDigit(b % 16)) == b
  {
    HexValueOfDigit(b / 16);
    HexValueOfDigit(b % 16);
    DigitsRecombine(b);
  }

  lemma DigitsRecombine(b: Octet)
    ensures b / 16 < 16 && 16 * (b / 16) + b % 16 == b
  {
  }

  lemma HexValueOfDigit(d: nat)
    requires d < 16
    ensures HexValue(UpperHexDigit(d)) == d
  {
  }

  /** The StringBuilder loop that renders a digest. */
  method RenderDigest(digest: seq<Octet>) returns (s: string)
    ensures s == HexOfDigest(digest)
  {
    s := "";
    var i := 0;
    while i < |digest|
      invariant 0 <= i <= |digest|
      invariant s == HexOfDigest(digest[..i])
    {
      assert digest[..i + 1][..i] == digest[..i];
      s := s + HexByte(digest[i]);
      i := i + 1;
    }
    assert digest[..|digest|] == digest;
  }

  /** toFingerprint(int): the digest of the four big-endian bytes of the hash, in hex. */
  method FingerprintInt(h: Int32, md5: seq<Octet> -> seq<Octet>) returns (s: string)
    ensures s == HexOfDigest(md5(IntBytes(h)))
  {
    var data := IntBytes(h);
    s := RenderDigest(md5(data));
  }

  /** toFingerprint(long): the digest of the eight big-endian bytes of the hash, in hex. */
  method FingerprintLong(h: Int64, md5: seq<Octet> -> seq<Octet>) returns (s: string)
    ensures s == HexOfDigest(md5(LongBytes(h)))
  {
    var data := LongBytes(h);
    s := RenderDigest(md5(data));
  }

  /** The long whose 64-bit pattern is `w`. */
  function Signed64(w: bv64): Int64
  {
    var u := w as int;
    if u < 0x8000_0000_0000_0000 then u else u - 0x1_0000_0000_0000_0000
  }

  /** Widening an int (given by its bit pattern) to long: the sign bit fills the top half. */
  function SignExtend(h: bv32): bv64
  {
    if h & 0x8000_0000 != 0 then (h as bv64) | 0xFFFF_FFFF_0000_0000 else h as bv64
  }

  /** ((long) h1 << 32) | h2, as written, on the bit patterns of the two ints. */
  function PackAsWritten(h1: bv32, h2: bv32): bv64
  {
    ((h1 as bv64) << 32) | SignExtend(h2)
  }

  /** toFingerprint(h1, h2) as written. */
  method FingerprintPairAsWritten(h1: bv32, h2: bv32, md5: seq<Octet> -> seq<Octet>) returns (s: string)
    ensures s == HexOfDigest(md5(LongBytes(Signed64(PackAsWritten(h1, h2)))))
  {
    s := FingerprintLong(Signed64(PackAsWritten(h1, h2)), md5);
  }

  /** With a negative second hash the first one is lost: (0, -1) and (5, -1) pack alike. */
  lemma PackAsWrittenLosesFirstHash()
    ensures PackAsWritten(0, 0xFFFF_FFFF) == PackAsWritten(5, 0xFFFF_FFFF) == 0xFFFF_FFFF_FFFF_FFFF
  {
  }

  /** With a negative second hash the packed long is that hash alone, sign-extended. */
  lemma PackAsWrittenNegative(h1: bv32, h2: bv32)
    requires h2 & 0x8000_0000 != 0
    ensures PackAsWritten(h1, h2) == (h2 as bv64) | 0xFFFF_FFFF_0000_0000
  {
  }

  /** So the first hash never reaches the digest when the second is negative. */
  lemma FingerprintPairAsWrittenIgnoresFirst(h1: bv32, h1': bv32, h2: bv32)
    requires h2 & 0x8000_0000 != 0
    ensures PackAsWritten(h1, h2) == PackAsWritten(h1', h2)
  {
    PackAsWrittenNegative(h1, h2);
    PackAsWrittenNegative(h1', h2);
  }

  /** The evidently intended packing: h2 is widened without sign extension (h2 & 0xFFFFFFFFL). */
  function Pack(h1: bv32, h2: bv32): bv64
  {
    ((h1 as bv64) << 32) | (h2 as bv64)
  }

  /** Both halves can be read back from the packed long. */
  lemma PackRoundTrip(h1: bv32, h2: bv32)
    ensures (Pack(h1, h2) >> 32) as bv32 == h1
    ensures (Pack(h1, h2) & 0xFFFF_FFFF) as bv32 == h2
  {
  }

  /** Distinct pairs of hashes give distinct packed longs. */
  lemma PackInjective(a1: bv32, a2: bv32, b1: bv32, b2: bv32)
    requires Pack(a1, a2) == Pack(b1, b2)
    ensures a1 == b1 && a2 == b2
  {
    PackRoundTrip(a1, a2);
    PackRoundTrip(b1, b2);
  }

  /** The UTF-8 bytes of one character (String.getBytes(UTF_8) on its code point). */
  function Utf8Char(c: char): (b: seq<Octet>)
    ensures 1 <= |b| <= 4
  {
    var cp := c as int;
    if cp < 0x80 then [cp]
    else if cp < 0x800 then [0xC0 + cp / 0x40, 0x80 + cp % 0x40]
    else if cp < 0x1_0000 then [0xE0 + cp / 0x1000, 0x80 + cp / 0x40 % 0x40, 0x80 + cp % 0x40]
    else [0xF0 + cp / 0x4_0000, 0x80 + cp / 0x1000 % 0x40, 0x80 + cp / 0x40 % 0x40, 0x80 + cp % 0x40]
  }

  /** value.getBytes(StandardCharsets.UTF_8). */
  function Utf8(s: string): seq<Octet>
  {
    if s == [] then [] else Utf8(s[..|s| - 1]) + Utf8Char(s[|s| - 1])
  }

  /** A Unicode scalar value: what a Dafny character holds. */
  predicate IsScalar(cp: int)
  {
    0 <= cp < 0xD800 || 0xE000 <= cp < 0x11_0000
  }

  /** The length of the UTF-8 sequence a lead byte starts. */
  function SequenceLength(lead: Octet): nat
  {
    if lead < 0x80 then 1 else if lead < 0xE0 then 2 else if lead < 0xF0 then 3 else 4
  }

  /** The code point of the UTF-8 sequence at the start of `b`, which has the lead byte's length. */
  function CodePoint(b: seq<Octet>): int
    requires b != [] && |b| >= SequenceLength(b[0])
  {
    var b0 := b[0] as int;
    match SequenceLength(b[0])
    case 1 => b0
    case 2 => (b0 - 0xC0) * 0x40 + (b[1] as int - 0x80)
    case 3 => (b0 - 0xE0) * 0x1000 + (b[1] as int - 0x80) * 0x40 + (b[2] as int - 0x80)
    case _ => (b0 - 0xF0) * 0x4_0000 + (b[1] as int - 0x80) * 0x1000 + (b[2] as int - 0x80) * 0x40 + (b[3] as int - 0x80)
  }

  /** Reads UTF-8 back into characters; stops at the first sequence that is cut short or invalid. */
  function Utf8Decode(b: seq<Octet>): string
    decreases |b|
  {
    if b == [] || |b| < SequenceLength(b[0]) || !IsScalar(CodePoint(b)) then []
    else [CodePoint(b) as char] + Utf8Decode(b[SequenceLength(b[0])..])
  }

  /** Decoding reads one character's bytes back as that character. */
  lemma Utf8CharDecodes(c: char, rest: seq<Octet>)
    ensures Utf8Decode(Utf8Char(c) + rest) == [c] + Utf8Decode(rest)
  {
    var b := Utf8Char(c) + rest;
    var n := |Utf8Char(c)|;
    assert b[..n] == Utf8Char(c) && b[n..] == rest;
    Utf8CharCodePoint(c, b);
  }

  /** The lead byte of a character's bytes gives their number, and the bytes give back its code point. */
  lemma Utf8CharCodePoint(c: char, b: seq<Octet>)
    requires |b| >= |Utf8Char(c)| && b[..|Utf8Char(c)|] == Utf8Char(c)
    ensures SequenceLength(b[0]) == |Utf8Char(c)|
    ensures CodePoint(b) == c as int
  {
    var cp := c as int;
    assert b[0] == Utf8Char(c)[0];
    if cp < 0x80 {
    } else if cp < 0x800 {
      assert b[1] == Utf8Char(c)[1];
      DivMod(cp, 0x40);
    } else if cp < 0x1_0000 {
      assert b[1] == Utf8Char(c)[1] && b[2] == Utf8Char(c)[2];
      DivMod(cp, 0x40);
      DivMod(cp / 0x40, 0x40);
      assert cp / 0x40 / 0x40 == cp / 0x1000;
    } else {
      assert b[1] == Utf8Char(c)[1] && b[2] == Utf8Char(c)[2] && b[3] == Utf8Char(c)[3];
      DivMod(cp, 0x40);
      DivMod(cp / 0x40, 0x40);
      DivMod(cp / 0x1000, 0x40);
      assert cp / 0x40 / 0x40 == cp / 0x1000;
      assert cp / 0x1000 / 0x40 == cp / 0x4_0000;
    }
  }

  lemma DivMod(x: int, d: int)
    requires d > 0
    ensures x == x / d * d + x % d
  {
  }

  /** UTF-8 as getBytes writes it reads back to the same string, so different strings give different bytes. */
  lemma {:induction false} Utf8RoundTrip(s: string)
    ensures Utf8Decode(Utf8(s)) == s
    decreases |s|
  {
    if s != [] {
      Utf8Prepend(s);
      Utf8CharDecodes(s[0], Utf8(s[1..]));
      Utf8RoundTrip(s[1..]);
      assert s == [s[0]] + s[1..];
    }
  }

  /** The bytes of a string are those of its first character followed by those of the rest. */
  lemma {:induction false} Utf8Prepend(s: string)
    requires s != []
    ensures Utf8(s) == Utf8Char(s[0]) + Utf8(s[1..])
    decreases |s|
  {
    if |s| > 1 {
      var init := s[..|s| - 1];
      Utf8Prepend(init);
      assert init[0] == s[0] && init[1..] == s[1..][..|s[1..]| - 1];
    } else {
      assert s[..0] == [] && s[1..] == [];
    }
  }

  /** One, two and three bytes: 'A', 'é' (U+00E9) and '€' (U+20AC). */
  lemma Utf8Examples()
    ensures Utf8("A") == [0x41]
    ensures Utf8("\U{E9}") == [0xC3, 0xA9]
    ensures Utf8("\U{20AC}") == [0xE2, 0x82, 0xAC]
  {
    assert "A"[..0] == [] && "\U{E9}"[..0] == [] && "\U{20AC}"[..0] == [];
  }

  /** toFingerprint(String): the digest of the string's UTF-8 bytes, in hex. */
  method FingerprintString(value: string, md5: seq<Octet> -> seq<Octet>) returns (s: string)
    ensures s == HexOfDigest(md5(Utf8(value)))
    ensures ParseFingerprint(s) == md5(Utf8(value))
  {
    HexOfDigestRoundTrip(md5(Utf8(value)));
    s := RenderDigest(md5(Utf8(value)));
  }

  /** toFingerprint(h1, h2) with the intended packing. */
  method FingerprintPair(h1: bv32, h2: bv32, md5: seq<Octet> -> seq<Octet>) returns (s: string)
    ensures s == HexOfDigest(md5(LongBytes(Signed64(Pack(h1, h2)))))
  {
    s := FingerprintLong(Signed64(Pack(h1, h2)), md5);
  }
}
