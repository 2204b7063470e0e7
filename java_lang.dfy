/**
 * The pieces of Java's language and core-library semantics that the modelled code relies on:
 * 32-bit and 64-bit two's-complement arithmetic, bitwise AND on ints, String.hashCode,
 * Character.isWhitespace / String.isBlank, String.split on a single character,
 * String.indexOf / lastIndexOf, Integer.toHexString and Integer.toString.
 *
 * Strings are sequences of Dafny characters; a Java char is taken to be the code of one
 * character (text outside the Basic Multilingual Plane is not modelled).
 */
module JavaLang {

  const TWO_31: int := 0x8000_0000
  const TWO_32: int := 0x1_0000_0000

  /** Java `int`. */
  type Int32 = x: int | -0x8000_0000 <= x < 0x8000_0000
  /** Java `long`. */
  type Int64 = x: int | -0x8000_0000_0000_0000 <= x < 0x8000_0000_0000_0000

  function Pow2(n: nat): (r: nat)
    ensures r >= 1
  {
    if n == 0 then 1 else 2 * Pow2(n - 1)
  }

  lemma Pow2Of32()
    ensures Pow2(32) == TWO_32
  {
    assert Pow2(4) == 16;
    assert Pow2(8) == 256;
    assert Pow2(12) == 4096;
    assert Pow2(16) == 65536;
    assert Pow2(20) == 0x10_0000;
    assert Pow2(24) == 0x100_0000;
    assert Pow2(28) == 0x1000_0000;
  }

  /** Java's `int` arithmetic: the int congruent to `x` modulo 2^32. */
  function Wrap32(x: int): (r: Int32)
    ensures (r - x) % TWO_32 == 0
    ensures -TWO_31 <= x < TWO_31 ==> r == x
  {
    (x + TWO_31) % TWO_32 - TWO_31
  }

  /** Two ints congruent modulo 2^32 are the same int. */
  lemma Wrap32Unique(a: Int32, b: Int32)
    requires (a - b) % TWO_32 == 0
    ensures a == b
  {
    var d := a - b;
    assert -TWO_32 < d < TWO_32;
    assert d == (d / TWO_32) * TWO_32;
  }

  /** Wrapping is compatible with any change of the argument by a multiple of 2^32. */
  lemma Wrap32Congruent(x: int, y: int)
    requires (x - y) % TWO_32 == 0
    ensures Wrap32(x) == Wrap32(y)
  {
    var rx, ry := Wrap32(x), Wrap32(y);
    assert rx - ry == (rx - x) + (x - y) + (y - ry);
    ModSum3(rx - x, x - y, y - ry);
    Wrap32Unique(rx, ry);
  }

  lemma ModSum3(a: int, b: int, c: int)
    requires a % TWO_32 == 0 && b % TWO_32 == 0 && c % TWO_32 == 0
    ensures (a + b + c) % TWO_32 == 0
  {
    assert a == (a / TWO_32) * TWO_32;
    assert b == (b / TWO_32) * TWO_32;
    assert c == (c / TWO_32) * TWO_32;
    assert a + b + c == (a / TWO_32 + b / TWO_32 + c / TWO_32) * TWO_32;
  }

  lemma MulLe(m: int, s: int, t: int)
    requires m > 0 && s <= t
    ensures m * s <= m * t
  {
  }

  lemma MulSub(d: int, a: int, b: int)
    ensures d * (a - b) == d * a - d * b
  {
  }

  /** Euclidean division is determined by quotient and remainder. */
  lemma DivUnique(z: int, d: int, q: int, r: int)
    requires d > 0 && z == d * q + r && 0 <= r < d
    ensures z / d == q && z % d == r
  {
    var q', r' := z / d, z % d;
    assert z == d * q' + r';
    MulSub(d, q, q');
    assert d * (q - q') == r' - r;
    if q > q' {
      MulLe(d, 1, q - q');
    } else if q < q' {
      MulLe(d, 1, q' - q);
      MulSub(d, q', q);
    }
  }

  /** Taking the quotient by b modulo p and then the remainder by b gives the remainder by b * p. */
  lemma ModStep(h: int, b: int, p: int)
    requires b > 0 && p > 0
    ensures b * ((h / b) % p) + h % b == h % (b * p)
  {
    var q, r := h / b, h % b;
    var t, s := q / p, q % p;
    assert q == p * t + s;
    assert b * q == b * (p * t + s);
    assert b * (p * t + s) == (b * p) * t + b * s;
    MulLe(b, s, p - 1);
    MulSub(b, p, 1);
    DivUnique(h, b * p, t, b * s + r);
  }

  /** The 32-bit pattern of an int, read as an unsigned number. */
  function Unsigned32(x: Int32): (u: nat)
    ensures u < TWO_32
    ensures (u - x) % TWO_32 == 0
    ensures x >= 0 ==> u == x
  {
    if x < 0 then x + TWO_32 else x
  }

  /** The int whose 32-bit pattern is `u`. */
  function Signed32(u: nat): (x: Int32)
    requires u < TWO_32
    ensures Unsigned32(x) == u
  {
    if u < TWO_31 then u else u - TWO_32
  }

  /** Bitwise AND of the low `n` bits of two naturals. */
  function AndBits(x: nat, y: nat, n: nat): (r: nat)
    ensures r < Pow2(n)
  {
    if n == 0 then 0
    else 2 * AndBits(x / 2, y / 2, n - 1) + (if x % 2 == 1 && y % 2 == 1 then 1 else 0)
  }

  /** Java's `a & b` on ints. */
  function BitAnd32(a: Int32, b: Int32): Int32
  {
    Pow2Of32();
    Signed32(AndBits(Unsigned32(a), Unsigned32(b), 32))
  }

  /** Java's `~a` on ints. */
  function BitNot32(a: Int32): (r: Int32)
    ensures Unsigned32(r) == TWO_32 - 1 - Unsigned32(a)
  {
    -(a as int) - 1
  }

  /** Java's String.hashCode: s[0]*31^(n-1) + ... + s[n-1], in int arithmetic. */
  function StringHash(s: string): Int32
  {
    if s == [] then 0 else Wrap32(31 * StringHash(s[..|s| - 1]) + s[|s| - 1] as int)
  }

  /** Character.isWhitespace. */
  predicate IsWhitespace(c: char)
  {
    var k := c as int;
    k == 0x20 || (0x09 <= k <= 0x0D) || (0x1C <= k <= 0x1F)
    || k == 0x1680 || (0x2000 <= k <= 0x2006) || (0x2008 <= k <= 0x200A)
    || k == 0x2028 || k == 0x2029 || k == 0x205F || k == 0x3000
  }

  /** String.isBlank: empty or whitespace only. */
  predicate IsBlank(s: string)
  {
    forall i :: 0 <= i < |s| ==> IsWhitespace(s[i])
  }

  /** Splits `s` at every `sep`, keeping empty pieces: n separators give n + 1 pieces. */
  function FullSplit(s: string, sep: char): (parts: seq<string>)
    ensures |parts| >= 1
    ensures forall i :: 0 <= i < |parts| ==> sep !in parts[i]
  {
    if s == [] then [""]
    else if s[0] == sep then [""] + FullSplit(s[1..], sep)
    else
      var rest := FullSplit(s[1..], sep);
      [[s[0]] + rest[0]] + rest[1..]
  }

  function DropTrailingEmpty(parts: seq<string>): (r: seq<string>)
    ensures |r| <= |parts| && r == parts[..|r|]
    ensures r == [] || r[|r| - 1] != ""
    ensures forall i :: |r| <= i < |parts| ==> parts[i] == ""
  {
    if parts != [] && parts[|parts| - 1] == "" then DropTrailingEmpty(parts[..|parts| - 1]) else parts
  }

  /**
   * String.split with a one-character pattern: without a separator the whole string is the
   * only piece; otherwise trailing empty pieces are removed.
   */
  function Split(s: string, sep: char): (parts: seq<string>)
    ensures forall i :: 0 <= i < |parts| ==> sep !in parts[i]
  {
    if sep !in s then [s] else DropTrailingEmpty(FullSplit(s, sep))
  }

  /** String.join. */
  function Join(parts: seq<string>, sep: char): string
  {
    if parts == [] then ""
    else if |parts| == 1 then parts[0]
    else Join(parts[..|parts| - 1], sep) + [sep] + parts[|parts| - 1]
  }

  lemma {:induction false} JoinFullSplit(s: string, sep: char)
    ensures Join(FullSplit(s, sep), sep) == s
  {
    if s == [] {
    } else {
      JoinFullSplit(s[1..], sep);
      var rest := FullSplit(s[1..], sep);
      if s[0] == sep {
        JoinPrepend(rest, sep);
      } else {
        JoinHead(rest, [s[0]], sep);
      }
      assert [s[0]] + s[1..] == s;
    }
  }

  lemma {:induction false} JoinPrepend(parts: seq<string>, sep: char)
    requires |parts| >= 1
    ensures Join([""] + parts, sep) == [sep] + Join(parts, sep)
    decreases |parts|
  {
    if |parts| == 1 {
    } else {
      var init := parts[..|parts| - 1];
      assert ([""] + parts)[..|parts|] == [""] + init;
      JoinPrepend(init, sep);
    }
  }

  lemma {:induction false} JoinHead(parts: seq<string>, h: string, sep: char)
    requires |parts| >= 1
    ensures Join([h + parts[0]] + parts[1..], sep) == h + Join(parts, sep)
    decreases |parts|
  {
    if |parts| == 1 {
    } else {
      var init := parts[..|parts| - 1];
      assert ([h + parts[0]] + parts[1..])[..|parts| - 1] == [h + init[0]] + init[1..];
      JoinHead(init, h, sep);
    }
  }

  /** Splitting at a separator that ends the first piece. */
  lemma {:induction false} FullSplitConcat(a: string, b: string, sep: char)
    requires sep !in a
    ensures FullSplit(a + [sep] + b, sep) == [a] + FullSplit(b, sep)
  {
    if a != [] {
      assert (a + [sep] + b)[1..] == a[1..] + [sep] + b;
      FullSplitConcat(a[1..], b, sep);
      assert [a[0]] + a[1..] == a;
    }
  }

  lemma {:induction false} FullSplitNoSep(a: string, sep: char)
    requires sep !in a
    ensures FullSplit(a, sep) == [a]
  {
    if a != [] {
      FullSplitNoSep(a[1..], sep);
      assert [a[0]] + a[1..] == a;
    }
  }

  lemma {:induction false} JoinCons(p: string, rest: seq<string>, sep: char)
    requires |rest| >= 1
    ensures Join([p] + rest, sep) == p + [sep] + Join(rest, sep)
    decreases |rest|
  {
    if |rest| > 1 {
      var init := rest[..|rest| - 1];
      assert ([p] + rest)[..|rest|] == [p] + init;
      JoinCons(p, init, sep);
    }
  }

  /** Joining pieces free of the separator and splitting again gives the pieces back. */
  lemma {:induction false} FullSplitJoin(parts: seq<string>, sep: char)
    requires |parts| >= 1
    requires forall i :: 0 <= i < |parts| ==> sep !in parts[i]
    ensures FullSplit(Join(parts, sep), sep) == parts
    decreases |parts|
  {
    if |parts| == 1 {
      FullSplitNoSep(parts[0], sep);
    } else {
      JoinCons(parts[0], parts[1..], sep);
      assert [parts[0]] + parts[1..] == parts;
      FullSplitJoin(parts[1..], sep);
      FullSplitConcat(parts[0], Join(parts[1..], sep), sep);
    }
  }

  /** `t` occurs in `s` at position `k`. */
  predicate MatchAt(s: string, t: string, k: int)
  {
    0 <= k && k + |t| <= |s| && s[k..k + |t|] == t
  }

  /** String.indexOf(t, from) for a non-empty `t`: the first match at or after `from`, or -1. */
  function IndexOfFrom(s: string, t: string, from: int): (r: int)
    requires t != []
    ensures r == -1 || (r >= from && MatchAt(s, t, r))
    ensures forall k :: from <= k && (r == -1 || k < r) ==> !MatchAt(s, t, k)
    decreases |s| - (if from < 0 then 0 else from)
  {
    var f := if from < 0 then 0 else from;
    if f + |t| > |s| then -1
    else if s[f..f + |t|] == t then f
    else IndexOfFrom(s, t, f + 1)
  }

  function IndexOf(s: string, t: string): (r: int)
    requires t != []
  {
    IndexOfFrom(s, t, 0)
  }

  /** String.lastIndexOf(c): the last position of `c`, or -1. */
  function LastIndexOf(s: string, c: char): (r: int)
    ensures r == -1 <==> c !in s
    ensures r != -1 ==> 0 <= r < |s| && s[r] == c && c !in s[r + 1..]
  {
    if s == [] then -1
    else if s[|s| - 1] == c then |s| - 1
    else
      var r := LastIndexOf(s[..|s| - 1], c);
      assert s[..|s| - 1] + [s[|s| - 1]] == s;
      r
  }

  function HexDigitLower(d: nat): char
    requires d < 16
  {
    "0123456789abcdef"[d]
  }

  /** Integer.toHexString for a non-negative value: lower case, no leading zeros. */
  function ToHexString(n: nat): (r: string)
    ensures r != []
    ensures |r| > 1 ==> r[0] != '0'
  {
    if n < 16 then [HexDigitLower(n)] else ToHexString(n / 16) + [HexDigitLower(n % 16)]
  }

  function HexValue(c: char): nat
  {
    if '0' <= c <= '9' then c as nat - '0' as nat
    else if 'a' <= c <= 'f' then c as nat - 'a' as nat + 10
    else if 'A' <= c <= 'F' then c as nat - 'A' as nat + 10
    else 0
  }

  function ParseHex(s: string): nat
  {
    if s == [] then 0 else 16 * ParseHex(s[..|s| - 1]) + HexValue(s[|s| - 1])
  }

  lemma HexDigitValue(d: nat)
    requires d < 16
    ensures HexValue(HexDigitLower(d)) == d
  {
    if d < 10 {
      assert "0123456789abcdef"[d] == ('0' as int + d) as char;
    } else {
      assert "0123456789abcdef"[d] == ('a' as int + d - 10) as char;
    }
  }

  /** Integer.toHexString can be read back. */
  lemma {:induction false} ParseToHexString(n: nat)
    ensures ParseHex(ToHexString(n)) == n
  {
    if n >= 16 {
      ParseToHexString(n / 16);
      HexDigitValue(n % 16);
      var s := ToHexString(n / 16) + [HexDigitLower(n % 16)];
      assert s[..|s| - 1] == ToHexString(n / 16);
    } else {
      HexDigitValue(n);
    }
  }

  function DecimalDigits(n: nat): (r: string)
    ensures r != []
  {
    if n < 10 then ["0123456789"[n]] else DecimalDigits(n / 10) + ["0123456789"[n % 10]]
  }

  /** Integer.toString / Long.toString. */
  function DecimalString(i: int): string
  {
    if i < 0 then "-" + DecimalDigits(-i) else DecimalDigits(i)
  }
}
