/**
 * The few pieces of the Java platform whose exact behaviour the model depends on:
 * 32-bit `int` arithmetic, `String.hashCode`, `Long.hashCode`, `Boolean.hashCode`,
 * `String.lastIndexOf`, `String.split` with a one-character pattern, `Long.parseLong`
 * and ASCII lower-casing.
 */
module JavaLang {
  import opened Wrappers

  const TWO_32: int := 0x1_0000_0000
  const TWO_64: int := 0x1_0000_0000_0000_0000
  const LONG_MIN: int := -0x8000_0000_0000_0000
  const LONG_MAX: int := 0x7fff_ffff_ffff_ffff

  /** A Java `int`. */
  type Int32 = x: int | -0x8000_0000 <= x < 0x8000_0000

  /** A Java `long`. */
  type Int64 = x: int | -0x8000_0000_0000_0000 <= x < 0x8000_0000_0000_0000

  /* ---------------------------- int arithmetic ---------------------------- */

  /** The Java `int` congruent to x modulo 2^32: what an overflowing `int` expression yields. */
  function Wrap32(x: int): (r: Int32)
    ensures (x - r) % TWO_32 == 0
  {
    var m := x % TWO_32;
    if m < 0x8000_0000 then m else m - TWO_32
  }

  /** Java `a + b` on two `int`s. */
  function AddInt(a: Int32, b: Int32): Int32
  {
    Wrap32(a + b)
  }

  /** An `int` congruent to x modulo 2^32 is the wrapped value of x. */
  lemma Wrap32Unique(x: int, y: Int32)
    requires (x - y) % TWO_32 == 0
    ensures Wrap32(x) == y
  {
    var r := Wrap32(x);
    var a := (x - r) / TWO_32;
    var b := (x - y) / TWO_32;
    assert x - r == TWO_32 * a;
    assert x - y == TWO_32 * b;
    assert r - y == TWO_32 * (b - a);
  }

  /** The Java `long` congruent to x modulo 2^64: what an overflowing `long` expression yields. */
  function Wrap64(x: int): (r: Int64)
    ensures (x - r) % TWO_64 == 0
  {
    var m := x % TWO_64;
    if m < 0x8000_0000_0000_0000 then m else m - TWO_64
  }

  /** Java `a - b` on two `long`s. */
  function SubLong(a: Int64, b: Int64): Int64
  {
    Wrap64(a - b)
  }

  /** Wrapping an intermediate sum does not change the wrapped total. */
  lemma Wrap32AddLeft(x: int, y: int)
    ensures Wrap32(Wrap32(x) + y) == Wrap32(x + y)
  {
    var w := Wrap32(x + y);
    var a := (x - Wrap32(x)) / TWO_32;
    var b := (x + y - w) / TWO_32;
    assert x - Wrap32(x) == TWO_32 * a;
    assert x + y - w == TWO_32 * b;
    assert (Wrap32(x) + y) - w == TWO_32 * (b - a);
    Wrap32Unique(Wrap32(x) + y, w);
  }

  /** `int` addition is commutative and associative, overflow included. */
  lemma AddIntAssociative(a: Int32, b: Int32, c: Int32)
    ensures AddInt(AddInt(a, b), c) == AddInt(a, AddInt(b, c))
  {
    Wrap32AddLeft(a + b, c);
    Wrap32AddLeft(b + c, a);
  }

  /** Adding the same `int` to two different `int`s never makes them equal. */
  lemma AddIntInjective(a: Int32, a': Int32, b: Int32)
    requires a != a'
    ensures AddInt(a, b) != AddInt(a', b)
  {
    var w, w' := AddInt(a, b), AddInt(a', b);
    var k := (a + b - w) / TWO_32;
    var k' := (a' + b - w') / TWO_32;
    assert a + b - w == TWO_32 * k;
    assert a' + b - w' == TWO_32 * k';
    assert a as int - a' as int == TWO_32 * (k - k') + (w as int - w' as int);
  }

  /** Java `a ^ b` on two `int`s. */
  function XorInt(a: Int32, b: Int32): Int32
  {
    Wrap32((((a % TWO_32) as bv32) ^ ((b % TWO_32) as bv32)) as int)
  }

  /* ------------------------------ hash codes ------------------------------ */

  /** `String.hashCode`: s[0]*31^(n-1) + ... + s[n-1] in `int` arithmetic. */
  function StringHashCode(s: string): Int32
  {
    if s == [] then 0 else Wrap32(31 * StringHashCode(s[..|s| - 1]) + s[|s| - 1] as int)
  }

  /** `Long.hashCode`: `(int)(v ^ (v >>> 32))`. */
  function LongHashCode(v: Int64): Int32
  {
    var bits := (v % TWO_64) as bv64;
    var folded := bits ^ (bits >> 32);
    Wrap32((folded & 0xFFFF_FFFF) as int)
  }

  /** `Boolean.hashCode`. */
  function BooleanHashCode(b: bool): Int32
  {
    if b then 1231 else 1237
  }

  /** Two different strings with one `String.hashCode`, the classic collision. */
  lemma StringHashCollision()
    ensures StringHashCode("Aa") == StringHashCode("BB") == 2112
  {
    assert "Aa"[..1] == "A" && "BB"[..1] == "B" && "A"[..0] == "B"[..0] == "";
    Wrap32Unique(65, 65);
    Wrap32Unique(66, 66);
    Wrap32Unique(2112, 2112);
    assert StringHashCode("A") == 65 && StringHashCode("B") == 66;
  }

  /* -------------------------------- strings ------------------------------- */

  /** `String.lastIndexOf(char)`: the last position of c, or -1. */
  function LastIndexOf(s: string, c: char): (r: int)
    ensures -1 <= r < |s|
    ensures r >= 0 ==> s[r] == c
    ensures forall j :: r < j < |s| ==> s[j] != c
  {
    if s == [] then -1
    else if s[|s| - 1] == c then |s| - 1
    else LastIndexOf(s[..|s| - 1], c)
  }

  /** The separator found last in `a + [c] + b` is the one between a and b when b has no c. */
  lemma {:induction false} LastIndexOfAppend(a: string, c: char, b: string)
    requires c !in b
    ensures LastIndexOf(a + [c] + b, c) == |a|
    decreases |b|
  {
    var s := a + [c] + b;
    if b != [] {
      assert s[|s| - 1] == b[|b| - 1];
      assert s[..|s| - 1] == a + [c] + b[..|b| - 1];
      LastIndexOfAppend(a, c, b[..|b| - 1]);
    }
  }

  /** Every field of s between occurrences of c, empty ones included. */
  function SplitAll(s: string, c: char): (parts: seq<string>)
    ensures |parts| >= 1
    ensures forall i :: 0 <= i < |parts| ==> c !in parts[i]
    decreases |s|
  {
    var i := LastIndexOf(s, c);
    if i < 0 then [s] else SplitAll(s[..i], c) + [s[i + 1..]]
  }

  /** The parts joined with sep between consecutive ones. */
  function JoinWith(parts: seq<string>, sep: string): string
  {
    if |parts| == 0 then ""
    else if |parts| == 1 then parts[0]
    else JoinWith(parts[..|parts| - 1], sep) + sep + parts[|parts| - 1]
  }

  /** Splitting a joined sequence of c-free parts on c gives the parts back. */
  lemma {:induction false} SplitAllJoin(parts: seq<string>, c: char)
    requires |parts| >= 1
    requires forall i :: 0 <= i < |parts| ==> c !in parts[i]
    ensures SplitAll(JoinWith(parts, [c]), c) == parts
  {
    if |parts| > 1 {
      var init, last := parts[..|parts| - 1], parts[|parts| - 1];
      var s := JoinWith(parts, [c]);
      assert s == JoinWith(init, [c]) + [c] + last;
      LastIndexOfAppend(JoinWith(init, [c]), c, last);
      assert s[..|JoinWith(init, [c])|] == JoinWith(init, [c]);
      assert s[|JoinWith(init, [c])| + 1..] == last;
      SplitAllJoin(init, c);
      assert parts == init + [last];
    }
  }

  /** Joining the fields of s with c gives s back. */
  lemma {:induction false} JoinSplitAll(s: string, c: char)
    ensures JoinWith(SplitAll(s, c), [c]) == s
    decreases |s|
  {
    var i := LastIndexOf(s, c);
    if i >= 0 {
      var parts := SplitAll(s[..i], c);
      JoinSplitAll(s[..i], c);
      var all := parts + [s[i + 1..]];
      assert all[..|all| - 1] == parts;
      assert s == s[..i] + [c] + s[i + 1..];
    }
  }

  /** Removes the empty strings at the end, as `String.split` does. */
  function DropTrailingEmpty(parts: seq<string>): (r: seq<string>)
    ensures |r| <= |parts| && r == parts[..|r|]
    ensures |r| > 0 ==> r[|r| - 1] != ""
    ensures forall i :: |r| <= i < |parts| ==> parts[i] == ""
  {
    if |parts| > 0 && parts[|parts| - 1] == "" then DropTrailingEmpty(parts[..|parts| - 1]) else parts
  }

  /**
   * `String.split(String)` for a one-character pattern that is not a regular-expression
   * metacharacter: no occurrence gives the whole string, otherwise the fields with the
   * trailing empty ones removed.
   */
  function JavaSplit(s: string, c: char): seq<string>
  {
    if c !in s then [s] else DropTrailingEmpty(SplitAll(s, c))
  }

  /** ASCII lower-casing (`String.toLowerCase` restricted to A-Z). */
  function ToLowerAscii(s: string): (r: string)
    ensures |r| == |s|
  {
    seq(|s|, i requires 0 <= i < |s| => if 'A' <= s[i] <= 'Z' then (s[i] as int + 32) as char else s[i])
  }

  /* ------------------------------ Long.parseLong ---------------------------- */

  predicate IsDigit(ch: char)
  {
    '0' <= ch <= '9'
  }

  predicate AllDigits(s: string)
  {
    forall i :: 0 <= i < |s| ==> IsDigit(s[i])
  }

  /** The value of a string of decimal digits. */
  function DigitsValue(s: string): nat
    requires AllDigits(s)
  {
    if s == [] then 0 else 10 * DigitsValue(s[..|s| - 1]) + (s[|s| - 1] as int - '0' as int)
  }

  /**
   * `Long.parseLong` on ASCII text: an optional sign, at least one digit, and a value
   * within the `long` range; anything else is a `NumberFormatException` (`None`).
   */
  function ParseLong(s: string): (r: Option<int>)
    ensures r.Some? ==> LONG_MIN <= r.value <= LONG_MAX
  {
    if |s| == 0 then None
    else
      var digits := if s[0] == '-' || s[0] == '+' then s[1..] else s;
      if |digits| == 0 || !AllDigits(digits) then None
      else
        var v: int := if s[0] == '-' then -(DigitsValue(digits) as int) else DigitsValue(digits);
        if LONG_MIN <= v <= LONG_MAX then Some(v) else None
  }

  /** `Long.toString` for a non-negative value. */
  function Decimal(n: nat): (s: string)
    ensures |s| >= 1 && AllDigits(s)
  {
    if n < 10 then [('0' as int + n) as char]
    else Decimal(n / 10) + [('0' as int + n % 10) as char]
  }

  lemma {:induction false} DecimalValue(n: nat)
    ensures DigitsValue(Decimal(n)) == n
  {
    if n >= 10 {
      DecimalValue(n / 10);
      var s := Decimal(n);
      assert s[..|s| - 1] == Decimal(n / 10);
    }
  }

  /** `Long.parseLong(Long.toString(n)) == n` for every non-negative `long`. */
  lemma ParseDecimal(n: nat)
    requires n <= LONG_MAX
    ensures ParseLong(Decimal(n)) == Some(n)
  {
    DecimalValue(n);
    assert IsDigit(Decimal(n)[0]);
  }

  /** `Integer.toString` / `Long.toString`: optional minus sign, then the decimal digits. */
  function IntegerToString(x: int): string
  {
    if x < 0 then "-" + Decimal(-x) else Decimal(x)
  }

  /** `Long.parseLong(Long.toString(x)) == x` for every `long` x. */
  lemma ParseIntegerToString(x: Int64)
    ensures ParseLong(IntegerToString(x)) == Some(x as int)
  {
    if x < 0 {
      var n: nat := -(x as int);
      var s := IntegerToString(x);
      assert s == "-" + Decimal(n);
      assert s[0] == '-' && s[1..] == Decimal(n);
      DecimalValue(n);
      assert ParseLong(s) == Some(-(n as int));
    } else {
      ParseDecimal(x);
    }
  }

  /** Different numbers have different decimal renderings. */
  lemma IntegerToStringInjective(x: Int64, y: Int64)
    requires IntegerToString(x) == IntegerToString(y)
    ensures x == y
  {
    ParseIntegerToString(x);
    ParseIntegerToString(y);
  }
}
