/**
 * Language-level helpers shared by every other module: an Option type, the
 * draw type that stands for `Math.random()`, JavaScript's rounding, the string
 * operations the engine relies on (trim, split, join, includes, startsWith)
 * and the number/string coercions of the values stored in player variables.
 */
module Common {

  datatype Option<+T> = None | Some(value: T) {
    function GetOr(default: T): T {
      match this
      case Some(v) => v
      case None => default
    }
  }

  /** One result of `Math.random()`: a real in [0, 1). */
  type Unit = r: real | 0.0 <= r < 1.0

  function Max(a: real, b: real): (m: real)
    ensures m >= a && m >= b && (m == a || m == b)
  {
    if a >= b then a else b
  }

  /** Concatenation is associative. */
  lemma ConcatAssociates<T>(x: seq<T>, y: seq<T>, z: seq<T>)
    ensures x + y + z == x + (y + z)
  {
  }

  /** A concatenation splits back into its parts. */
  lemma DropPrefix<T>(x: seq<T>, y: seq<T>)
    ensures (x + y)[..|x|] == x && (x + y)[|x|..] == y
  {
  }

  /** `Math.round(x)`: the nearest integer, halves rounded up. */
  function Round(x: real): (n: int)
    ensures x - 0.5 < n as real <= x + 0.5
  {
    (x + 0.5).Floor
  }

  /** `Math.floor(r * n)` for a draw r: a uniform index into n items. */
  function RandomIndex(r: Unit, n: nat): (i: nat)
    requires n > 0
    ensures i < n
  {
    assert 0.0 <= r * n as real < n as real by {
      assert r * n as real <= 1.0 * n as real;
      assert (1.0 - r) * n as real > 0.0;
    }
    (r * n as real).Floor
  }

  /**
   * The pick is uniform: index i is chosen exactly by the draws in
   * [i/n, (i+1)/n), an interval of width 1/n.
   */
  lemma RandomIndexIff(r: Unit, n: nat, i: nat)
    requires i < n
    ensures RandomIndex(r, n) == i <==> i as real <= r * n as real < (i + 1) as real
  {
  }

  // ---------------------------------------------------------------------------
  // Characters and strings

  /** The characters matched by `\s` and removed by `String.prototype.trim`. */
  predicate IsSpace(c: char) {
    c == ' ' || c == '\t' || c == '\n' || c == '\r' || c == '\U{000B}' || c == '\U{000C}'
    || c == '\U{00A0}' || c == '\U{1680}' || ('\U{2000}' <= c <= '\U{200A}')
    || c == '\U{2028}' || c == '\U{2029}' || c == '\U{202F}' || c == '\U{205F}'
    || c == '\U{3000}' || c == '\U{FEFF}'
  }

  /** The characters a regular-expression `.` does not match. */
  predicate IsLineTerminator(c: char) {
    c == '\n' || c == '\r' || c == '\U{2028}' || c == '\U{2029}'
  }

  lemma LineTerminatorIsSpace(c: char)
    ensures IsLineTerminator(c) ==> IsSpace(c)
  {
  }

  predicate IsDigit(c: char) {
    '0' <= c <= '9'
  }

  /** The number of white-space characters at the start of s. */
  function LeadingSpaces(s: string): (n: nat)
    ensures n <= |s| && (n == |s| || !IsSpace(s[n]))
    ensures forall k :: 0 <= k < n ==> IsSpace(s[k])
  {
    if s != [] && IsSpace(s[0]) then 1 + LeadingSpaces(s[1..]) else 0
  }

  /** The length of s without its trailing white space. */
  function UntrailedLength(s: string): (n: nat)
    ensures n <= |s| && (n == 0 || !IsSpace(s[n - 1]))
    ensures forall k :: n <= k < |s| ==> IsSpace(s[k])
  {
    if s != [] && IsSpace(s[|s| - 1]) then UntrailedLength(s[..|s| - 1]) else |s|
  }

  function TrimStart(s: string): string {
    s[LeadingSpaces(s)..]
  }

  function TrimEnd(s: string): string {
    s[..UntrailedLength(s)]
  }

  /** `String.prototype.trim`. */
  function Trim(s: string): (r: string)
    ensures r == [] || (!IsSpace(r[0]) && !IsSpace(r[|r| - 1]))
  {
    TrimEnd(TrimStart(s))
  }

  /** Every character of x is white space. */
  predicate AllSpace(x: string) {
    forall k :: 0 <= k < |x| ==> IsSpace(x[k])
  }

  /** Trim removes only surrounding white space: s is a run of it, the trimmed text, and another run. */
  lemma TrimIsInfix(s: string)
    ensures LeadingSpaces(s) + |Trim(s)| <= |s|
    ensures s == s[..LeadingSpaces(s)] + Trim(s) + s[LeadingSpaces(s) + |Trim(s)|..]
    ensures AllSpace(s[..LeadingSpaces(s)]) && AllSpace(s[LeadingSpaces(s) + |Trim(s)|..])
  {
    TrimParts(s);
    LeadingRunAllSpace(s);
    TrailingRunAllSpace(s);
  }

  /** The trimmed text is the untrailed prefix of what follows the leading run. */
  lemma TrimParts(s: string)
    ensures LeadingSpaces(s) + UntrailedLength(s[LeadingSpaces(s)..]) <= |s|
    ensures Trim(s) == s[LeadingSpaces(s)..][..UntrailedLength(s[LeadingSpaces(s)..])]
    ensures s == s[..LeadingSpaces(s)] + Trim(s) + s[LeadingSpaces(s) + |Trim(s)|..]
  {
    var i := LeadingSpaces(s);
    var n := UntrailedLength(s[i..]);
    SliceThree(s, i, n);
  }

  /** s cut at i and at i + n, the middle part taken as a prefix of s[i..]. */
  lemma SliceThree<T>(s: seq<T>, i: nat, n: nat)
    requires i + n <= |s|
    ensures s == s[..i] + s[i..][..n] + s[i + n..]
  {
    var t := s[i..];
    assert t == t[..n] + t[n..];
    assert s == s[..i] + t;
    assert s[i + n..] == t[n..];
    ConcatAssociates(s[..i], t[..n], t[n..]);
  }

  lemma LeadingRunAllSpace(s: string)
    ensures AllSpace(s[..LeadingSpaces(s)])
  {
    var i := LeadingSpaces(s);
    forall k | 0 <= k < i
      ensures IsSpace(s[..i][k])
    {
      assert s[..i][k] == s[k];
    }
  }

  lemma TrailingRunAllSpace(s: string)
    ensures LeadingSpaces(s) + |Trim(s)| <= |s| && AllSpace(s[LeadingSpaces(s) + |Trim(s)|..])
  {
    var i := LeadingSpaces(s);
    var t := s[i..];
    var n := UntrailedLength(t);
    assert |Trim(s)| == n;
    var u := s[i + n..];
    forall k | 0 <= k < |u|
      ensures IsSpace(u[k])
    {
      assert u[k] == t[n + k];
    }
  }

  lemma TrimOfUnspaced(s: string)
    requires s == [] || (!IsSpace(s[0]) && !IsSpace(s[|s| - 1]))
    ensures Trim(s) == s
  {
    assert TrimStart(s) == s;
    assert TrimEnd(s) == s;
  }

  function StartsWith(s: string, prefix: string): bool {
    |prefix| <= |s| && s[..|prefix|] == prefix
  }

  /** `String.prototype.includes`. */
  predicate Contains(s: string, sub: string) {
    StartsWith(s, sub) || (s != [] && Contains(s[1..], sub))
  }

  /** `s.split(sep)` for a one-character separator: never empty. */
  function Split(s: string, sep: char): (r: seq<string>)
    ensures |r| >= 1
    ensures forall k :: 0 <= k < |r| ==> sep !in r[k]
  {
    if s == [] then [""]
    else
      var rest := Split(s[1..], sep);
      assert s == [s[0]] + s[1..];
      if s[0] == sep then [""] + rest
      else [[s[0]] + rest[0]] + rest[1..]
  }

  /** `parts.join(sep)`. */
  function Join(parts: seq<string>, sep: string): string {
    if |parts| == 0 then ""
    else if |parts| == 1 then parts[0]
    else parts[0] + sep + Join(parts[1..], sep)
  }

  /** Joining the pieces of a split with the separator gives the string back. */
  lemma {:induction false} JoinSplit(s: string, sep: char)
    ensures Join(Split(s, sep), [sep]) == s
  {
    if s != [] {
      var rest := Split(s[1..], sep);
      JoinSplit(s[1..], sep);
      assert Join(rest, [sep]) == s[1..];
      assert s == [s[0]] + s[1..];
      if s[0] == sep {
        assert Split(s, sep) == [""] + rest;
        assert ([""] + rest)[1..] == rest;
        assert Join([""] + rest, [sep]) == "" + [sep] + Join(rest, [sep]);
      } else if |rest| == 1 {
        assert Split(s, sep) == [[s[0]] + rest[0]];
      } else {
        var parts := [[s[0]] + rest[0]] + rest[1..];
        assert Split(s, sep) == parts;
        assert parts[1..] == rest[1..];
        assert Join(parts, [sep]) == [s[0]] + rest[0] + [sep] + Join(rest[1..], [sep]);
        assert Join(rest, [sep]) == rest[0] + [sep] + Join(rest[1..], [sep]);
      }
    }
  }

  /** A split yields one piece exactly when the separator does not occur. */
  lemma {:induction false} SplitSingleIffNoSeparator(s: string, sep: char)
    ensures |Split(s, sep)| == 1 <==> sep !in s
  {
    if s != [] {
      SplitSingleIffNoSeparator(s[1..], sep);
      assert s == [s[0]] + s[1..];
    }
  }

  // ---------------------------------------------------------------------------
  // Numbers as text

  function DigitChar(d: nat): (c: char)
    requires d < 10
    ensures IsDigit(c)
  {
    "0123456789"[d]
  }

  function NatToString(n: nat): (s: string)
    ensures |s| >= 1 && forall k :: 0 <= k < |s| ==> IsDigit(s[k])
  {
    if n < 10 then [DigitChar(n)] else NatToString(n / 10) + [DigitChar(n % 10)]
  }

  /** `String(n)` for an integer. */
  function IntToString(n: int): string {
    if n < 0 then "-" + NatToString(-n) else NatToString(n)
  }

  /** The number of tenths nearest to a non-negative x, the larger on a tie. */
  function TenthsOf(x: real): (n: nat)
    requires x >= 0.0
    ensures n as real - 0.5 <= x * 10.0 < n as real + 0.5
  {
    (x * 10.0 + 0.5).Floor
  }

  /** `x.toFixed(1)`: the sign, then the nearest multiple of 0.1 with exactly one decimal. */
  function ToFixed1(x: real): string {
    var a := if x < 0.0 then -x else x;
    var n := TenthsOf(a);
    (if x < 0.0 then "-" else "") + NatToString(n / 10) + "." + [DigitChar(n % 10)]
  }

  /** Half-integers, the values a player's age takes, print with `.0` or `.5`. */
  lemma ToFixed1Halves(h: nat)
    ensures ToFixed1(h as real / 2.0) == NatToString(h / 2) + (if h % 2 == 0 then ".0" else ".5")
  {
    var x := h as real / 2.0;
    HalvesInTenths(h);
    assert TenthsOf(x) == 5 * h;
    TenthsDigits(h);
  }

  lemma HalvesInTenths(h: nat)
    ensures (h as real / 2.0) * 10.0 == (5 * h) as real
  {
  }

  lemma TenthsDigits(h: nat)
    ensures (5 * h) / 10 == h / 2 && (5 * h) % 10 == (if h % 2 == 0 then 0 else 5)
  {
    var q, e := h / 2, h % 2;
    assert h == 2 * q + e;
    assert 5 * h == 10 * q + 5 * e;
  }

  function DigitsValue(s: string): nat
    requires forall k :: 0 <= k < |s| ==> IsDigit(s[k])
  {
    if s == [] then 0
    else
      assert IsDigit(s[|s| - 1]);
      DigitsValue(s[..|s| - 1]) * 10 + (s[|s| - 1] as int - '0' as int)
  }

  /** The value of the digits after a decimal point: "25" is 0.25. */
  function FractionValue(s: string): real
    requires forall k :: 0 <= k < |s| ==> IsDigit(s[k])
  {
    if s == [] then 0.0
    else ((s[0] as int - '0' as int) as real + FractionValue(s[1..])) / 10.0
  }

  /** The position of the first occurrence of c in s. */
  function FirstIndex(s: string, c: char): (k: nat)
    requires c in s
    ensures k < |s| && s[k] == c && c !in s[..k]
  {
    if s[0] == c then 0 else assert s == [s[0]] + s[1..]; 1 + FirstIndex(s[1..], c)
  }

  predicate AllDigits(s: string) {
    forall k :: 0 <= k < |s| ==> IsDigit(s[k])
  }

  /** An unsigned decimal literal: digits, optionally a point and more digits, at least one digit in all. */
  function ParseUnsigned(t: string): Option<real> {
    if '.' in t then
      var k := FirstIndex(t, '.');
      var ip, fp := t[..k], t[k + 1..];
      if AllDigits(ip) && AllDigits(fp) && |ip| + |fp| > 0
      then Some(DigitsValue(ip) as real + FractionValue(fp))
      else None
    else if AllDigits(t) && |t| > 0 then Some(DigitsValue(t) as real)
    else None
  }

  /**
   * `Number(s)` for a string: surrounding white space is ignored, the empty
   * string is 0, a signed decimal literal is its value, anything else is NaN
   * (None). Exponents, hexadecimal/octal/binary prefixes and "Infinity" are
   * read as NaN.
   */
  function ParseNumber(s: string): Option<real> {
    ParseTrimmed(Trim(s))
  }

  /** `Number` of a string without surrounding white space. */
  function ParseTrimmed(t: string): Option<real> {
    if t == [] then Some(0.0)
    else if t[0] == '-' then Negated(ParseUnsigned(t[1..]))
    else if t[0] == '+' then ParseUnsigned(t[1..])
    else ParseUnsigned(t)
  }

  function Negated(n: Option<real>): Option<real> {
    if n.Some? then Some(-n.value) else None
  }

  lemma {:induction false} DigitsValueOfNatToString(n: nat)
    ensures DigitsValue(NatToString(n)) == n
  {
    var s := NatToString(n);
    if n >= 10 {
      DigitsValueOfNatToString(n / 10);
      assert s[..|s| - 1] == NatToString(n / 10);
    }
  }

  /** A run of digits without a point reads as its decimal value. */
  lemma ParseUnsignedDigits(d: string)
    requires |d| > 0 && AllDigits(d)
    ensures ParseUnsigned(d) == Some(DigitsValue(d) as real)
  {
    assert forall k :: 0 <= k < |d| ==> d[k] != '.';
  }

  /** An unsigned run of digits reads as its decimal value. */
  lemma ParsePositive(d: string)
    requires |d| > 0 && AllDigits(d)
    ensures ParseNumber(d) == Some(DigitsValue(d) as real)
  {
    assert IsDigit(d[0]) && IsDigit(d[|d| - 1]);
    TrimOfUnspaced(d);
    assert ParseTrimmed(d) == ParseUnsigned(d);
    ParseUnsignedDigits(d);
  }

  lemma MinusDigitsUnspaced(d: string)
    requires |d| > 0 && AllDigits(d)
    ensures ParseNumber("-" + d) == ParseTrimmed("-" + d)
  {
    var neg := "-" + d;
    assert IsDigit(neg[|neg| - 1]);
    TrimOfUnspaced(neg);
  }

  lemma ParseTrimmedMinus(d: string)
    ensures ParseTrimmed("-" + d) == Negated(ParseUnsigned(d))
  {
    var neg := "-" + d;
    assert neg[0] == '-' && neg[1..] == d;
  }

  lemma ParseTrimmedMinusDigits(d: string)
    requires |d| > 0 && AllDigits(d)
    ensures ParseTrimmed("-" + d) == Some(-(DigitsValue(d) as real))
  {
    ParseTrimmedMinus(d);
    ParseUnsignedDigits(d);
    var u := ParseUnsigned(d);
    assert Negated(u) == Some(-(DigitsValue(d) as real));
  }

  /** A minus sign and a run of digits read as the negated decimal value. */
  lemma ParseNegative(d: string)
    requires |d| > 0 && AllDigits(d)
    ensures ParseNumber("-" + d) == Some(-(DigitsValue(d) as real))
  {
    MinusDigitsUnspaced(d);
    ParseTrimmedMinusDigits(d);
  }

  /** Reading back the decimal text of an integer gives the integer. */
  lemma ParseIntToString(n: int)
    ensures ParseNumber(IntToString(n)) == Some(n as real)
  {
    var a: nat := if n < 0 then -n else n;
    DigitsValueOfNatToString(a);
    var d := NatToString(a);
    if n < 0 {
      ParseNegative(d);
      assert IntToString(n) == "-" + d;
    } else {
      ParsePositive(d);
      assert IntToString(n) == d;
    }
  }

  // ---------------------------------------------------------------------------
  // Sequences

  function Filter<T(!new)>(s: seq<T>, f: T -> bool): (r: seq<T>)
    ensures |r| <= |s|
    ensures forall x :: x in r <==> x in s && f(x)
    ensures forall k :: 0 <= k < |r| ==> f(r[k])
  {
    if s == [] then [] else (if f(s[0]) then [s[0]] else []) + Filter(s[1..], f)
  }

  /** Filtering keeps exactly the occurrences that pass, in order. */
  lemma {:induction false} FilterMultiset<T(!new)>(s: seq<T>, f: T -> bool)
    ensures forall x :: multiset(Filter(s, f))[x] == if f(x) then multiset(s)[x] else 0
  {
    if s != [] {
      FilterMultiset(s[1..], f);
      assert s == [s[0]] + s[1..];
    }
  }

  lemma {:induction false} FilterConcat<T(!new)>(a: seq<T>, b: seq<T>, f: T -> bool)
    ensures Filter(a + b, f) == Filter(a, f) + Filter(b, f)
  {
    if a != [] {
      assert (a + b)[0] == a[0];
      assert (a + b)[1..] == a[1..] + b;
      FilterConcat(a[1..], b, f);
    } else {
      assert a + b == b;
    }
  }

  /** Values a player variable can hold. */
  datatype Value = VInt(i: int) | VStr(s: string) | VBool(b: bool)

  /** `Number(v)`; None stands for NaN. */
  function ToNumber(v: Value): Option<real> {
    match v
    case VInt(i) => Some(i as real)
    case VStr(s) => ParseNumber(s)
    case VBool(b) => Some(if b then 1.0 else 0.0)
  }

  /** `!!v`. */
  predicate Truthy(v: Value) {
    match v
    case VInt(i) => i != 0
    case VStr(s) => s != ""
    case VBool(b) => b
  }

  /** `String(v)`. */
  function ToText(v: Value): string {
    match v
    case VInt(i) => IntToString(i)
    case VStr(s) => s
    case VBool(b) => if b then "true" else "false"
  }

  /** `Number(x) || 0`: NaN and 0 both become 0. */
  function OrZero(n: Option<real>): real {
    if n.Some? then n.value else 0.0
  }
}
