/**
 * The JavaScript built-ins the core relies on, written out with their
 * ECMAScript meaning over unbounded integers and reals: white space and
 * `trim`, `parseInt(s, 16)`, `Number.prototype.toString(16)`, decimal
 * formatting of integers, `ToInt32` with the shift and mask operators,
 * `Math.round`, `Math.abs`, `Math.max`, truthiness of optional strings,
 * the truncating `%` on numbers and `String.prototype.slice`.
 */
module JsBuiltins {
  import opened Wrappers

  // ---------------------------------------------------------------------
  // White space and trim
  // ---------------------------------------------------------------------

  /** The ECMAScript WhiteSpace and LineTerminator code points, which `trim` and `parseInt` skip. */
  predicate IsWhiteSpace(c: char)
  {
    || c == '\t' || c == '\n' || c == '\U{B}' || c == '\U{C}' || c == '\r' || c == ' '
    || c == '\U{A0}' || c == '\U{1680}' || ('\U{2000}' <= c <= '\U{200A}')
    || c == '\U{2028}' || c == '\U{2029}' || c == '\U{202F}' || c == '\U{205F}'
    || c == '\U{3000}' || c == '\U{FEFF}'
  }

  /** Every character of `s` is white space. */
  predicate IsBlank(s: string)
  {
    forall i :: 0 <= i < |s| ==> IsWhiteSpace(s[i])
  }

  /** `s.trimStart()`: drops the leading white space. */
  function TrimStart(s: string): (r: string)
    ensures |r| <= |s| && r == s[|s| - |r|..]
    ensures r == [] || !IsWhiteSpace(r[0])
    ensures forall i :: 0 <= i < |s| - |r| ==> IsWhiteSpace(s[i])
  {
    if s != [] && IsWhiteSpace(s[0]) then TrimStart(s[1..]) else s
  }

  /** `s.trimEnd()`: drops the trailing white space. */
  function TrimEnd(s: string): (r: string)
    ensures |r| <= |s| && r == s[..|r|]
    ensures r == [] || !IsWhiteSpace(r[|r| - 1])
    ensures forall i :: |r| <= i < |s| ==> IsWhiteSpace(s[i])
  {
    if s != [] && IsWhiteSpace(s[|s| - 1]) then TrimEnd(s[..|s| - 1]) else s
  }

  /** `s.trim()`. */
  function Trim(s: string): string
  {
    TrimEnd(TrimStart(s))
  }

  /** `s.trim() === ""` holds exactly for the strings made of white space only. */
  lemma TrimIsEmptyIffBlank(s: string)
    ensures Trim(s) == "" <==> IsBlank(s)
  {
    var t := TrimStart(s);
    if Trim(s) == "" {
      assert t == [];
    }
  }

  // ---------------------------------------------------------------------
  // Hexadecimal digits, parseInt(s, 16) and toString(16)
  // ---------------------------------------------------------------------

  function Pow16(k: nat): (p: nat)
    ensures p >= 1
  {
    if k == 0 then 1 else 16 * Pow16(k - 1)
  }

  /** The value of a hexadecimal digit of either case, or None for any other character. */
  function HexDigitValue(c: char): (v: Option<nat>)
    ensures v.Some? ==> v.value < 16
  {
    if '0' <= c <= '9' then Some(c as int - '0' as int)
    else if 'a' <= c <= 'f' then Some(c as int - 'a' as int + 10)
    else if 'A' <= c <= 'F' then Some(c as int - 'A' as int + 10)
    else None
  }

  predicate IsHexDigit(c: char)
  {
    HexDigitValue(c).Some?
  }

  /** The digits `toString(16)` writes: 0-9 and lower-case a-f. */
  predicate IsLowerHexDigit(c: char)
  {
    '0' <= c <= '9' || 'a' <= c <= 'f'
  }

  predicate AllHexDigits(s: string)
  {
    forall i :: 0 <= i < |s| ==> IsHexDigit(s[i])
  }

  predicate AllLowerHexDigits(s: string)
  {
    forall i :: 0 <= i < |s| ==> IsLowerHexDigit(s[i])
  }

  /** The lower-case digit for a value below 16. */
  function HexDigitChar(d: nat): (c: char)
    requires d < 16
    ensures IsLowerHexDigit(c) && HexDigitValue(c) == Some(d)
  {
    if d < 10 then ('0' as int + d) as char else ('a' as int + d - 10) as char
  }

  /** The value of a string of hexadecimal digits, most significant first. */
  function HexValue(ds: string): (v: nat)
    requires AllHexDigits(ds)
    ensures v < Pow16(|ds|)
  {
    if ds == [] then 0
    else HexValue(ds[..|ds| - 1]) * 16 + HexDigitValue(ds[|ds| - 1]).value
  }

  /** The length of the longest prefix of `s` made of hexadecimal digits. */
  function HexPrefixLength(s: string): (k: nat)
    ensures k <= |s| && AllHexDigits(s[..k])
    ensures k < |s| ==> !IsHexDigit(s[k])
  {
    if s != [] && IsHexDigit(s[0]) then
      var k := 1 + HexPrefixLength(s[1..]);
      assert s[..k] == [s[0]] + s[1..][..k - 1];
      k
    else 0
  }

  /**
   * `parseInt(s, 16)`: skip leading white space, take an optional sign and an
   * optional "0x"/"0X" prefix, then the longest run of hexadecimal digits.
   * None stands for NaN, the result when that run is empty.
   */
  function ParseIntHex(s: string): Option<int>
  {
    var s1 := TrimStart(s);
    var sign := if |s1| > 0 && s1[0] == '-' then -1 else 1;
    var s2 := if |s1| > 0 && (s1[0] == '-' || s1[0] == '+') then s1[1..] else s1;
    var s3 := if |s2| >= 2 && s2[0] == '0' && (s2[1] == 'x' || s2[1] == 'X') then s2[2..] else s2;
    var k := HexPrefixLength(s3);
    if k == 0 then None else Some(sign * HexValue(s3[..k]))
  }

  /** `n.toString(16)` for a non-negative integer: lower-case digits, no leading zeros. */
  function HexString(n: nat): (s: string)
    ensures |s| >= 1 && AllLowerHexDigits(s)
  {
    if n < 16 then [HexDigitChar(n)] else HexString(n / 16) + [HexDigitChar(n % 16)]
  }

  /** `n.toString(16)` for any integer: a minus sign in front of the magnitude when negative. */
  function NumberToHexString(n: int): string
  {
    if n < 0 then "-" + HexString(-n) else HexString(n)
  }

  /** The `k` lowest hexadecimal digits of `v`, zero-padded, most significant first. */
  function HexPad(v: nat, k: nat): (s: string)
    ensures |s| == k && AllLowerHexDigits(s)
  {
    if k == 0 then "" else HexPad(v / 16, k - 1) + [HexDigitChar(v % 16)]
  }

  /** A one followed by `k` digits: `(16^k + v).toString(16)` is "1" and then `v` padded to `k` digits. */
  lemma {:induction false} HexStringOfLeadingOne(k: nat, v: nat)
    requires v < Pow16(k)
    ensures HexString(Pow16(k) + v) == "1" + HexPad(v, k)
  {
    if k > 0 {
      var n := Pow16(k) + v;
      assert n == 16 * (Pow16(k - 1) + v / 16) + v % 16;
      assert n / 16 == Pow16(k - 1) + v / 16 && n % 16 == v % 16;
      HexStringOfLeadingOne(k - 1, v / 16);
    }
  }

  /** Reading back a padded rendering gives the number. */
  lemma {:induction false} HexValueOfPad(v: nat, k: nat)
    requires v < Pow16(k)
    ensures AllHexDigits(HexPad(v, k)) && HexValue(HexPad(v, k)) == v
  {
    var s := HexPad(v, k);
    assert AllHexDigits(s) by {
      forall i | 0 <= i < |s| ensures IsHexDigit(s[i]) { assert IsLowerHexDigit(s[i]); }
    }
    if k > 0 {
      HexValueOfPad(v / 16, k - 1);
      assert s[..|s| - 1] == HexPad(v / 16, k - 1);
    }
  }

  /** Rendering the value of lower-case digits, padded to their own length, gives the digits back. */
  lemma {:induction false} HexPadOfValue(ds: string)
    requires AllLowerHexDigits(ds)
    ensures AllHexDigits(ds) && HexPad(HexValue(ds), |ds|) == ds
  {
    assert AllHexDigits(ds) by {
      forall i | 0 <= i < |ds| ensures IsHexDigit(ds[i]) { assert IsLowerHexDigit(ds[i]); }
    }
    if ds != [] {
      var pre, c := ds[..|ds| - 1], ds[|ds| - 1];
      HexPadOfValue(pre);
      var v := HexValue(ds);
      assert v == HexValue(pre) * 16 + HexDigitValue(c).value;
      assert v / 16 == HexValue(pre) && v % 16 == HexDigitValue(c).value;
      assert HexDigitChar(HexDigitValue(c).value) == c;
      assert ds == pre + [c];
    }
  }

  // ---------------------------------------------------------------------
  // Decimal rendering of integers
  // ---------------------------------------------------------------------

  function DecimalDigitChar(d: nat): (c: char)
    requires d < 10
    ensures '0' <= c <= '9'
  {
    ('0' as int + d) as char
  }

  /** `String(n)` for a non-negative integer: decimal digits without leading zeros. */
  function DecimalString(n: nat): (s: string)
    ensures |s| >= 1 && forall i :: 0 <= i < |s| ==> '0' <= s[i] <= '9'
    ensures (|s| == 1) <==> (n < 10)
  {
    if n < 10 then [DecimalDigitChar(n)] else DecimalString(n / 10) + [DecimalDigitChar(n % 10)]
  }

  // ---------------------------------------------------------------------
  // 32-bit integer operators
  // ---------------------------------------------------------------------

  const TwoTo31: int := 0x8000_0000
  const TwoTo32: int := 0x1_0000_0000

  /** ECMAScript ToInt32 on an integral value: wrap into the signed 32-bit range. */
  function ToInt32(x: int): (r: int)
    ensures -TwoTo31 <= r < TwoTo31
    ensures -TwoTo31 <= x < TwoTo31 ==> r == x
  {
    var u := x % TwoTo32;
    if u >= TwoTo31 then u - TwoTo32 else u
  }

  /** ToInt32 changes its argument by a multiple of 2^32 only. */
  lemma ToInt32Congruent(x: int)
    ensures (x - ToInt32(x)) % TwoTo32 == 0
  {
  }

  /** `x << 16`. */
  function ShiftLeft16(x: int): int
  {
    ToInt32(ToInt32(x) * 0x1_0000)
  }

  /** `x << 8`. */
  function ShiftLeft8(x: int): int
  {
    ToInt32(ToInt32(x) * 0x100)
  }

  /** `x << 24`. */
  function ShiftLeft24(x: int): int
  {
    ToInt32(ToInt32(x) * 0x100_0000)
  }

  /** `(x >> k) & 0xff` for k in {0, 8, 16}, where `x` is NaN (None) or an integer: the byte at bit `k`. */
  function ByteAt(x: Option<int>, k: nat): (b: int)
    requires k == 0 || k == 8 || k == 16
    ensures 0 <= b < 256
  {
    var i := ToInt32(x.GetOr(0));
    var d := if k == 0 then 1 else if k == 8 then 0x100 else 0x1_0000;
    (i / d) % 256
  }

  // ---------------------------------------------------------------------
  // Number operations on reals
  // ---------------------------------------------------------------------

  /** `Math.PI` as a double. */
  const Pi: real := 3.141592653589793

  /** `Math.abs`. */
  function Abs(x: real): (r: real)
    ensures r >= 0.0 && (r == x || r == -x)
  {
    if x < 0.0 then -x else x
  }

  /** `Math.max` of two numbers. */
  function MaxOf(a: real, b: real): (r: real)
    ensures r >= a && r >= b && (r == a || r == b)
  {
    if a >= b then a else b
  }

  /** JavaScript truthiness of an optional string: present and not empty. */
  predicate Truthy(s: Option<string>)
  {
    s.Some? && s.value != ""
  }

  /** `Math.round`: the nearest integer, halves rounded up. */
  function Round(x: real): (r: int)
    ensures r as real - 0.5 <= x < r as real + 0.5
  {
    (x + 0.5).Floor
  }

  /** `Math.floor`. */
  function Floor(x: real): (r: int)
    ensures r as real <= x < r as real + 1.0
  {
    x.Floor
  }

  /** Truncation toward zero. */
  function Trunc(x: real): (r: int)
    ensures x >= 0.0 ==> r as real <= x < r as real + 1.0
    ensures x < 0.0 ==> r as real - 1.0 < x <= r as real
  {
    if x >= 0.0 then x.Floor else -((-x).Floor)
  }

  /** `x % y` on numbers: the remainder carries the sign of `x`, unlike Dafny's Euclidean `%`. */
  function Rem(x: real, y: real): (r: real)
    requires y != 0.0
    ensures y > 0.0 && x >= 0.0 ==> 0.0 <= r < y
    ensures y > 0.0 && x < 0.0 ==> -y < r <= 0.0
  {
    if y > 0.0 then RemBounds(x, y); x - y * Trunc(x / y) as real
    else x - y * Trunc(x / y) as real
  }

  lemma RemBounds(x: real, y: real)
    requires y > 0.0
    ensures x >= 0.0 ==> 0.0 <= x - y * Trunc(x / y) as real < y
    ensures x < 0.0 ==> -y < x - y * Trunc(x / y) as real <= 0.0
  {
    var d := x / y;
    var q := Trunc(d) as real;
    QuotientStep(x, y, d, q);
  }

  /** The steps of RemBounds over the quotient `d` and its truncation `q`. */
  lemma QuotientStep(x: real, y: real, d: real, q: real)
    requires y > 0.0 && y * d == x
    requires d >= 0.0 ==> q <= d < q + 1.0
    requires d < 0.0 ==> q - 1.0 < d <= q
    ensures x >= 0.0 ==> 0.0 <= x - y * q < y
    ensures x < 0.0 ==> -y < x - y * q <= 0.0
  {
    SignOfProduct(y, d);
    if d >= 0.0 {
      ScaledGap(x, y, d, q, 0.0);
      ScaledGap(x, y, d, q, -1.0);
    } else {
      ScaledGap(x, y, d, q, 0.0);
      ScaledGap(x, y, d, q, 1.0);
    }
  }

  /** `x - y*q + y*c` has the sign of `d - q + c` when `x == y*d` and `y > 0`. */
  lemma ScaledGap(x: real, y: real, d: real, q: real, c: real)
    requires y > 0.0 && y * d == x
    ensures d - q + c < 0.0 ==> x - y * q + y * c < 0.0
    ensures d - q + c >= 0.0 ==> x - y * q + y * c >= 0.0
    ensures d - q + c > 0.0 ==> x - y * q + y * c > 0.0
  {
    SignOfProduct(y, d - q + c);
    assert y * (d - q + c) == y * d - y * q + y * c;
  }

  lemma SignOfProduct(y: real, e: real)
    requires y > 0.0
    ensures e < 0.0 ==> y * e < 0.0
    ensures e >= 0.0 ==> y * e >= 0.0
    ensures e > 0.0 ==> y * e > 0.0
  {
  }

  // ---------------------------------------------------------------------
  // String.prototype.slice
  // ---------------------------------------------------------------------

  /** How `slice` resolves one argument: negative values count from the end, and both are clamped into the string. */
  function RelativeIndex(x: int, len: nat): (r: nat)
    ensures r <= len
    ensures 0 <= x <= len ==> r == x
    ensures -(len as int) <= x < 0 ==> r as int == len as int + x
  {
    if x < 0 then (if len + x < 0 then 0 else len + x) else if x > len then len else x
  }

  /** `s.slice(start, end)`. */
  function Slice(s: string, start: int, end: int): string
  {
    var from, to := RelativeIndex(start, |s|), RelativeIndex(end, |s|);
    if from < to then s[from..to] else ""
  }
}
