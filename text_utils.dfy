/**
 * The text and colour helpers: `lerpColor` (hex parse, per-channel rounding,
 * hex re-format), `truncateText`, `formatRelativeTime` with the clock made a
 * parameter, and the fill rule of the checkerboard fallback texture.
 */
module TextUtils {
  import opened Wrappers
  import opened JsBuiltins

  // ---------------------------------------------------------------------
  // lerpColor
  // ---------------------------------------------------------------------

  /** Three colour channels. */
  datatype Rgb = Rgb(r: int, g: int, b: int)

  predicate IsByte(x: int)
  {
    0 <= x < 256
  }

  predicate IsByteRgb(c: Rgb)
  {
    IsByte(c.r) && IsByte(c.g) && IsByte(c.b)
  }

  /** A colour as the source writes them: '#' followed by six lower-case hexadecimal digits. */
  predicate IsHexColor(s: string)
  {
    |s| == 7 && s[0] == '#' && AllLowerHexDigits(s[1..])
  }

  /** `s.replace("#", "")`: a string pattern replaces its first occurrence only. */
  function RemoveFirstHash(s: string): (r: string)
    ensures '#' !in s ==> r == s
    ensures s != [] && s[0] == '#' ==> r == s[1..]
  {
    if s == [] then []
    else if s[0] == '#' then s[1..]
    else [s[0]] + RemoveFirstHash(s[1..])
  }

  /** The channels lerpColor reads from a colour string: `(h >> 16) & 0xff`, `(h >> 8) & 0xff`, `h & 0xff` of `h = parseInt(s.replace("#", ""), 16)`. */
  function Channels(color: string): (c: Rgb)
    ensures IsByteRgb(c)
  {
    var h := ParseIntHex(RemoveFirstHash(color));
    Rgb(ByteAt(h, 16), ByteAt(h, 8), ByteAt(h, 0))
  }

  /** The string lerpColor builds: `"#" + ((1 << 24) + (r << 16) + (g << 8) + b).toString(16).slice(1)`. */
  function FormatRgb(c: Rgb): string
  {
    var n := ShiftLeft24(1) + ShiftLeft16(c.r) + ShiftLeft8(c.g) + c.b;
    var hex := NumberToHexString(n);
    "#" + Slice(hex, 1, |hex|)
  }

  /** One channel of the blend: `Math.round(a + (b - a) * t)`. */
  function LerpChannel(a: int, b: int, t: real): int
  {
    Round(a as real + (b - a) as real * t)
  }

  /** `lerpColor(a, b, t)`. */
  function LerpColor(a: string, b: string, t: real): string
  {
    FormatRgb(LerpRgb(Channels(a), Channels(b), t))
  }

  /** The channel-wise blend. */
  function LerpRgb(ca: Rgb, cb: Rgb, t: real): Rgb
  {
    Rgb(LerpChannel(ca.r, cb.r, t), LerpChannel(ca.g, cb.g, t), LerpChannel(ca.b, cb.b, t))
  }

  /** The 24-bit value of three byte channels. */
  function Pack(c: Rgb): int
  {
    c.r * 0x1_0000 + c.g * 0x100 + c.b
  }

  /** The three bytes of a 24-bit value. */
  function Unpack(v: int): Rgb
  {
    Rgb((v / 0x1_0000) % 256, (v / 0x100) % 256, v % 256)
  }

  lemma PackUnpack(v: int)
    requires 0 <= v < 0x100_0000
    ensures Pack(Unpack(v)) == v
  {
  }

  lemma PackRange(c: Rgb)
    requires IsByteRgb(c)
    ensures 0 <= Pack(c) < 0x100_0000
  {
  }

  lemma UnpackPack(c: Rgb)
    requires IsByteRgb(c)
    ensures 0 <= Pack(c) < 0x100_0000 && Unpack(Pack(c)) == c
  {
  }

  /** The number of hexadecimal digits of a colour. */
  const ColorDigits: nat := 6

  lemma ColorDigitsRange()
    ensures Pow16(ColorDigits) == 0x100_0000
  {
  }

  /** For byte channels the shifted sum is a leading one followed by the 24-bit value. */
  lemma ShiftedSum(c: Rgb)
    requires IsByteRgb(c)
    ensures ShiftLeft24(1) + ShiftLeft16(c.r) + ShiftLeft8(c.g) + c.b == Pow16(ColorDigits) + Pack(c)
  {
    ColorDigitsRange();
    assert ShiftLeft24(1) == 0x100_0000;
    var r16, g8 := c.r * 0x1_0000, c.g * 0x100;
    assert 0 <= r16 < TwoTo31 && 0 <= g8 < TwoTo31;
    assert ShiftLeft16(c.r) == ToInt32(r16);
    assert ShiftLeft8(c.g) == ToInt32(g8);
  }

  /** Formatting byte channels gives '#' and the six-digit rendering of their 24-bit value. */
  lemma FormatByteRgb(c: Rgb)
    requires IsByteRgb(c)
    ensures FormatRgb(c) == "#" + HexPad(Pack(c), ColorDigits)
    ensures IsHexColor(FormatRgb(c))
  {
    var hex := NumberToHexString(ShiftLeft24(1) + ShiftLeft16(c.r) + ShiftLeft8(c.g) + c.b);
    HexOfShiftedSum(c);
    var digits := HexPad(Pack(c), ColorDigits);
    assert hex == "1" + digits;
    DropLeadingOne(digits);
  }

  /** The hexadecimal rendering of the shifted sum of byte channels: a one, then six digits of the 24-bit value. */
  lemma HexOfShiftedSum(c: Rgb)
    requires IsByteRgb(c)
    ensures NumberToHexString(ShiftLeft24(1) + ShiftLeft16(c.r) + ShiftLeft8(c.g) + c.b)
         == "1" + HexPad(Pack(c), ColorDigits)
  {
    PackRange(c);
    ColorDigitsRange();
    ShiftedSum(c);
    HexStringOfLeadingOne(ColorDigits, Pack(c));
  }

  /** `("1" + digits).slice(1)` is `digits`. */
  lemma DropLeadingOne(digits: string)
    ensures var hex := "1" + digits; Slice(hex, 1, |hex|) == digits
  {
    var hex := "1" + digits;
    assert Slice(hex, 1, |hex|) == hex[1..];
  }

  /** lerpColor reads the channels of a well-formed colour from its six digits. */
  lemma ChannelsOfHexColor(s: string)
    requires IsHexColor(s)
    ensures AllHexDigits(s[1..]) && Channels(s) == Unpack(HexValue(s[1..]))
  {
    var ds := s[1..];
    HexPadOfValue(ds);
    assert RemoveFirstHash(s) == ds;
    assert !IsWhiteSpace(ds[0]) by { assert IsLowerHexDigit(ds[0]); }
    assert TrimStart(ds) == ds;
    assert IsLowerHexDigit(ds[1]);
    var k := HexPrefixLength(ds);
    assert k == 6;
    assert ds[..k] == ds;
    assert ParseIntHex(ds) == Some(HexValue(ds));
  }

  /** Formatting the channels of a well-formed colour gives the colour back. */
  lemma {:induction false} FormatChannelsOfHexColor(s: string)
    requires IsHexColor(s)
    ensures FormatRgb(Channels(s)) == s
  {
    ChannelsOfHexColor(s);
    var v := HexValue(s[1..]);
    ColorDigitsRange();
    assert v < 0x100_0000 by { assert |s[1..]| == ColorDigits; }
    var c := Unpack(v);
    PackUnpack(v);
    FormatByteRgb(c);
    assert Channels(s) == c;
    assert FormatRgb(c) == "#" + HexPad(v, ColorDigits);
    HexPadOfValue(s[1..]);
    assert HexPad(v, ColorDigits) == s[1..];
    assert FormatRgb(c) == "#" + s[1..];
    assert s == "#" + s[1..];
  }

  /** Parsing the channels out of a formatted colour gives the byte channels back. */
  lemma {:induction false} ChannelsOfFormat(c: Rgb)
    requires IsByteRgb(c)
    ensures Channels(FormatRgb(c)) == c
  {
    FormatByteRgb(c);
    UnpackPack(c);
    var s := FormatRgb(c);
    ChannelsOfHexColor(s);
    assert s[1..] == HexPad(Pack(c), ColorDigits);
    HexValueOfPad(Pack(c), ColorDigits);
  }

  /** The channel blend gives its first argument at t = 0 and its second at t = 1. */
  lemma LerpRgbEnds(ca: Rgb, cb: Rgb)
    ensures LerpRgb(ca, cb, 0.0) == ca && LerpRgb(ca, cb, 1.0) == cb
  {
  }

  /** Blending channels with themselves changes nothing. */
  lemma LerpRgbSame(c: Rgb, t: real)
    ensures LerpRgb(c, c, t) == c
  {
  }

  /** At t = 0 a well-formed start colour comes back unchanged, whatever the end colour. */
  lemma {:induction false} LerpColorAtZero(a: string, b: string)
    requires IsHexColor(a)
    ensures LerpColor(a, b, 0.0) == a
  {
    var ca, cb := Channels(a), Channels(b);
    LerpRgbEnds(ca, cb);
    assert LerpColor(a, b, 0.0) == FormatRgb(ca);
    FormatChannelsOfHexColor(a);
  }

  /** At t = 1 a well-formed end colour comes back unchanged, whatever the start string. */
  lemma {:induction false} LerpColorAtOne(a: string, b: string)
    requires IsHexColor(b)
    ensures LerpColor(a, b, 1.0) == b
  {
    var ca, cb := Channels(a), Channels(b);
    LerpRgbEnds(ca, cb);
    assert LerpColor(a, b, 1.0) == FormatRgb(cb);
    FormatChannelsOfHexColor(b);
  }

  /** Blending a well-formed colour with itself gives it back for every t. */
  lemma {:induction false} LerpColorSame(a: string, t: real)
    requires IsHexColor(a)
    ensures LerpColor(a, a, t) == a
  {
    var ca := Channels(a);
    LerpRgbSame(ca, t);
    assert LerpColor(a, a, t) == FormatRgb(ca);
    FormatChannelsOfHexColor(a);
  }

  /** For t in [0, 1] a blended channel lies between the two channels it blends. */
  lemma LerpChannelBetween(a: int, b: int, t: real)
    requires 0.0 <= t <= 1.0
    ensures a <= b ==> a <= LerpChannel(a, b, t) <= b
    ensures b <= a ==> b <= LerpChannel(a, b, t) <= a
  {
    ScaleWithin((b - a) as real, t);
  }

  lemma ScaleWithin(d: real, t: real)
    requires 0.0 <= t <= 1.0
    ensures d >= 0.0 ==> 0.0 <= d * t <= d
    ensures d <= 0.0 ==> d <= d * t <= 0.0
  {
    if d > 0.0 {
      SignOfProduct(d, t);
      SignOfProduct(d, 1.0 - t);
      assert d * (1.0 - t) == d - d * t;
    } else if d < 0.0 {
      SignOfProduct(-d, t);
      SignOfProduct(-d, 1.0 - t);
      assert (-d) * t == -(d * t);
      assert (-d) * (1.0 - t) == d * t - d;
    }
  }

  function Min(a: int, b: int): int { if a <= b then a else b }
  function Max(a: int, b: int): int { if a <= b then b else a }

  /**
   * For t in [0, 1] the blend of any two strings is a well-formed colour, and
   * each of its channels lies between the corresponding channels of the inputs.
   */
  lemma {:induction false} LerpColorInRange(a: string, b: string, t: real)
    requires 0.0 <= t <= 1.0
    ensures IsHexColor(LerpColor(a, b, t))
    ensures var ca, cb, c := Channels(a), Channels(b), Channels(LerpColor(a, b, t));
      && Min(ca.r, cb.r) <= c.r <= Max(ca.r, cb.r)
      && Min(ca.g, cb.g) <= c.g <= Max(ca.g, cb.g)
      && Min(ca.b, cb.b) <= c.b <= Max(ca.b, cb.b)
  {
    var c := LerpRgb(Channels(a), Channels(b), t);
    LerpRgbBetween(Channels(a), Channels(b), t);
    assert LerpColor(a, b, t) == FormatRgb(c);
    FormatByteRgb(c);
    ChannelsOfFormat(c);
  }

  lemma LerpRgbBetween(ca: Rgb, cb: Rgb, t: real)
    requires 0.0 <= t <= 1.0 && IsByteRgb(ca) && IsByteRgb(cb)
    ensures var c := LerpRgb(ca, cb, t);
      && IsByteRgb(c)
      && Min(ca.r, cb.r) <= c.r <= Max(ca.r, cb.r)
      && Min(ca.g, cb.g) <= c.g <= Max(ca.g, cb.g)
      && Min(ca.b, cb.b) <= c.b <= Max(ca.b, cb.b)
  {
    LerpChannelBetween(ca.r, cb.r, t);
    LerpChannelBetween(ca.g, cb.g, t);
    LerpChannelBetween(ca.b, cb.b, t);
  }

  // ---------------------------------------------------------------------
  // truncateText
  // ---------------------------------------------------------------------

  /** `truncateText(text, maxLength)` as written: the cut uses `slice(0, maxLength - 3)`, whose end counts from the back when negative. */
  function TruncateText(text: string, maxLength: int): (r: string)
    ensures |text| <= maxLength ==> r == text
    ensures |text| > maxLength >= 3 ==> r == text[..maxLength - 3] + "..." && |r| == maxLength
  {
    if |text| <= maxLength then text else Slice(text, 0, maxLength - 3) + "..."
  }

  /** For a limit below 3 the as-written cut keeps characters counted from the end, so the result is longer than the limit. */
  lemma TruncateTextBelowThree(text: string, maxLength: int)
    requires 0 <= maxLength < 3 && |text| > maxLength
    ensures |TruncateText(text, maxLength)| > maxLength
    ensures maxLength == 0 && |text| >= 3 ==> |TruncateText(text, maxLength)| == |text|
  {
  }

  /** Concrete witness: a limit of zero leaves a ten-character text at ten characters. */
  lemma TruncateTextZeroLimitWitness()
    ensures TruncateText("abcdefghij", 0) == "abcdefg..."
  {
    assert Slice("abcdefghij", 0, -3) == "abcdefg";
  }

  /** The evidently intended truncation: the cut is clamped at zero, so the result never exceeds `max(maxLength, 3)`. */
  function TruncateTextClamped(text: string, maxLength: int): (r: string)
    ensures |text| <= maxLength ==> r == text
    ensures |text| > maxLength ==> 3 <= |r| <= Max(maxLength, 3) && r[|r| - 3..] == "..."
    ensures |text| > maxLength ==> |r| - 3 <= |text| && r[..|r| - 3] == text[..|r| - 3]
  {
    if |text| <= maxLength then text
    else
      var keep := if maxLength - 3 < 0 then 0 else maxLength - 3;
      text[..keep] + "..."
  }

  /** The two definitions agree whenever the limit leaves room for the ellipsis. */
  lemma TruncateTextAgrees(text: string, maxLength: int)
    requires maxLength >= 3
    ensures TruncateText(text, maxLength) == TruncateTextClamped(text, maxLength)
  {
  }

  // ---------------------------------------------------------------------
  // formatRelativeTime
  // ---------------------------------------------------------------------

  const MinuteMs: real := 60000.0
  const HourMs: real := 3600000.0
  const DayMs: real := 86400000.0
  const WeekMs: real := 604800000.0

  /** What formatRelativeTime returns: a phrase it builds, or the locale date string (left to the platform). */
  datatype RelativeTime = Phrase(text: string) | LocaleDate(timestamp: real)

  /** `${n} unit${n !== 1 ? 's' : ''} ago`. */
  function CountAgo(n: nat, unit: string): (s: string)
    ensures n == 1 ==> s == "1 " + unit + " ago"
    ensures n != 1 ==> s == DecimalString(n) + " " + unit + "s ago"
    ensures '0' <= s[0] <= '9'
  {
    DecimalString(n) + " " + unit + (if n != 1 then "s" else "") + " ago"
  }

  /** `formatRelativeTime(timestamp)` with `Date.now()` passed in as `now`. */
  function FormatRelativeTime(timestamp: real, now: real): RelativeTime
  {
    var diff := now - timestamp;
    if diff < MinuteMs then Phrase("just now")
    else if diff < HourMs then Phrase(CountAgo(Floor(diff / MinuteMs), "minute"))
    else if diff < DayMs then Phrase(CountAgo(Floor(diff / HourMs), "hour"))
    else if diff < WeekMs then Phrase(CountAgo(Floor(diff / DayMs), "day"))
    else LocaleDate(timestamp)
  }

  /** "just now" exactly for differences under a minute, negative ones (a timestamp in the future) included. */
  lemma JustNowIff(timestamp: real, now: real)
    ensures FormatRelativeTime(timestamp, now) == Phrase("just now") <==> now - timestamp < MinuteMs
  {
    var r := FormatRelativeTime(timestamp, now);
    if now - timestamp >= MinuteMs && r.Phrase? {
      assert '0' <= r.text[0] <= '9';
    }
  }

  /** The minute bucket: the count is the number of whole minutes elapsed, from 1 to 59, singular only for 1. */
  lemma MinuteBucket(timestamp: real, now: real, m: int)
    requires MinuteMs <= now - timestamp < HourMs
    requires m as real * MinuteMs <= now - timestamp < (m + 1) as real * MinuteMs
    ensures 1 <= m <= 59
    ensures FormatRelativeTime(timestamp, now) == Phrase(CountAgo(m, "minute"))
  {
    WholeUnits(now - timestamp, MinuteMs, m);
  }

  /** The hour bucket: the count is the number of whole hours elapsed, from 1 to 23. */
  lemma HourBucket(timestamp: real, now: real, h: int)
    requires HourMs <= now - timestamp < DayMs
    requires h as real * HourMs <= now - timestamp < (h + 1) as real * HourMs
    ensures 1 <= h <= 23
    ensures FormatRelativeTime(timestamp, now) == Phrase(CountAgo(h, "hour"))
  {
    WholeUnits(now - timestamp, HourMs, h);
  }

  /** The day bucket: the count is the number of whole days elapsed, from 1 to 6. */
  lemma DayBucket(timestamp: real, now: real, d: int)
    requires DayMs <= now - timestamp < WeekMs
    requires d as real * DayMs <= now - timestamp < (d + 1) as real * DayMs
    ensures 1 <= d <= 6
    ensures FormatRelativeTime(timestamp, now) == Phrase(CountAgo(d, "day"))
  {
    WholeUnits(now - timestamp, DayMs, d);
  }

  /** `Math.floor(diff / unit)` is the unique `n` with `n * unit <= diff < (n + 1) * unit`. */
  lemma WholeUnits(diff: real, unit: real, n: int)
    requires unit > 0.0
    requires n as real * unit <= diff < (n + 1) as real * unit
    ensures Floor(diff / unit) == n
  {
    var q := diff / unit;
    assert q * unit == diff;
    ScaleOrder(n as real, q, unit);
    ScaleOrder(q, (n + 1) as real, unit);
    assert n as real <= q < (n + 1) as real;
    var f := Floor(q);
    assert f as real <= q < f as real + 1.0;
    assert f <= n && n <= f;
  }

  lemma ScaleOrder(a: real, b: real, unit: real)
    requires unit > 0.0
    ensures a <= b <==> a * unit <= b * unit
    ensures a < b <==> a * unit < b * unit
  {
    SignOfProduct(unit, b - a);
    assert unit * (b - a) == b * unit - a * unit;
  }

  /** A week or more falls back to the locale date of the timestamp. */
  lemma LocaleDateIff(timestamp: real, now: real)
    ensures FormatRelativeTime(timestamp, now).LocaleDate? <==> now - timestamp >= WeekMs
  {
  }

  // ---------------------------------------------------------------------
  // createCheckerboardTexture: the colour fill rule
  // ---------------------------------------------------------------------

  const LightSquare: string := "#f3e9c7"
  const DarkSquare: string := "#3b3b3b"

  /** The colour of square (x, y): light when x + y is even. */
  function SquareColor(x: nat, y: nat): string
  {
    if (x + y) % 2 == 0 then LightSquare else DarkSquare
  }

  /** Squares next to each other, across or down, never share a colour. */
  lemma {:induction false} NeighboursDiffer(x: nat, y: nat)
    ensures SquareColor(x, y) != SquareColor(x + 1, y)
    ensures SquareColor(x, y) != SquareColor(x, y + 1)
  {
    assert LightSquare[1] != DarkSquare[1];
  }

  /**
   * The nested loops of createCheckerboardTexture: row by row, square by square,
   * each square of the `squares` x `squares` canvas grid (indexed [y, x]) gets
   * its colour. The pixel rectangles and the texture object are left to the
   * canvas.
   */
  method FillCheckerboard(canvas: array2<string>)
    requires canvas.Length0 == canvas.Length1
    modifies canvas
    ensures forall y, x :: 0 <= y < canvas.Length0 && 0 <= x < canvas.Length1 ==> canvas[y, x] == SquareColor(x, y)
  {
    var squares := canvas.Length0;
    var y := 0;
    while y < squares
      invariant 0 <= y <= squares
      invariant forall yy, xx :: 0 <= yy < y && 0 <= xx < squares ==> canvas[yy, xx] == SquareColor(xx, yy)
    {
      var x := 0;
      while x < squares
        invariant 0 <= x <= squares
        invariant forall yy, xx :: 0 <= yy < y && 0 <= xx < squares ==> canvas[yy, xx] == SquareColor(xx, yy)
        invariant forall xx :: 0 <= xx < x ==> canvas[y, xx] == SquareColor(xx, y)
      {
        canvas[y, x] := SquareColor(x, y);
        x := x + 1;
      }
      y := y + 1;
    }
  }
}
