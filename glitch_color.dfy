/**
 * The colour handling of the character-grid animation: the hex parser `hexToRgb`, the
 * interpolator `interpolateColor` and the `rgb(r,g,b)` strings it produces.
 */
module GlitchColor {
  import opened Options
  import opened Colors
  import opened JsMath

  /** A character of the class `[a-f\d]` under the `i` flag: ASCII digits and a-f in either case. */
  predicate IsHexDigit(c: char)
  {
    '0' <= c <= '9' || 'a' <= c <= 'f' || 'A' <= c <= 'F'
  }

  predicate AllHex(s: string)
  {
    forall i :: 0 <= i < |s| ==> IsHexDigit(s[i])
  }

  /** `parseInt(c, 16)` of one hex digit. */
  function HexValue(c: char): (v: nat)
    requires IsHexDigit(c)
    ensures v < 16
  {
    if '0' <= c <= '9' then c as int - '0' as int
    else if 'a' <= c <= 'f' then c as int - 'a' as int + 10
    else c as int - 'A' as int + 10
  }

  /** The lower-case digit of a value below 16. */
  function HexDigit(v: nat): (c: char)
    requires v < 16
    ensures IsHexDigit(c) && HexValue(c) == v
  {
    if v < 10 then ('0' as int + v) as char else ('a' as int + v - 10) as char
  }

  /** The string after an optional leading `#` (the `^#?` of both patterns). */
  function Body(s: string): (b: string)
    ensures |b| <= |s|
  {
    if |s| > 0 && s[0] == '#' then s[1..] else s
  }

  /** The first `replace`: a string matching `^#?` and three hex digits becomes the six doubled digits, without `#`. */
  function ExpandShorthand(s: string): string
  {
    var b := Body(s);
    if |b| == 3 && AllHex(b) then [b[0], b[0], b[1], b[1], b[2], b[2]] else s
  }

  /** `parseInt` of a two-digit group. */
  function Pair(hi: char, lo: char): (v: nat)
    requires IsHexDigit(hi) && IsHexDigit(lo)
    ensures IsByte(v)
  {
    16 * HexValue(hi) + HexValue(lo)
  }

  /**
   * `hexToRgb`: after the shorthand expansion, an optional `#` and exactly six hex digits give
   * the three components, anything else gives `null` (here `None`).
   */
  function HexToRgb(s: string): (c: Option<Rgb>)
    ensures c.Some? ==> IsByteColor(c.value)
  {
    var b := Body(ExpandShorthand(s));
    if |b| == 6 && AllHex(b) then Some(Rgb(Pair(b[0], b[1]), Pair(b[2], b[3]), Pair(b[4], b[5])))
    else None
  }

  /** The strings `hexToRgb` accepts, stated without the expansion step. */
  predicate HexShaped(s: string)
  {
    (|Body(s)| == 6 || |Body(s)| == 3) && AllHex(Body(s))
  }

  /** A string parses exactly when it is an optional `#` followed by three or six hex digits. */
  lemma HexToRgbAccepts(s: string)
    ensures HexToRgb(s).Some? <==> HexShaped(s)
  {
    var b := Body(s);
    if |b| == 3 && AllHex(b) {
      var e := ExpandShorthand(s);
      assert e == [b[0], b[0], b[1], b[1], b[2], b[2]];
      assert Body(e) == e;
      assert AllHex(e) by {
        forall i | 0 <= i < 6
          ensures IsHexDigit(e[i])
        {
          assert e[i] == b[i / 2];
        }
      }
    } else {
      assert ExpandShorthand(s) == s;
    }
  }

  /** The shorthand gives what its doubled digits give: `#abc` is `#aabbcc`, with or without `#`. */
  lemma ShorthandDoubles(r: char, g: char, b: char)
    requires IsHexDigit(r) && IsHexDigit(g) && IsHexDigit(b)
    ensures HexToRgb(['#', r, g, b]) == HexToRgb(['#', r, r, g, g, b, b])
    ensures HexToRgb([r, g, b]) == HexToRgb(['#', r, r, g, g, b, b])
    ensures HexToRgb([r, g, b]) == Some(Rgb(17 * HexValue(r), 17 * HexValue(g), 17 * HexValue(b)))
  {
    var long := ['#', r, r, g, g, b, b];
    assert Body(long) == [r, r, g, g, b, b];
    assert AllHex(Body(long)) by {
      forall i | 0 <= i < 6
        ensures IsHexDigit(Body(long)[i])
      {
      }
    }
    assert ExpandShorthand(long) == long;
    var short := ['#', r, g, b];
    assert Body(short) == [r, g, b];
    assert AllHex([r, g, b]);
    assert ExpandShorthand(short) == [r, r, g, g, b, b];
    assert Body([r, g, b]) == [r, g, b];
    assert ExpandShorthand([r, g, b]) == [r, r, g, g, b, b];
    assert Body([r, r, g, g, b, b]) == [r, r, g, g, b, b];
  }

  /** `#rrggbb` in lower case, the form the configured palettes are written in. */
  function ToHex(c: Rgb): (s: string)
    requires IsByteColor(c)
    ensures |s| == 7 && s[0] == '#'
  {
    ['#', HexDigit(c.r / 16), HexDigit(c.r % 16), HexDigit(c.g / 16), HexDigit(c.g % 16),
     HexDigit(c.b / 16), HexDigit(c.b % 16)]
  }

  /** Every byte colour written as `#rrggbb` parses back to itself. */
  lemma HexRoundTrip(c: Rgb)
    requires IsByteColor(c)
    ensures HexToRgb(ToHex(c)) == Some(c)
  {
    var s := ToHex(c);
    assert Body(s) == s[1..];
    assert AllHex(s[1..]) by {
      forall i | 0 <= i < 6
        ensures IsHexDigit(s[1..][i])
      {
      }
    }
    assert ExpandShorthand(s) == s;
  }

  // Decimal numbers, as `'' + n` writes an integer and as a reader of `rgb(...)` would read it.

  predicate IsDecimalDigit(c: char)
  {
    '0' <= c <= '9'
  }

  /** The decimal digits of `n`, most significant first, without leading zeros. */
  function NatToString(n: nat): (s: string)
    ensures |s| > 0 && forall i :: 0 <= i < |s| ==> IsDecimalDigit(s[i])
  {
    var d := [('0' as int + n % 10) as char];
    if n < 10 then d else NatToString(n / 10) + d
  }

  /** `String(x)` of an integer. */
  function IntToString(x: int): string
  {
    if x < 0 then "-" + NatToString(-x) else NatToString(x)
  }

  /** The number of leading decimal digits. */
  function DigitRun(s: string): (k: nat)
    ensures k <= |s|
    ensures forall i :: 0 <= i < k ==> IsDecimalDigit(s[i])
    ensures k < |s| ==> !IsDecimalDigit(s[k])
  {
    if |s| > 0 && IsDecimalDigit(s[0]) then 1 + DigitRun(s[1..]) else 0
  }

  /** The value of a string of decimal digits. */
  function DigitsValue(s: string): nat
    requires forall i :: 0 <= i < |s| ==> IsDecimalDigit(s[i])
  {
    if |s| == 0 then 0
    else
      assert IsDecimalDigit(s[|s| - 1]);
      10 * DigitsValue(s[..|s| - 1]) + (s[|s| - 1] as int - '0' as int)
  }

  lemma {:induction false} NatToStringValue(n: nat)
    ensures DigitsValue(NatToString(n)) == n
  {
    var s := NatToString(n);
    if n >= 10 {
      NatToStringValue(n / 10);
      assert s[..|s| - 1] == NatToString(n / 10);
    }
  }

  lemma {:induction false} DigitRunOfDigits(s: string, rest: string)
    requires forall i :: 0 <= i < |s| ==> IsDecimalDigit(s[i])
    requires |rest| == 0 || !IsDecimalDigit(rest[0])
    ensures DigitRun(s + rest) == |s|
  {
    if |s| > 0 {
      DigitRunOfDigits(s[1..], rest);
      assert (s + rest)[1..] == s[1..] + rest;
    }
  }

  /** Reads a non-empty run of digits from the front of `s`: its value and what follows. */
  function ReadNat(s: string): (r: Option<(nat, string)>)
    ensures r.Some? ==> |r.value.1| < |s|
  {
    var k := DigitRun(s);
    if k == 0 then None else Some((DigitsValue(s[..k]), s[k..]))
  }

  /** A number written by `NatToString` reads back, up to the next non-digit. */
  lemma ReadNatToString(n: nat, rest: string)
    requires |rest| == 0 || !IsDecimalDigit(rest[0])
    ensures ReadNat(NatToString(n) + rest) == Some((n, rest))
  {
    var s := NatToString(n);
    DigitRunOfDigits(s, rest);
    assert (s + rest)[..|s|] == s;
    assert (s + rest)[|s|..] == rest;
    NatToStringValue(n);
  }

  /** `s` begins with `p`; the rest. */
  function Expect(p: string, s: string): (r: Option<string>)
    ensures r.Some? <==> p <= s
  {
    if p <= s then Some(s[|p|..]) else None
  }

  /**
   * `interpolateColor`: each component moves from `start` towards `end` by `factor` and is
   * rounded half up (`Math.round`).
   */
  function Mix(start: Rgb, end: Rgb, factor: real): (c: Rgb)
    ensures factor == 0.0 ==> c == start
    ensures factor == 1.0 ==> c == end
    ensures IsByteColor(start) && IsByteColor(end) && 0.0 <= factor <= 1.0 ==> IsByteColor(c)
  {
    MixComponentBounds(start.r, end.r, factor);
    MixComponentBounds(start.g, end.g, factor);
    MixComponentBounds(start.b, end.b, factor);
    Rgb(MixComponent(start.r, end.r, factor), MixComponent(start.g, end.g, factor),
        MixComponent(start.b, end.b, factor))
  }

  function MixComponent(a: int, b: int, factor: real): int
  {
    Round(a as real + (b - a) as real * factor)
  }

  /** A rounded component lies between its two ends. */
  lemma MixComponentBounds(a: int, b: int, factor: real)
    ensures factor == 0.0 ==> MixComponent(a, b, factor) == a
    ensures factor == 1.0 ==> MixComponent(a, b, factor) == b
    ensures 0.0 <= factor <= 1.0 ==>
      (if a <= b then a <= MixComponent(a, b, factor) <= b else b <= MixComponent(a, b, factor) <= a)
  {
    if 0.0 <= factor <= 1.0 {
      var x := a as real + (b - a) as real * factor;
      if a <= b {
        MulNonNegative((b - a) as real, factor);
        MulNonNegative((b - a) as real, 1.0 - factor);
        assert a as real <= x <= b as real;
      } else {
        MulNonNegative((a - b) as real, factor);
        MulNonNegative((a - b) as real, 1.0 - factor);
        assert b as real <= x <= a as real;
      }
    }
  }

  /** The string `interpolateColor` returns. */
  function FormatRgb(c: Rgb): string
  {
    "rgb(" + IntToString(c.r) + "," + IntToString(c.g) + "," + IntToString(c.b) + ")"
  }

  /** An `rgb(r,g,b)` string with three unsigned decimal components and nothing around it. */
  function ParseRgb(s: string): (c: Option<Rgb>)
    ensures c.Some? ==> "rgb(" <= s && c.value.r >= 0 && c.value.g >= 0 && c.value.b >= 0
  {
    match Expect("rgb(", s)
    case None => None
    case Some(s1) =>
      match ReadNat(s1)
      case None => None
      case Some((r, s2)) =>
        match Expect(",", s2)
        case None => None
        case Some(s3) =>
          match ReadNat(s3)
          case None => None
          case Some((g, s4)) =>
            match Expect(",", s4)
            case None => None
            case Some(s5) =>
              match ReadNat(s5)
              case None => None
              case Some((b, s6)) =>
                if s6 == ")" then Some(Rgb(r, g, b)) else None
  }

  /** Every colour `interpolateColor` writes from byte components reads back as itself. */
  lemma RgbRoundTrip(c: Rgb)
    requires IsByteColor(c)
    ensures ParseRgb(FormatRgb(c)) == Some(c)
  {
    var r, g, b := NatToString(c.r), NatToString(c.g), NatToString(c.b);
    assert FormatRgb(c) == "rgb(" + (r + ("," + (g + ("," + (b + ")")))));
    ReadNatToString(c.r, "," + (g + ("," + (b + ")"))));
    ReadNatToString(c.g, "," + (b + ")"));
    ReadNatToString(c.b, ")");
    assert Expect("rgb(", FormatRgb(c)) == Some(r + ("," + (g + ("," + (b + ")")))));
  }

  /** No `rgb(...)` string is a hex colour: `hexToRgb` rejects everything `interpolateColor` writes. */
  lemma HexRejectsRgb(s: string)
    requires "rgb(" <= s
    ensures HexToRgb(s) == None
  {
    assert s[0] == 'r' && !IsHexDigit('r');
    HexToRgbAccepts(s);
    assert Body(s) == s;
    assert !AllHex(s) by {
      assert !IsHexDigit(s[0]);
    }
  }

  /** `hexToRgb` rejects everything `interpolateColor` writes. */
  lemma FormattedIsNotHex(c: Rgb)
    ensures "rgb(" <= FormatRgb(c)
    ensures HexToRgb(FormatRgb(c)) == None
  {
    var s := FormatRgb(c);
    assert s == "rgb(" + (IntToString(c.r) + "," + IntToString(c.g) + "," + IntToString(c.b) + ")");
    HexRejectsRgb(s);
  }

  /** A colour string in either form the animation stores: hex first, then `rgb(...)`. */
  function ParseColor(s: string): (c: Option<Rgb>)
    ensures HexToRgb(s).Some? ==> c == HexToRgb(s)
    ensures c.Some? && "rgb(" <= s ==> c == ParseRgb(s)
    ensures c.None? <==> HexToRgb(s).None? && ParseRgb(s).None?
  {
    match HexToRgb(s)
    case Some(v) => Some(v)
    case None => ParseRgb(s)
  }

  /** Every colour the animation stores, hex or interpolated, reads back under `ParseColor`. */
  lemma ParseColorRoundTrips(c: Rgb)
    requires IsByteColor(c)
    ensures ParseColor(ToHex(c)) == Some(c)
    ensures ParseColor(FormatRgb(c)) == Some(c)
  {
    HexRoundTrip(c);
    RgbRoundTrip(c);
    FormattedIsNotHex(c);
  }
}
