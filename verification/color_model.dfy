/**
 * The colour helpers of the colour picker: parsing `#rgb`, `#rgba`, `#rrggbb` and
 * `#rrggbbaa` strings into channels, writing channels back as the canonical
 * lower-case `#rrggbbaa`, and the three ways the picker derives a new colour
 * (numeric fields, preset swatches, the gradient picker).
 */
module ColorModel {
  import opened Wrappers
  import opened Strings

  /** A colour as the picker holds it: every channel is a JavaScript number. */
  datatype Rgba = Rgba(r: real, g: real, b: real, a: real)

  /** r, g and b lie in [0,255] and a in [0,1]. */
  predicate InRange(c: Rgba)
  {
    0.0 <= c.r <= 255.0 && 0.0 <= c.g <= 255.0 && 0.0 <= c.b <= 255.0 && 0.0 <= c.a <= 1.0
  }

  /** r, g, b and 255 * a are whole numbers: the colour is exactly four bytes. */
  predicate Quantized(c: Rgba)
  {
    c.r == c.r.Floor as real && c.g == c.g.Floor as real && c.b == c.b.Floor as real
    && c.a * 255.0 == (c.a * 255.0).Floor as real
  }

  // ---------------------------------------------------------------- hex digits

  predicate IsHexDigit(c: char)
  {
    '0' <= c <= '9' || 'a' <= c <= 'f' || 'A' <= c <= 'F'
  }

  predicate IsLowerHexDigit(c: char)
  {
    '0' <= c <= '9' || 'a' <= c <= 'f'
  }

  predicate AllHexDigits(s: string)
  {
    forall i :: 0 <= i < |s| ==> IsHexDigit(s[i])
  }

  predicate AllLowerHexDigits(s: string)
  {
    forall i :: 0 <= i < |s| ==> IsLowerHexDigit(s[i])
  }

  function DigitValue(c: char): (v: nat)
    requires IsHexDigit(c)
    ensures v < 16
  {
    if '0' <= c <= '9' then c as int - '0' as int
    else if 'a' <= c <= 'f' then c as int - 'a' as int + 10
    else c as int - 'A' as int + 10
  }

  /** The digit `Number.prototype.toString(16)` writes for `v`: always lower case. */
  function LowerDigit(v: nat): (c: char)
    requires v < 16
    ensures IsLowerHexDigit(c) && DigitValue(c) == v
  {
    if v < 10 then ('0' as int + v) as char else ('a' as int + v - 10) as char
  }

  lemma LowerDigitOfValue(c: char)
    requires IsHexDigit(c)
    ensures LowerDigit(DigitValue(c)) == LowerChar(c)
  {
  }

  // ---------------------------------------------------------------- parsing

  /** Removes one leading `#`, if there is one. */
  function StripHash(hex: string): (d: string)
    ensures |hex| > 0 && hex[0] == '#' ==> hex == "#" + d
    ensures |hex| == 0 || hex[0] != '#' ==> d == hex
  {
    if StartsWith(hex, "#") then hex[1..] else hex
  }

  /** The digit string lengths `hexToRgba` understands. */
  predicate ValidLength(d: string)
  {
    |d| == 3 || |d| == 4 || |d| == 6 || |d| == 8
  }

  /** An optional `#` followed by 3, 4, 6 or 8 hex digits: the strings `hexToRgba` parses completely. */
  predicate ValidHex(hex: string)
  {
    ValidLength(StripHash(hex)) && AllHexDigits(StripHash(hex))
  }

  /** `parseInt(hi + lo, 16)` for two hex digits. */
  function PairValue(hi: char, lo: char): (v: nat)
    requires IsHexDigit(hi) && IsHexDigit(lo)
    ensures v < 256
  {
    16 * DigitValue(hi) + DigitValue(lo)
  }

  /** The four integers `hexToRgba` reads before dividing alpha by 255. */
  datatype Bytes = Bytes(r: nat, g: nat, b: nat, a: nat)

  predicate IsBytes(v: Bytes)
  {
    v.r < 256 && v.g < 256 && v.b < 256 && v.a < 256
  }

  /**
   * The channel bytes of the digit string `d` (no `#`): in the 3- and 4-digit
   * forms each digit is read twice, and alpha is 255 when `d` has no alpha digits.
   */
  function ParseBytes(d: string): (v: Bytes)
    requires ValidLength(d) && AllHexDigits(d)
    ensures IsBytes(v)
  {
    var isShort := |d| == 3 || |d| == 4;
    var r := if isShort then PairValue(d[0], d[0]) else PairValue(d[0], d[1]);
    var g := if isShort then PairValue(d[1], d[1]) else PairValue(d[2], d[3]);
    var b := if isShort then PairValue(d[2], d[2]) else PairValue(d[4], d[5]);
    var a := if |d| == 4 || |d| == 8 then
               (if isShort then PairValue(d[3], d[3]) else PairValue(d[6], d[7]))
             else 255;
    Bytes(r, g, b, a)
  }

  /** The colour four bytes stand for: alpha is the last byte divided by 255. */
  function FromBytes(v: Bytes): (c: Rgba)
    requires IsBytes(v)
    ensures InRange(c) && Quantized(c)
  {
    var c := Rgba(v.r as real, v.g as real, v.b as real, v.a as real / 255.0);
    assert c.a * 255.0 == v.a as real;
    c
  }

  /** `hexToRgba` on a string it parses completely. */
  function HexToRgba(hex: string): (c: Rgba)
    requires ValidHex(hex)
    ensures InRange(c) && Quantized(c)
  {
    FromBytes(ParseBytes(StripHash(hex)))
  }

  // ---------------------------------------------------------------- serialising

  /** `Math.round(x)`: the nearest integer, halves rounded up. */
  function Round(x: real): int
  {
    (x + 0.5).Floor
  }

  /** The digits of `n.toString(16)` for a non-negative integer. */
  function HexString(n: nat): (s: string)
    ensures |s| >= 1 && AllLowerHexDigits(s)
  {
    if n < 16 then [LowerDigit(n)] else HexString(n / 16) + [LowerDigit(n % 16)]
  }

  /** `n.toString(16)` for any integer. */
  function IntToHexString(n: int): (s: string)
    ensures |s| >= 1
    ensures n >= 0 ==> AllLowerHexDigits(s)
    ensures n < 0 ==> |s| >= 2 && s[0] == '-' && AllLowerHexDigits(s[1..])
  {
    if n < 0 then "-" + HexString(-n) else HexString(n)
  }

  /** The inner `toHex` of `rgbaToHex`: round, write in base 16, prefix `0`, keep the last two characters. */
  function ToHex(c: real): (s: string)
    ensures |s| == 2
  {
    var padded := "0" + IntToHexString(Round(c));
    padded[|padded| - 2..]
  }

  /** `rgbaToHex`: `#` and two characters per channel, alpha scaled by 255 first. */
  function RgbaToHex(c: Rgba): (s: string)
    ensures |s| == 9 && s[0] == '#'
  {
    "#" + (ToHex(c.r) + ToHex(c.g) + ToHex(c.b) + ToHex(c.a * 255.0))
  }

  /** Two lower-case digits for a byte. */
  function Hex2(n: nat): (s: string)
    requires n < 256
    ensures |s| == 2 && AllLowerHexDigits(s)
  {
    [LowerDigit(n / 16), LowerDigit(n % 16)]
  }

  /** The eight digits four bytes are written as. */
  function BytesHex(v: Bytes): (s: string)
    requires IsBytes(v)
    ensures |s| == 8 && AllLowerHexDigits(s)
  {
    Hex2(v.r) + Hex2(v.g) + Hex2(v.b) + Hex2(v.a)
  }

  /** The long form of a 3- or 4-digit string: every digit written twice. */
  function Doubled(d: string): (r: string)
    requires |d| == 3 || |d| == 4
    ensures |r| == 2 * |d|
    ensures forall i :: 0 <= i < |r| ==> r[i] == d[i / 2]
  {
    if |d| == 3 then [d[0], d[0], d[1], d[1], d[2], d[2]]
    else [d[0], d[0], d[1], d[1], d[2], d[2], d[3], d[3]]
  }

  /**
   * The canonical eight lower-case digits a valid digit string denotes: short forms
   * doubled, `ff` appended when there are no alpha digits.
   */
  function CanonicalDigits(d: string): (r: string)
    requires ValidLength(d)
  {
    var long := if |d| == 3 || |d| == 4 then Doubled(d) else d;
    Lower(if |long| == 6 then long + "ff" else long)
  }

  /** The rounding of each channel `rgbaToHex` performs, seen as a colour. */
  function Quantize(c: Rgba): Rgba
  {
    Rgba(Round(c.r) as real, Round(c.g) as real, Round(c.b) as real, Round(c.a * 255.0) as real / 255.0)
  }

  // ---------------------------------------------------------------- lemmas

  /** `Math.round` picks an integer at most one half away. */
  lemma RoundIsNearest(x: real)
    ensures x - 0.5 < Round(x) as real <= x + 0.5
  {
  }

  lemma RoundInRange(x: real)
    requires 0.0 <= x <= 255.0
    ensures 0 <= Round(x) < 256
  {
    RoundIsNearest(x);
  }

  lemma RoundOfWhole(n: int)
    ensures Round(n as real) == n
  {
    RoundIsNearest(n as real);
  }

  /** `toHex` writes any value that rounds to a byte as exactly that byte's two digits. */
  lemma {:induction false} ToHexOfByte(x: real)
    requires 0 <= Round(x) < 256
    ensures ToHex(x) == Hex2(Round(x))
  {
    var n := Round(x);
    assert IntToHexString(n) == HexString(n);
    PaddedHex(n);
  }

  /** A byte in base 16, prefixed with `0`, ends in its two digits. */
  lemma {:induction false} PaddedHex(n: nat)
    requires n < 256
    ensures var p := "0" + HexString(n); p[|p| - 2..] == Hex2(n)
  {
    var q, r := n / 16, n % 16;
    assert Hex2(n) == [LowerDigit(q), LowerDigit(r)];
    if n < 16 {
      assert q == 0 && r == n;
      assert "0" + HexString(n) == [LowerDigit(q), LowerDigit(r)];
    } else {
      assert 0 < q < 16;
      assert HexString(q) == [LowerDigit(q)];
      assert HexString(n) == HexString(q) + [LowerDigit(r)];
      assert ("0" + HexString(n))[1..] == [LowerDigit(q), LowerDigit(r)];
    }
  }

  /** The two digits of a byte read back as the byte. */
  lemma Hex2Value(n: nat)
    requires n < 256
    ensures PairValue(Hex2(n)[0], Hex2(n)[1]) == n
  {
  }

  /** Reading two digits and writing them back gives them in lower case. */
  lemma {:induction false} Hex2OfPair(hi: char, lo: char)
    requires IsHexDigit(hi) && IsHexDigit(lo)
    ensures Hex2(PairValue(hi, lo)) == [LowerChar(hi), LowerChar(lo)]
  {
    var v := PairValue(hi, lo);
    assert v / 16 == DigitValue(hi) && v % 16 == DigitValue(lo);
    LowerDigitOfValue(hi);
    LowerDigitOfValue(lo);
  }

  /** A colour whose channels round to the bytes `v` is written as `#` and their eight digits. */
  lemma {:induction false} RgbaToHexOfBytes(c: Rgba, v: Bytes)
    requires IsBytes(v)
    requires Round(c.r) == v.r && Round(c.g) == v.g && Round(c.b) == v.b && Round(c.a * 255.0) == v.a
    ensures RgbaToHex(c) == "#" + BytesHex(v)
  {
    var r, g, b, a := ToHex(c.r), ToHex(c.g), ToHex(c.b), ToHex(c.a * 255.0);
    assert r == Hex2(v.r) by { ToHexOfByte(c.r); }
    assert g == Hex2(v.g) by { ToHexOfByte(c.g); }
    assert b == Hex2(v.b) by { ToHexOfByte(c.b); }
    assert a == Hex2(v.a) by { ToHexOfByte(c.a * 255.0); }
  }

  /** Four bytes are written as `#` and their eight digits. */
  lemma {:induction false} SerialiseBytes(v: Bytes)
    requires IsBytes(v)
    ensures RgbaToHex(FromBytes(v)) == "#" + BytesHex(v)
  {
    var c := FromBytes(v);
    assert c.a * 255.0 == v.a as real;
    RoundOfWhole(v.r);
    RoundOfWhole(v.g);
    RoundOfWhole(v.b);
    RoundOfWhole(v.a);
    RgbaToHexOfBytes(c, v);
  }

  /** The bytes read from a digit string, written back, are its canonical digits. */
  lemma {:induction false} BytesOfCanonical(d: string)
    requires ValidLength(d) && AllHexDigits(d)
    ensures BytesHex(ParseBytes(d)) == CanonicalDigits(d)
  {
    if |d| == 3 {
      BytesOfCanonical3(d);
    } else if |d| == 4 {
      BytesOfCanonical4(d);
    } else if |d| == 6 {
      BytesOfCanonical6(d);
    } else {
      BytesOfCanonical8(d);
    }
  }

  lemma {:induction false} BytesOfCanonical3(d: string)
    requires |d| == 3 && AllHexDigits(d)
    ensures BytesHex(ParseBytes(d)) == CanonicalDigits(d)
  {
    var e := [LowerChar(d[0]), LowerChar(d[0]), LowerChar(d[1]), LowerChar(d[1]),
              LowerChar(d[2]), LowerChar(d[2]), 'f', 'f'];
    assert BytesHex(ParseBytes(d)) == e by {
      Hex2OfPair(d[0], d[0]);
      Hex2OfPair(d[1], d[1]);
      Hex2OfPair(d[2], d[2]);
      assert Hex2(255) == "ff";
    }
    assert Lower(Doubled(d) + "ff") == e;
  }

  lemma {:induction false} BytesOfCanonical4(d: string)
    requires |d| == 4 && AllHexDigits(d)
    ensures BytesHex(ParseBytes(d)) == CanonicalDigits(d)
  {
    var e := [LowerChar(d[0]), LowerChar(d[0]), LowerChar(d[1]), LowerChar(d[1]),
              LowerChar(d[2]), LowerChar(d[2]), LowerChar(d[3]), LowerChar(d[3])];
    assert BytesHex(ParseBytes(d)) == e by {
      Hex2OfPair(d[0], d[0]);
      Hex2OfPair(d[1], d[1]);
      Hex2OfPair(d[2], d[2]);
      Hex2OfPair(d[3], d[3]);
    }
    assert Lower(Doubled(d)) == e;
  }

  lemma {:induction false} BytesOfCanonical6(d: string)
    requires |d| == 6 && AllHexDigits(d)
    ensures BytesHex(ParseBytes(d)) == CanonicalDigits(d)
  {
    var e := [LowerChar(d[0]), LowerChar(d[1]), LowerChar(d[2]), LowerChar(d[3]),
              LowerChar(d[4]), LowerChar(d[5]), 'f', 'f'];
    assert BytesHex(ParseBytes(d)) == e by {
      Hex2OfPair(d[0], d[1]);
      Hex2OfPair(d[2], d[3]);
      Hex2OfPair(d[4], d[5]);
      assert Hex2(255) == "ff";
    }
    assert Lower(d + "ff") == e by {
      assert d + "ff" == [d[0], d[1], d[2], d[3], d[4], d[5], 'f', 'f'];
    }
  }

  lemma {:induction false} BytesOfCanonical8(d: string)
    requires |d| == 8 && AllHexDigits(d)
    ensures BytesHex(ParseBytes(d)) == CanonicalDigits(d)
  {
    Hex2OfPair(d[0], d[1]);
    Hex2OfPair(d[2], d[3]);
    Hex2OfPair(d[4], d[5]);
    Hex2OfPair(d[6], d[7]);
    var e := [LowerChar(d[0]), LowerChar(d[1]), LowerChar(d[2]), LowerChar(d[3]),
              LowerChar(d[4]), LowerChar(d[5]), LowerChar(d[6]), LowerChar(d[7])];
    assert BytesHex(ParseBytes(d)) == e;
    assert Lower(d) == e;
  }

  /**
   * Round trip from the string side: every colour `hexToRgba` parses is written back
   * by `rgbaToHex` as `#` and its canonical eight lower-case digits.
   */
  lemma {:induction false} SerialiseParsed(hex: string)
    requires ValidHex(hex)
    ensures RgbaToHex(HexToRgba(hex)) == "#" + CanonicalDigits(StripHash(hex))
  {
    SerialiseBytes(ParseBytes(StripHash(hex)));
    BytesOfCanonical(StripHash(hex));
  }

  /** For 8-digit input the round trip only lower-cases the digits. */
  lemma {:induction false} RoundTripLongForm(hex: string)
    requires ValidHex(hex) && |StripHash(hex)| == 8
    ensures RgbaToHex(HexToRgba(hex)) == "#" + Lower(StripHash(hex))
  {
    SerialiseParsed(hex);
  }

  /** The bytes `rgbaToHex` writes for a colour in range. */
  function RoundedBytes(c: Rgba): (v: Bytes)
    requires InRange(c)
    ensures IsBytes(v)
  {
    RoundInRange(c.r);
    RoundInRange(c.g);
    RoundInRange(c.b);
    RoundInRange(c.a * 255.0);
    Bytes(Round(c.r), Round(c.g), Round(c.b), Round(c.a * 255.0))
  }

  lemma {:induction false} RgbaToHexOfRounded(c: Rgba)
    requires InRange(c)
    ensures RgbaToHex(c) == "#" + BytesHex(RoundedBytes(c))
  {
    RgbaToHexOfBytes(c, RoundedBytes(c));
  }

  /** `#` followed by the digits of four bytes is a valid 8-digit colour. */
  lemma {:induction false} CanonicalStringIsValid(v: Bytes)
    requires IsBytes(v)
    ensures var s := "#" + BytesHex(v);
      StripHash(s) == BytesHex(v) == s[1..] && ValidHex(s) && AllLowerHexDigits(s[1..])
  {
    var s := "#" + BytesHex(v);
    assert StartsWith(s, "#");
    assert s[1..] == BytesHex(v);
    assert forall i :: 0 <= i < 8 ==> IsHexDigit(BytesHex(v)[i]);
  }

  /** With channels in range, `rgbaToHex` writes `#` and exactly eight lower-case hex digits. */
  lemma {:induction false} SerialisedIsCanonical(c: Rgba)
    requires InRange(c)
    ensures ValidHex(RgbaToHex(c)) && |StripHash(RgbaToHex(c))| == 8
    ensures AllLowerHexDigits(RgbaToHex(c)[1..])
    ensures RgbaToHex(c) == "#" + BytesHex(RoundedBytes(c))
  {
    RgbaToHexOfRounded(c);
    CanonicalStringIsValid(RoundedBytes(c));
  }

  /** Parsing the digits of four bytes gives the bytes back. */
  lemma {:induction false} ParseBytesHex(v: Bytes)
    requires IsBytes(v)
    ensures AllHexDigits(BytesHex(v)) && ParseBytes(BytesHex(v)) == v
  {
    Hex2Value(v.r);
    Hex2Value(v.g);
    Hex2Value(v.b);
    Hex2Value(v.a);
  }

  /**
   * Round trip from the channel side: a colour in range comes back from
   * `hexToRgba(rgbaToHex(c))` with every channel rounded to its byte.
   */
  lemma {:induction false} ParseSerialised(c: Rgba)
    requires InRange(c)
    ensures ValidHex(RgbaToHex(c)) && HexToRgba(RgbaToHex(c)) == Quantize(c)
  {
    var v := RoundedBytes(c);
    SerialisedIsCanonical(c);
    CanonicalStringIsValid(v);
    assert StripHash(RgbaToHex(c)) == BytesHex(v);
    ParseBytesHex(v);
    assert HexToRgba(RgbaToHex(c)) == FromBytes(v);
  }

  /** Rounding keeps whole r, g, b exactly and moves alpha by at most half of 1/255. */
  lemma {:induction false} QuantizeError(c: Rgba)
    ensures var q := Quantize(c);
      (c.r == c.r.Floor as real ==> q.r == c.r)
      && (c.g == c.g.Floor as real ==> q.g == c.g)
      && (c.b == c.b.Floor as real ==> q.b == c.b)
      && c.a - 1.0 / 510.0 < q.a <= c.a + 1.0 / 510.0
  {
    RoundOfWhole(c.r.Floor);
    RoundOfWhole(c.g.Floor);
    RoundOfWhole(c.b.Floor);
    var x := c.a * 255.0;
    var n := Round(x) as real;
    RoundIsNearest(x);
    assert n / 255.0 - c.a == (n - x) / 255.0;
  }

  /** The round trip keeps whole r, g, b exactly and moves alpha by at most half of 1/255. */
  lemma {:induction false} RoundTripPrecision(c: Rgba)
    requires InRange(c)
    ensures ValidHex(RgbaToHex(c))
    ensures var back := HexToRgba(RgbaToHex(c));
      (c.r == c.r.Floor as real ==> back.r == c.r)
      && (c.g == c.g.Floor as real ==> back.g == c.g)
      && (c.b == c.b.Floor as real ==> back.b == c.b)
      && c.a - 1.0 / 510.0 < back.a <= c.a + 1.0 / 510.0
  {
    ParseSerialised(c);
    QuantizeError(c);
  }

  /** A quantised colour is its own rounding. */
  lemma QuantizeOfQuantized(c: Rgba)
    requires Quantized(c)
    ensures Quantize(c) == c
  {
    RoundOfWhole(c.r.Floor);
    RoundOfWhole(c.g.Floor);
    RoundOfWhole(c.b.Floor);
    RoundOfWhole((c.a * 255.0).Floor);
  }

  /** A leading `#` makes no difference to `hexToRgba`. */
  lemma HashIsOptional(d: string)
    requires ValidLength(d) && AllHexDigits(d)
    ensures ValidHex(d) && ValidHex("#" + d)
    ensures HexToRgba("#" + d) == HexToRgba(d)
  {
    assert d[0] != '#';
    assert ("#" + d)[1..] == d;
  }

  /** In the 3- and 4-digit forms every digit stands for itself twice: `f` reads as 0xff. */
  lemma {:induction false} ShortFormIsDoubled(d: string)
    requires (|d| == 3 || |d| == 4) && AllHexDigits(d)
    ensures ValidLength(Doubled(d)) && AllHexDigits(Doubled(d))
    ensures ParseBytes(d) == ParseBytes(Doubled(d))
    ensures ParseBytes(d).r == 17 * DigitValue(d[0])
  {
    var dd := Doubled(d);
    assert forall i :: 0 <= i < |dd| ==> dd[i] == d[i / 2];
  }

  /** Alpha is 1 without alpha digits, and the last byte over 255 with them. */
  lemma AlphaOfParsed(hex: string)
    requires ValidHex(hex)
    ensures var d, c := StripHash(hex), HexToRgba(hex);
      (|d| == 3 || |d| == 6 ==> c.a == 1.0)
      && (|d| == 4 ==> c.a == PairValue(d[3], d[3]) as real / 255.0)
      && (|d| == 8 ==> c.a == PairValue(d[6], d[7]) as real / 255.0)
  {
  }

  // ---------------------------------------------------------------- the numeric fields

  /** The field the user edits. */
  datatype Channel = Red | Green | Blue | Alpha

  /** What `parseFloat` hands to the numeric field's handler. */
  datatype JsNumber = NaN | PositiveInfinity | NegativeInfinity | Finite(value: real)

  function ChannelOf(c: Rgba, part: Channel): real
  {
    match part
    case Red => c.r
    case Green => c.g
    case Blue => c.b
    case Alpha => c.a
  }

  /** `Math.max(lo, Math.min(hi, value))` for a number that is not NaN. */
  function Clamp(lo: real, hi: real, value: JsNumber): (r: real)
    requires lo <= hi && !value.NaN?
    ensures lo <= r <= hi
    ensures value.Finite? && lo <= value.value <= hi ==> r == value.value
    ensures value.Finite? && value.value < lo ==> r == lo
    ensures value.Finite? && hi < value.value ==> r == hi
    ensures value.PositiveInfinity? ==> r == hi
    ensures value.NegativeInfinity? ==> r == lo
  {
    match value
    case PositiveInfinity => hi
    case NegativeInfinity => lo
    case Finite(v) =>
      var m := if hi < v then hi else v;
      if m < lo then lo else m
  }

  /** The upper bound of a channel: 255 for r, g and b, 1 for alpha. */
  function ChannelMax(part: Channel): real
  {
    if part == Alpha then 1.0 else 255.0
  }

  /** The record update `{ ...rgba, [part]: value }` followed by the clamp of that one field. */
  function SetChannel(rgba: Rgba, part: Channel, value: JsNumber): (c: Rgba)
    requires !value.NaN?
    ensures ChannelOf(c, part) == Clamp(0.0, ChannelMax(part), value)
    ensures forall q :: q != part ==> ChannelOf(c, q) == ChannelOf(rgba, q)
  {
    var v := Clamp(0.0, ChannelMax(part), value);
    match part
    case Red => rgba.(r := v)
    case Green => rgba.(g := v)
    case Blue => rgba.(b := v)
    case Alpha => rgba.(a := v)
  }

  /**
   * `handleRgbaChange` of the numeric fields showing `color`: None when the value is
   * NaN (no change is reported), otherwise the reported colour, in which the edited
   * channel is the clamped value (rounded to a byte) and every other channel is as before.
   */
  function HandleRgbaChange(color: string, part: Channel, value: JsNumber): (r: Option<string>)
    requires ValidHex(color)
    ensures r.None? <==> value.NaN?
    ensures r.Some? ==> ValidHex(r.value) && |StripHash(r.value)| == 8
    ensures r.Some? ==> |r.value| == 9 && r.value[0] == '#' && AllLowerHexDigits(r.value[1..])
    ensures r.Some? ==>
      var before, after := HexToRgba(color), HexToRgba(r.value);
      && (forall q :: q != part ==> ChannelOf(after, q) == ChannelOf(before, q))
      && 0.0 <= ChannelOf(after, part) <= ChannelMax(part)
      && (part != Alpha ==> ChannelOf(after, part) == Round(Clamp(0.0, 255.0, value)) as real)
      && (part == Alpha ==> after.a == Round(Clamp(0.0, 1.0, value) * 255.0) as real / 255.0)
  {
    if value.NaN? then None
    else
      var rgba := HexToRgba(color);
      var updated := SetChannel(rgba, part, value);
      SetChannelInRange(rgba, part, value);
      SerialisedIsCanonical(updated);
      ParseSerialised(updated);
      QuantizedUpdate(rgba, part, value);
      Some(RgbaToHex(updated))
  }

  lemma SetChannelInRange(rgba: Rgba, part: Channel, value: JsNumber)
    requires InRange(rgba) && !value.NaN?
    ensures InRange(SetChannel(rgba, part, value))
  {
  }

  /** Rounding after a one-channel update leaves the other channels of a byte colour alone. */
  lemma {:induction false} QuantizedUpdate(rgba: Rgba, part: Channel, value: JsNumber)
    requires InRange(rgba) && Quantized(rgba) && !value.NaN?
    ensures var after := Quantize(SetChannel(rgba, part, value));
      && (forall q :: q != part ==> ChannelOf(after, q) == ChannelOf(rgba, q))
      && 0.0 <= ChannelOf(after, part) <= ChannelMax(part)
      && (part != Alpha ==> ChannelOf(after, part) == Round(Clamp(0.0, 255.0, value)) as real)
      && (part == Alpha ==> after.a == Round(Clamp(0.0, 1.0, value) * 255.0) as real / 255.0)
  {
    var updated := SetChannel(rgba, part, value);
    QuantizeOfQuantized(rgba);
    var after := Quantize(updated);
    forall q | q != part
      ensures ChannelOf(after, q) == ChannelOf(rgba, q)
    {
      assert ChannelOf(updated, q) == ChannelOf(rgba, q);
      match q
      case Red =>
      case Green =>
      case Blue =>
      case Alpha =>
    }
    var v := Clamp(0.0, ChannelMax(part), value);
    if part == Alpha {
      RoundInRange(v * 255.0);
    } else {
      RoundInRange(v);
    }
  }

  /** A whole value in range typed into r, g or b is the channel's new value exactly. */
  lemma WholeValueIsKept(color: string, part: Channel, n: nat)
    requires ValidHex(color) && part != Alpha && n <= 255
    ensures HandleRgbaChange(color, part, Finite(n as real)).Some?
    ensures ChannelOf(HexToRgba(HandleRgbaChange(color, part, Finite(n as real)).value), part) == n as real
  {
    var updated := SetChannel(HexToRgba(color), part, Finite(n as real));
    ParseSerialised(updated);
    RoundOfWhole(n);
  }

  // ---------------------------------------------------------------- swatches and the picker

  /**
   * The colour with `source`'s red, green and blue and `current`'s alpha, written
   * canonically: the shared body of `handlePresetClick` and `handlePickerChange`.
   */
  function KeepAlpha(current: string, source: string): (r: string)
    requires ValidHex(current) && ValidHex(source)
    ensures ValidHex(r) && |r| == 9 && r[0] == '#' && AllLowerHexDigits(r[1..])
    ensures var c, s := HexToRgba(current), HexToRgba(source);
      HexToRgba(r) == Rgba(s.r, s.g, s.b, c.a)
    ensures r[1..7] == CanonicalDigits(StripHash(source))[..6]
    ensures r[7..] == CanonicalDigits(StripHash(current))[6..]
  {
    var c, s := HexToRgba(current), HexToRgba(source);
    KeepAlphaIsCanonical(current, source);
    RgbaToHex(Rgba(s.r, s.g, s.b, c.a))
  }

  /** The bytes of the mixed colour: the source's r, g, b and the current alpha byte. */
  function MixedBytes(current: string, source: string): (v: Bytes)
    requires ValidHex(current) && ValidHex(source)
    ensures IsBytes(v)
  {
    var cur := ParseBytes(StripHash(current));
    var src := ParseBytes(StripHash(source));
    Bytes(src.r, src.g, src.b, cur.a)
  }

  lemma {:induction false} KeepAlphaIsCanonical(current: string, source: string)
    requires ValidHex(current) && ValidHex(source)
    ensures var c, s := HexToRgba(current), HexToRgba(source);
      var r := RgbaToHex(Rgba(s.r, s.g, s.b, c.a));
      && ValidHex(r) && |r| == 9 && r[0] == '#' && AllLowerHexDigits(r[1..])
      && HexToRgba(r) == Rgba(s.r, s.g, s.b, c.a)
      && r[1..7] == CanonicalDigits(StripHash(source))[..6]
      && r[7..] == CanonicalDigits(StripHash(current))[6..]
  {
    var mixed := MixedBytes(current, source);
    var c, s := HexToRgba(current), HexToRgba(source);
    var m := Rgba(s.r, s.g, s.b, c.a);
    assert m == FromBytes(mixed);
    assert RgbaToHex(m) == "#" + BytesHex(mixed) by {
      SerialiseBytes(mixed);
    }
    CanonicalOfBytes(mixed);
    MixedDigits(current, source);
  }

  /** `#` and the digits of four bytes: a valid, lower-case colour that parses back to those bytes. */
  lemma {:induction false} CanonicalOfBytes(v: Bytes)
    requires IsBytes(v)
    ensures var r := "#" + BytesHex(v);
      && ValidHex(r) && |r| == 9 && r[0] == '#' && AllLowerHexDigits(r[1..])
      && HexToRgba(r) == FromBytes(v)
      && r[1..7] == BytesHex(v)[..6] && r[7..] == BytesHex(v)[6..]
  {
    var r := "#" + BytesHex(v);
    CanonicalStringIsValid(v);
    assert StripHash(r) == BytesHex(v);
    ParseBytesHex(v);
  }

  lemma {:induction false} MixedDigits(current: string, source: string)
    requires ValidHex(current) && ValidHex(source)
    ensures BytesHex(MixedBytes(current, source))[..6] == CanonicalDigits(StripHash(source))[..6]
    ensures BytesHex(MixedBytes(current, source))[6..] == CanonicalDigits(StripHash(current))[6..]
  {
    var cur := ParseBytes(StripHash(current));
    var src := ParseBytes(StripHash(source));
    BytesOfCanonical(StripHash(current));
    BytesOfCanonical(StripHash(source));
    assert BytesHex(MixedBytes(current, source))[..6] == Hex2(src.r) + Hex2(src.g) + Hex2(src.b) == BytesHex(src)[..6];
    assert BytesHex(MixedBytes(current, source))[6..] == Hex2(cur.a) == BytesHex(cur)[6..];
  }

  /** The swatch-highlight test: the colour, lower-cased, starts with the lower-cased preset. */
  predicate IsHighlighted(color: string, preset: string)
  {
    StartsWith(Lower(color), Lower(preset))
  }

  /**
   * `handlePresetClick`: the preset's r, g, b with the current alpha; for a
   * `#rrggbb` preset the swatch of that preset is then the highlighted one.
   */
  function HandlePresetClick(color: string, preset: string): (r: string)
    requires ValidHex(color) && ValidHex(preset)
    ensures ValidHex(r)
    ensures var c, p := HexToRgba(color), HexToRgba(preset);
      HexToRgba(r) == Rgba(p.r, p.g, p.b, c.a)
    ensures |preset| == 7 && preset[0] == '#' ==> IsHighlighted(r, preset)
  {
    var r := KeepAlpha(color, preset);
    if |preset| == 7 && preset[0] == '#' then PresetPrefix(r, preset); r else r
  }

  /** A canonical colour whose first six digits are a `#rrggbb` preset's starts with it, ignoring case. */
  lemma {:induction false} PresetPrefix(r: string, preset: string)
    requires |r| == 9 && r[0] == '#' && AllLowerHexDigits(r[1..])
    requires |preset| == 7 && preset[0] == '#' && ValidHex(preset)
    requires r[1..7] == CanonicalDigits(StripHash(preset))[..6]
    ensures IsHighlighted(r, preset)
  {
    var d := StripHash(preset);
    assert d == preset[1..];
    assert forall i :: 0 <= i < 9 ==> Lower(r)[i] == r[i] by {
      forall i | 0 <= i < 9 ensures Lower(r)[i] == r[i] {
        if i > 0 {
          assert IsLowerHexDigit(r[1..][i - 1]);
        }
      }
    }
    assert Lower(r) == r;
    var canonical := CanonicalDigits(d);
    assert canonical == Lower(d + "ff");
    forall i | 0 <= i < 7
      ensures Lower(preset)[i] == r[i]
    {
      if i > 0 {
        assert Lower(preset)[i] == LowerChar(d[i - 1]);
        assert (d + "ff")[i - 1] == d[i - 1];
        assert r[i] == r[1..7][i - 1] == canonical[i - 1];
      }
    }
  }

  /** `handlePickerChange`: the picked colour's r, g, b, with the alpha byte of the current colour kept. */
  function HandlePickerChange(color: string, newColor: string): (r: string)
    requires ValidHex(color) && ValidHex(newColor)
    ensures ValidHex(r) && |StripHash(r)| == 8
    ensures var c, n := HexToRgba(color), HexToRgba(newColor);
      HexToRgba(r) == Rgba(n.r, n.g, n.b, c.a)
    ensures r[7..] == CanonicalDigits(StripHash(color))[6..]
  {
    KeepAlpha(color, newColor)
  }
}
