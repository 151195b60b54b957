/*
 * The heat-map helpers: a value is clamped into [min, max], normalised to
 * [0, 1] and turned into a colour "#rrggbb" (blue, cyan, green, yellow,
 * orange, red in five bands), a circle radius or an alpha level.
 */
module Heatmap {
  import opened Common

  // Default arguments of the three helpers.
  const DefaultMinValue: real := 0.0
  const DefaultMaxValue: real := 10.0
  const DefaultMinRadius: real := 15.0
  const DefaultMaxRadius: real := 30.0
  const DefaultBaseColor: string := "#6495ED"
  const DefaultAlphaMin: real := 0.2
  const DefaultAlphaMax: real := 1.0

  // =====================================================================
  // Clamping and normalisation

  /** The value raised to lo when below it, then lowered to hi when above
      it. When hi < lo every value ends at hi. */
  function Clamp(value: real, lo: real, hi: real): (v: real)
    ensures lo <= hi ==> lo <= v <= hi
    ensures lo <= value <= hi ==> v == value
    ensures value < lo <= hi ==> v == lo
    ensures lo <= hi < value ==> v == hi
    ensures hi < lo ==> v == hi
  {
    var raised := if value < lo then lo else value;
    if raised > hi then hi else raised
  }

  /** The clamped value's position in [lo, hi]; 0 when the bounds are equal. */
  function Normalized(value: real, lo: real, hi: real): (n: real)
    ensures 0.0 <= n <= 1.0
  {
    if hi == lo then 0.0
    else
      var v := Clamp(value, lo, hi);
      DivisionBounds(v - lo, hi - lo);
      (v - lo) / (hi - lo)
  }

  /** a / d lies in [0, 1] when 0 <= a <= d or d <= a <= 0. */
  lemma DivisionBounds(a: real, d: real)
    requires d != 0.0
    requires (0.0 <= a <= d) || (d <= a <= 0.0)
    ensures 0.0 <= a / d <= 1.0
  {
  }

  /** The normalised value at the ends of the range and for degenerate
      bounds: 0 at or below lo, 1 at or above hi, 0 when lo == hi and 1
      when hi < lo (the clamp then always yields hi). */
  lemma NormalizedEnds(value: real, lo: real, hi: real)
    ensures lo < hi && value <= lo ==> Normalized(value, lo, hi) == 0.0
    ensures lo < hi && hi <= value ==> Normalized(value, lo, hi) == 1.0
    ensures lo == hi ==> Normalized(value, lo, hi) == 0.0
    ensures hi < lo ==> Normalized(value, lo, hi) == 1.0
  {
    if lo != hi && (hi < lo || hi <= value) {
      assert Clamp(value, lo, hi) == hi;
      DivisionSelf(hi - lo);
    }
  }

  /** Inside the range, normalisation is undone by scaling back. */
  lemma NormalizedInverse(value: real, lo: real, hi: real)
    requires lo < hi && lo <= value <= hi
    ensures Interpolate(lo, hi, Normalized(value, lo, hi)) == value
  {
    var n := Normalized(value, lo, hi);
    assert n == (value - lo) / (hi - lo);
    assert n * (hi - lo) == value - lo;
  }

  /** A larger value never normalises lower. */
  lemma NormalizedMonotone(v1: real, v2: real, lo: real, hi: real)
    requires v1 <= v2
    ensures Normalized(v1, lo, hi) <= Normalized(v2, lo, hi)
  {
    if lo < hi {
      var a1, a2 := Clamp(v1, lo, hi) - lo, Clamp(v2, lo, hi) - lo;
      var d := hi - lo;
      assert a1 <= a2;
      DivisionMonotone(a1, a2, d);
    }
  }

  lemma DivisionSelf(d: real)
    requires d != 0.0
    ensures d / d == 1.0
  {
  }

  lemma DivisionMonotone(a1: real, a2: real, d: real)
    requires a1 <= a2 && d > 0.0
    ensures a1 / d <= a2 / d
  {
  }

  /** n * d lies between 0 and d when n lies in [0, 1]. */
  lemma ScaleBounds(n: real, d: real)
    requires 0.0 <= n <= 1.0
    ensures d >= 0.0 ==> 0.0 <= n * d <= d
    ensures d <= 0.0 ==> d <= n * d <= 0.0
  {
  }

  /** n1 * d <= n2 * d when n1 <= n2 and d >= 0. */
  lemma ScaleMonotone(n1: real, n2: real, d: real)
    requires n1 <= n2 && d >= 0.0
    ensures n1 * d <= n2 * d
  {
  }

  // =====================================================================
  // Colour

  datatype Rgb = Rgb(r: int, g: int, b: int)

  predicate IsChannel(x: int)
  {
    0 <= x <= 255
  }

  /** The five colour bands of a normalised value, each channel truncated
      to an integer. */
  function Channels(n: real): (c: Rgb)
    requires 0.0 <= n <= 1.0
    ensures IsChannel(c.r) && IsChannel(c.g) && IsChannel(c.b)
  {
    if n < 0.2 then Rgb(0, (255.0 * (n / 0.2)).Floor, 255)
    else if n < 0.4 then Rgb(0, 255, (255.0 * (1.0 - (n - 0.2) / 0.2)).Floor)
    else if n < 0.6 then Rgb((255.0 * ((n - 0.4) / 0.2)).Floor, 255, 0)
    else if n < 0.8 then Rgb(255, (255.0 * (1.0 - (n - 0.6) / 0.2)).Floor, 0)
    else Rgb(255, 0, 0)
  }

  /** Red is off in the two cold bands and blue is off in the three warm
      ones; in each band one channel moves and the other two are fixed:
      green rises with blue full, then blue falls with green full, then red
      rises with green full, then green falls with red full, then pure red. */
  lemma ChannelBands(n: real)
    requires 0.0 <= n <= 1.0
    ensures n < 0.4 ==> Channels(n).r == 0
    ensures n >= 0.4 ==> Channels(n).b == 0
    ensures n < 0.2 ==> Channels(n).b == 255
    ensures 0.2 <= n < 0.6 ==> Channels(n).g == 255
    ensures 0.6 <= n ==> Channels(n).r == 255
    ensures 0.8 <= n ==> Channels(n) == Rgb(255, 0, 0)
    ensures n == 0.0 ==> Channels(n) == Rgb(0, 0, 255)
  {
  }

  /** Within one band, the moving channel moves one way: a warmer value never
      has less green in the first band, less blue in the second (it has at
      most as much), and so on. */
  lemma ChannelsBandMonotone(n1: real, n2: real)
    requires 0.0 <= n1 <= n2 <= 1.0
    ensures n2 < 0.2 ==> Channels(n1).g <= Channels(n2).g
    ensures 0.2 <= n1 && n2 < 0.4 ==> Channels(n1).b >= Channels(n2).b
    ensures 0.4 <= n1 && n2 < 0.6 ==> Channels(n1).r <= Channels(n2).r
    ensures 0.6 <= n1 && n2 < 0.8 ==> Channels(n1).g >= Channels(n2).g
  {
    FloorMonotone(255.0 * (n1 / 0.2), 255.0 * (n2 / 0.2));
    FloorMonotone(255.0 * (1.0 - (n2 - 0.2) / 0.2), 255.0 * (1.0 - (n1 - 0.2) / 0.2));
    FloorMonotone(255.0 * ((n1 - 0.4) / 0.2), 255.0 * ((n2 - 0.4) / 0.2));
    FloorMonotone(255.0 * (1.0 - (n2 - 0.6) / 0.2), 255.0 * (1.0 - (n1 - 0.6) / 0.2));
  }

  lemma FloorMonotone(x: real, y: real)
    requires x <= y
    ensures x.Floor <= y.Floor
  {
  }

  /** A lower-case hexadecimal digit. */
  function HexDigit(d: int): (c: char)
    requires 0 <= d < 16
    ensures IsHexDigit(c)
  {
    if d < 10 then (48 + d) as char else (87 + d) as char
  }

  predicate IsHexDigit(c: char)
  {
    '0' <= c <= '9' || 'a' <= c <= 'f'
  }

  /** The value of a lower-case hexadecimal digit. */
  function HexValue(c: char): (d: Option<int>)
    ensures d.Some? <==> IsHexDigit(c)
    ensures d.Some? ==> 0 <= d.value < 16
  {
    if '0' <= c <= '9' then Some(c as int - 48)
    else if 'a' <= c <= 'f' then Some(c as int - 87)
    else None
  }

  /** A channel as two lower-case hexadecimal digits, zero-padded. */
  function Hex2(x: int): (s: string)
    requires IsChannel(x)
    ensures |s| == 2 && IsHexDigit(s[0]) && IsHexDigit(s[1])
  {
    [HexDigit(x / 16), HexDigit(x % 16)]
  }

  /** "#rrggbb" */
  function ColorHex(c: Rgb): (s: string)
    requires IsChannel(c.r) && IsChannel(c.g) && IsChannel(c.b)
    ensures |s| == 7 && s[0] == '#'
    ensures forall i :: 1 <= i < 7 ==> IsHexDigit(s[i])
  {
    "#" + Hex2(c.r) + Hex2(c.g) + Hex2(c.b)
  }

  /** Reads back a "#rrggbb" colour; None for anything else. */
  function ParseColor(s: string): (c: Option<Rgb>)
    ensures c.Some? ==> IsChannel(c.value.r) && IsChannel(c.value.g) && IsChannel(c.value.b)
  {
    if |s| != 7 || s[0] != '#' then None
    else match (ParseHex2(s[1..3]), ParseHex2(s[3..5]), ParseHex2(s[5..7]))
      case (Some(r), Some(g), Some(b)) => Some(Rgb(r, g, b))
      case _ => None
  }

  function ParseHex2(s: string): (x: Option<int>)
    requires |s| == 2
    ensures x.Some? ==> IsChannel(x.value)
  {
    match (HexValue(s[0]), HexValue(s[1]))
      case (Some(hi), Some(lo)) => Some(16 * hi + lo)
      case _ => None
  }

  lemma Hex2RoundTrip(x: int)
    requires IsChannel(x)
    ensures ParseHex2(Hex2(x)) == Some(x)
  {
    var s := Hex2(x);
    assert HexValue(s[0]) == Some(x / 16);
    assert HexValue(s[1]) == Some(x % 16);
  }

  /** Reading a written colour gives back its channels, so distinct channel
      triples give distinct strings. */
  lemma ColorHexRoundTrip(c: Rgb)
    requires IsChannel(c.r) && IsChannel(c.g) && IsChannel(c.b)
    ensures ParseColor(ColorHex(c)) == Some(c)
  {
    var s := ColorHex(c);
    Hex2RoundTrip(c.r);
    Hex2RoundTrip(c.g);
    Hex2RoundTrip(c.b);
    assert s[1..3] == Hex2(c.r) && s[3..5] == Hex2(c.g) && s[5..7] == Hex2(c.b);
  }

  /** get_heat_color */
  function HeatColor(value: real, lo: real, hi: real): (s: string)
    ensures |s| == 7 && s[0] == '#'
    ensures forall i :: 1 <= i < 7 ==> IsHexDigit(s[i])
  {
    ColorHex(Channels(Normalized(value, lo, hi)))
  }

  /** The colour string encodes exactly the band colour of the normalised
      value. */
  lemma HeatColorChannels(value: real, lo: real, hi: real)
    ensures ParseColor(HeatColor(value, lo, hi)) == Some(Channels(Normalized(value, lo, hi)))
  {
    ColorHexRoundTrip(Channels(Normalized(value, lo, hi)));
  }

  /** Blue at the cold end (a value at or below min, or equal bounds); red
      once the normalised value reaches 0.8, in particular at or above max,
      and for every value when max < min. */
  lemma HeatColorEnds(value: real, lo: real, hi: real)
    ensures (lo < hi && value <= lo) || lo == hi ==> HeatColor(value, lo, hi) == "#0000ff"
    ensures Normalized(value, lo, hi) >= 0.8 ==> HeatColor(value, lo, hi) == "#ff0000"
    ensures (lo < hi && hi <= value) || hi < lo ==> HeatColor(value, lo, hi) == "#ff0000"
  {
    NormalizedEnds(value, lo, hi);
    var n := Normalized(value, lo, hi);
    if n == 0.0 {
      assert Channels(n) == Rgb(0, 0, 255);
      assert Hex2(0) == "00" && Hex2(255) == "ff";
    }
    if n >= 0.8 {
      assert Channels(n) == Rgb(255, 0, 0);
      assert Hex2(0) == "00" && Hex2(255) == "ff";
    }
  }

  // =====================================================================
  // Alpha and radius

  /** The point at share n of the way from `from` to `to`; it lies between
      the two, whichever way round they are. */
  function Interpolate(from: real, to: real, n: real): (x: real)
    requires 0.0 <= n <= 1.0
    ensures from <= to ==> from <= x <= to
    ensures to <= from ==> to <= x <= from
  {
    var span := to - from;
    var d := n * span;
    ScaleBounds(n, span);
    assert from <= to ==> 0.0 <= d <= span;
    assert to <= from ==> span <= d <= 0.0;
    from + d
  }

  /** get_heat_alpha_color: the base colour, unchanged, with an alpha
      between alphaMin and alphaMax (whichever way round they are). */
  function HeatAlphaColor(value: real, lo: real, hi: real, baseColor: string, alphaMin: real, alphaMax: real)
    : (c: (string, real))
    ensures c.0 == baseColor
    ensures alphaMin <= alphaMax ==> alphaMin <= c.1 <= alphaMax
    ensures alphaMax <= alphaMin ==> alphaMax <= c.1 <= alphaMin
  {
    (baseColor, Interpolate(alphaMin, alphaMax, Normalized(value, lo, hi)))
  }

  /** get_heat_radius: between minRadius and maxRadius (whichever way round
      they are). */
  function HeatRadius(value: real, lo: real, hi: real, minRadius: real, maxRadius: real): (radius: real)
    ensures minRadius <= maxRadius ==> minRadius <= radius <= maxRadius
    ensures maxRadius <= minRadius ==> maxRadius <= radius <= minRadius
  {
    Interpolate(minRadius, maxRadius, Normalized(value, lo, hi))
  }

  /** The radius is minRadius at the cold end and maxRadius at the hot end. */
  lemma HeatRadiusEnds(value: real, lo: real, hi: real, minRadius: real, maxRadius: real)
    ensures (lo < hi && value <= lo) || lo == hi ==> HeatRadius(value, lo, hi, minRadius, maxRadius) == minRadius
    ensures (lo < hi && hi <= value) || hi < lo ==> HeatRadius(value, lo, hi, minRadius, maxRadius) == maxRadius
  {
    NormalizedEnds(value, lo, hi);
  }

  /** With minRadius <= maxRadius a larger value never gets a smaller
      circle. */
  lemma HeatRadiusMonotone(v1: real, v2: real, lo: real, hi: real, minRadius: real, maxRadius: real)
    requires v1 <= v2 && minRadius <= maxRadius
    ensures HeatRadius(v1, lo, hi, minRadius, maxRadius) <= HeatRadius(v2, lo, hi, minRadius, maxRadius)
  {
    var n1, n2 := Normalized(v1, lo, hi), Normalized(v2, lo, hi);
    NormalizedMonotone(v1, v2, lo, hi);
    ScaleMonotone(n1, n2, maxRadius - minRadius);
    assert HeatRadius(v1, lo, hi, minRadius, maxRadius) == minRadius + n1 * (maxRadius - minRadius);
    assert HeatRadius(v2, lo, hi, minRadius, maxRadius) == minRadius + n2 * (maxRadius - minRadius);
  }

  /** With the default arguments a radius lies in [15, 30] and an alpha in
      [0.2, 1.0], on the default base colour. */
  lemma Defaults(value: real)
    ensures DefaultMinRadius <= HeatRadius(value, DefaultMinValue, DefaultMaxValue, DefaultMinRadius, DefaultMaxRadius) <= DefaultMaxRadius
    ensures var c := HeatAlphaColor(value, DefaultMinValue, DefaultMaxValue, DefaultBaseColor, DefaultAlphaMin, DefaultAlphaMax);
      c.0 == "#6495ED" && 0.2 <= c.1 <= 1.0
  {
  }
}
