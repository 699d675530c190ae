/** Colour-space conversions used by the LED driver
    (components/led_driver/color_format.cpp, types from
    components/led_driver/include/color_format.h).

    Floating-point arithmetic is modelled over `real`. The transcendental
    functions `pow` and `log` of the C maths library are parameters of the
    functions that call them, so every property proved here holds whatever
    values they return. */
module ColorFormat {
  import opened Helpers

  /** `uint16_t` */
  type u16 = x: int | 0 <= x < 0x1_0000
  /** `uint32_t` */
  type u32 = x: int | 0 <= x < 0x1_0000_0000

  /** `RGB_color_t`: three duty fractions. */
  datatype RgbColor = RgbColor(red: real, green: real, blue: real)

  /** `RGB_CCT_Duty_t`: an `RGB_color_t` extended with white and warm white. */
  datatype RgbCctDuty = RgbCctDuty(red: real, green: real, blue: real, white: real, warmwhite: real)

  /** `XY_color_t`: two `long` coordinates; -1 stands for "absent". */
  datatype XyColor = XyColor(x: int, y: int)

  /** CIE XYZ tristimulus values. */
  datatype Xyz = Xyz(x: real, y: real, z: real)

  const Black := RgbColor(0.0, 0.0, 0.0)

  predicate InUnit(c: real) { 0.0 <= c <= 1.0 }

  predicate RgbInUnit(c: RgbColor) { InUnit(c.red) && InUnit(c.green) && InUnit(c.blue) }

  predicate NonNegative(c: RgbColor) { c.red >= 0.0 && c.green >= 0.0 && c.blue >= 0.0 }

  /** `std::max({r, g, b})` */
  function Max3(c: RgbColor): (m: real)
    ensures m >= c.red && m >= c.green && m >= c.blue
    ensures m == c.red || m == c.green || m == c.blue
  {
    Max(Max(c.red, c.green), c.blue)
  }

  /** The divisor the code uses to normalise a coordinate (note: the Matter
      maximum, `MATTER_COLOR_MAX`, is 65279; the code divides by 65535). */
  const CoordinateScale: real := 65535.0

  /** Step 1 of `xy_to_duty`: a 16-bit coordinate as a fraction. */
  function Normalize(c: u16): (r: real)
    ensures InUnit(r)
    ensures c == 0 <==> r == 0.0
  {
    c as real / CoordinateScale
  }

  /** The chromaticity test of `xy_to_duty`: the guard rejects `y <= 0` and
      `x + y > 1`. */
  predicate ValidChromaticity(x: real, y: real)
  {
    !(y <= 0.0 || x + y > 1.0)
  }

  /** Step 3: xyY to XYZ, with the luminance `lum` standing for Y. */
  function XyyToXyz(x: real, y: real, lum: real): (r: Xyz)
    requires y > 0.0
    ensures r.y == lum
    ensures lum == 0.0 ==> r == Xyz(0.0, 0.0, 0.0)
    ensures x >= 0.0 && x + y <= 1.0 && lum >= 0.0 ==> r.x >= 0.0 && r.z >= 0.0
  {
    ScaledQuotient(x, lum, y);
    ScaledQuotient(1.0 - x - y, lum, y);
    Xyz((x * lum) / y, lum, ((1.0 - x - y) * lum) / y)
  }

  /** `(a * b) / y` is 0 when `b` is, and non-negative when `a` and `b` are. */
  lemma ScaledQuotient(a: real, b: real, y: real)
    requires y > 0.0
    ensures b == 0.0 ==> (a * b) / y == 0.0
    ensures a >= 0.0 && b >= 0.0 ==> (a * b) / y >= 0.0
  {
    if a >= 0.0 && b >= 0.0 {
      assert a * b >= 0.0;
    }
  }

  /** Step 4: XYZ to linear sRGB with the D65 matrix. */
  function XyzToLinear(c: Xyz): (r: RgbColor)
    ensures c == Xyz(0.0, 0.0, 0.0) ==> r == Black
  {
    RgbColor(
      c.x * 3.2404542 + c.y * -1.5371385 + c.z * -0.4985314,
      c.x * -0.9692660 + c.y * 1.8760108 + c.z * 0.0415560,
      c.x * 0.0556434 + c.y * -0.2040259 + c.z * 1.0572252)
  }

  /** Step 5a: `std::max(0.0f, c)` on each component. A negative component
      becomes 0, a non-negative one is kept, and no white is added. */
  function ClipNegative(c: RgbColor): (r: RgbColor)
    ensures NonNegative(r)
    ensures NonNegative(c) ==> r == c
    ensures (c.red < 0.0 ==> r.red == 0.0) && (c.green < 0.0 ==> r.green == 0.0) && (c.blue < 0.0 ==> r.blue == 0.0)
  {
    RgbColor(Max(0.0, c.red), Max(0.0, c.green), Max(0.0, c.blue))
  }

  /** Step 5b: when the largest component exceeds 1, all three are divided
      by it. After the clip this leaves every component in [0,1]; an
      in-range colour is untouched; a too-bright colour keeps its component
      ratios and its largest component becomes exactly 1. */
  function ScaleIntoGamut(c: RgbColor): (r: RgbColor)
    ensures NonNegative(c) ==> RgbInUnit(r)
    ensures Max3(c) <= 1.0 ==> r == c
    ensures NonNegative(c) && Max3(c) > 1.0 ==>
      r.red * Max3(c) == c.red && r.green * Max3(c) == c.green && r.blue * Max3(c) == c.blue
      && Max3(r) == 1.0
  {
    var m := Max3(c);
    DivideAll(c, m);
    if m > 1.0 then RgbColor(c.red / m, c.green / m, c.blue / m) else c
  }

  /** Dividing each of three non-negative components by the largest, when
      that is positive, gives fractions that multiply back to the
      components, the largest of them exactly 1. */
  lemma DivideAll(c: RgbColor, m: real)
    requires m == Max3(c)
    ensures NonNegative(c) && m > 0.0 ==>
      var r := RgbColor(c.red / m, c.green / m, c.blue / m);
      RgbInUnit(r)
      && r.red * m == c.red && r.green * m == c.green && r.blue * m == c.blue
      && Max3(r) == 1.0
  {
    if NonNegative(c) && m > 0.0 {
      DivideByLarger(c.red, m);
      DivideByLarger(c.green, m);
      DivideByLarger(c.blue, m);
    }
  }

  /** `a / m` for `0 <= a <= m`, `m > 0`, is a fraction that gives back `a`
      times `m`, and it is 1 exactly when `a == m`. */
  lemma DivideByLarger(a: real, m: real)
    requires 0.0 <= a <= m && m > 0.0
    ensures InUnit(a / m) && (a / m) * m == a
    ensures a == m ==> a / m == 1.0
  {
  }

  /** Step 6, the `gamma_correct` lambda: the sRGB transfer function of
      IEC 61966-2-1, clause 5.2, with `pow` supplied by the caller. */
  function GammaCorrect(c: real, pow: (real, real) -> real): (r: real)
    ensures 0.0 <= c <= 0.0031308 ==> 0.0 <= r < 0.05
    ensures c == 0.0 ==> r == 0.0
  {
    if c > 0.0031308 then 1.055 * pow(c, 1.0 / 2.4) - 0.055 else 12.92 * c
  }

  /** The linear colour `xy_to_duty` computes for a valid chromaticity:
      steps 3 to 5. */
  function LinearFromXy(x: real, y: real, brightness: real): (r: RgbColor)
    requires y > 0.0
    ensures RgbInUnit(r)
  {
    var lin := ClipNegative(XyzToLinear(XyyToXyz(x, y, brightness)));
    ScaleIntoGamut(lin)
  }

  /** Steps 6 and 7: gamma-encode each linear component and clamp it to
      [0,1] (`std::clamp` agrees with the helper `Clamp` when the bounds are
      ordered). */
  function EncodeDuty(lin: RgbColor, pow: (real, real) -> real): (r: RgbColor)
    ensures RgbInUnit(r)
    ensures lin == Black ==> r == Black
  {
    RgbColor(
      Clamp(GammaCorrect(lin.red, pow), 0.0, 1.0),
      Clamp(GammaCorrect(lin.green, pow), 0.0, 1.0),
      Clamp(GammaCorrect(lin.blue, pow), 0.0, 1.0))
  }

  /** `xy_to_duty(cx, cy, brightness, RGB)`: the triple it stores through
      `RGB`. An invalid chromaticity gives black; otherwise the gamma-encoded
      colour, clamped to [0,1]. */
  function XyToDuty(cx: u16, cy: u16, brightness: real, pow: (real, real) -> real): (r: RgbColor)
    ensures RgbInUnit(r)
    ensures !ValidChromaticity(Normalize(cx), Normalize(cy)) ==> r == Black
  {
    var x := Normalize(cx);
    var y := Normalize(cy);
    if !ValidChromaticity(x, y) then Black else EncodeDuty(LinearFromXy(x, y, brightness), pow)
  }

  /** With brightness 0 every valid chromaticity gives X = Y = Z = 0, the
      linear branch of the transfer function gives 0, and the output is
      black; an invalid one is black anyway. */
  lemma XyToDutyZeroBrightness(cx: u16, cy: u16, pow: (real, real) -> real)
    ensures XyToDuty(cx, cy, 0.0, pow) == Black
  {
    var x := Normalize(cx);
    var y := Normalize(cy);
    if ValidChromaticity(x, y) {
      LinearFromXyZero(x, y);
    }
  }

  /** Zero luminance gives the zero linear colour. */
  lemma LinearFromXyZero(x: real, y: real)
    requires y > 0.0
    ensures LinearFromXy(x, y, 0.0) == Black
  {
    assert XyzToLinear(XyyToXyz(x, y, 0.0)) == Black;
    BlackStaysBlack();
  }

  /** Neither the clip nor the scale step changes black. */
  lemma BlackStaysBlack()
    ensures ScaleIntoGamut(ClipNegative(Black)) == Black
  {
    assert ClipNegative(Black) == Black;
  }

  /** `xy_to_duty` applied to an `RGB_CCT_Duty_t`: only the three colour
      members are written; white and warm white keep their values. */
  function StoreRgb(d: RgbCctDuty, c: RgbColor): (r: RgbCctDuty)
    ensures r.white == d.white && r.warmwhite == d.warmwhite
    ensures RgbColor(r.red, r.green, r.blue) == c
  {
    d.(red := c.red, green := c.green, blue := c.blue)
  }

  /** `scale_RGB_duty(scale, RGB)`: the triple it writes back through `RGB`,
      each component multiplied by `scale` and clamped to [0,1]: a product
      inside [0,1] is kept, one above 1 saturates at 1 and one below 0 is
      cut to 0, each component on its own. */
  function ScaleRgbDuty(scale: real, c: RgbColor): (r: RgbColor)
    ensures RgbInUnit(r)
    ensures InUnit(c.red * scale) ==> r.red == c.red * scale
    ensures c.red * scale > 1.0 ==> r.red == 1.0
    ensures c.red * scale < 0.0 ==> r.red == 0.0
    ensures InUnit(c.green * scale) ==> r.green == c.green * scale
    ensures c.green * scale > 1.0 ==> r.green == 1.0
    ensures c.green * scale < 0.0 ==> r.green == 0.0
    ensures InUnit(c.blue * scale) ==> r.blue == c.blue * scale
    ensures c.blue * scale > 1.0 ==> r.blue == 1.0
    ensures c.blue * scale < 0.0 ==> r.blue == 0.0
    ensures scale >= 0.0 && NonNegative(c) && scale * Max3(c) <= 1.0 ==>
      r == RgbColor(c.red * scale, c.green * scale, c.blue * scale)
  {
    ScaledFits(c.red, scale, Max3(c));
    ScaledFits(c.green, scale, Max3(c));
    ScaledFits(c.blue, scale, Max3(c));
    RgbColor(
      Clamp(c.red * scale, 0.0, 1.0),
      Clamp(c.green * scale, 0.0, 1.0),
      Clamp(c.blue * scale, 0.0, 1.0))
  }

  /** A component no larger than the largest stays in [0,1] under a scale
      that keeps the largest within 1. */
  lemma ScaledFits(a: real, scale: real, m: real)
    ensures 0.0 <= a <= m && scale >= 0.0 && scale * m <= 1.0 ==> 0.0 <= a * scale <= 1.0
  {
    if 0.0 <= a <= m && scale >= 0.0 {
      assert a * scale <= m * scale;
    }
  }

  /** Scaling by 0 turns every colour off. */
  lemma ScaleByZero(c: RgbColor)
    ensures ScaleRgbDuty(0.0, c) == Black
  {
  }

  /** Scaling by 1 leaves an in-range colour unchanged. */
  lemma ScaleByOne(c: RgbColor)
    requires RgbInUnit(c)
    ensures ScaleRgbDuty(1.0, c) == c
  {
  }

  /** `clamp<uint32_t>(kelvin, 1000, 40000) / 100`: the integer quotient the
      blackbody approximation works on. */
  function KelvinToTemp(kelvin: u32): (t: int)
    ensures 10 <= t <= 400
    ensures kelvin < 1000 ==> t == 10
    ensures kelvin > 40000 ==> t == 400
    ensures 1000 <= kelvin <= 40000 ==> t == kelvin / 100
  {
    ClampInt(kelvin, 1000, 40000) / 100
  }

  /** `colorTemperatureToRGB(kelvin, RGB)`: the empirical blackbody
      approximation, with `log` and `pow` supplied by the caller. */
  function ColorTemperatureToRgb(kelvin: u32, log: real -> real, pow: (real, real) -> real): (rgb: RgbColor)
    ensures RgbInUnit(rgb)
  {
    var temp := KelvinToTemp(kelvin) as real;
    var (r, g, b) :=
      if temp <= 66.0 then
        (255.0,
         Clamp(99.4708025861 * log(temp) - 161.1195681661, 0.0, 255.0),
         if temp <= 19.0 then 0.0
         else Clamp(138.5177312231 * log(temp - 10.0) - 305.0447927307, 0.0, 255.0))
      else
        (329.698727446 * pow(temp - 60.0, -0.1332047592),
         288.1221695283 * pow(temp - 60.0, -0.0755148492),
         255.0);
    RgbColor(Clamp(r / 255.0, 0.0, 1.0), Clamp(g / 255.0, 0.0, 1.0), Clamp(b / 255.0, 0.0, 1.0))
  }

  /** The channels each branch fixes: below 6700 K red is full; below 2000 K
      blue is off; from 6700 K on blue is full. */
  lemma ColorTemperatureFixedChannels(kelvin: u32, log: real -> real, pow: (real, real) -> real)
    ensures kelvin < 6700 ==> ColorTemperatureToRgb(kelvin, log, pow).red == 1.0
    ensures kelvin < 2000 ==> ColorTemperatureToRgb(kelvin, log, pow).blue == 0.0
    ensures kelvin >= 6700 ==> ColorTemperatureToRgb(kelvin, log, pow).blue == 1.0
  {
    var t := KelvinToTemp(kelvin);
    assert kelvin < 6700 ==> t <= 66;
    assert kelvin < 2000 ==> t <= 19;
    assert kelvin >= 6700 ==> t > 66;
  }

  /** The output depends on kelvin only through the clamped quotient by 100:
      anything below 1000 K acts as 1000 K, anything above 40000 K as
      40000 K, and kelvins in the same hundred agree. */
  lemma ColorTemperatureByQuotient(k1: u32, k2: u32, log: real -> real, pow: (real, real) -> real)
    requires (k1 < 1000 && k2 == 1000) || (k1 > 40000 && k2 == 40000) || k1 / 100 == k2 / 100
    ensures ColorTemperatureToRgb(k1, log, pow) == ColorTemperatureToRgb(k2, log, pow)
  {
    assert KelvinToTemp(k1) == KelvinToTemp(k2);
  }
}
