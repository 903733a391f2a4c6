/**
 * The `Color` value type of src/Color.cpp: three real-valued channels that
 * every mutator clamps to [0, 255], with integer views obtained by C++'s
 * truncating `int(...)` conversion.
 *
 * `Rgb` is the colour as a value (how a `OneSymbol` holds its two colours,
 * since the C++ class has value semantics); its member functions specify the
 * whole-colour operations. `Color` is the mutable object whose methods
 * overwrite its fields in place, each proved against those functions.
 */
module Colors {

  /** `std::clamp(value, 0.0, 255.0)` (clampColor). */
  function Clamp(x: real): (r: real)
    ensures 0.0 <= r <= 255.0
    ensures 0.0 <= x <= 255.0 ==> r == x
    ensures x < 0.0 ==> r == 0.0
    ensures x > 255.0 ==> r == 255.0
  {
    if x < 0.0 then 0.0 else if x > 255.0 then 255.0 else x
  }

  /** `std::clamp(factor, 0.0, 1.0)`, the factor clamp of blendWith. */
  function ClampUnit(f: real): (r: real)
    ensures 0.0 <= r <= 1.0
    ensures 0.0 <= f <= 1.0 ==> r == f
    ensures f <= 0.0 ==> r == 0.0
    ensures f >= 1.0 ==> r == 1.0
  {
    if f < 0.0 then 0.0 else if f > 1.0 then 1.0 else f
  }

  /** C++ conversion of a double to int: truncation toward zero. */
  function Trunc(x: real): (n: int)
    ensures 0.0 <= x ==> 0 <= n && n as real <= x < n as real + 1.0
    ensures x < 0.0 ==> n <= 0 && n as real - 1.0 < x <= n as real
  {
    if x >= 0.0 then x.Floor else -((-x).Floor)
  }

  predicate InRange(x: real) {
    0.0 <= x <= 255.0
  }

  /** A whole, non-negative channel value (what the stream prints without a fraction). */
  predicate IsWhole(x: real) {
    0.0 <= x && x == x.Floor as real
  }

  datatype Rgb = Rgb(r: real, g: real, b: real) {

    /** Every raw channel lies in [0, 255]. */
    predicate Valid() {
      InRange(r) && InRange(g) && InRange(b)
    }

    /** getRed(): the truncated integer view of the red channel. */
    function Red(): (n: int)
      ensures InRange(r) ==> 0 <= n <= 255 && n as real <= r < n as real + 1.0
    {
      Trunc(r)
    }

    /** getGreen(). */
    function Green(): (n: int)
      ensures InRange(g) ==> 0 <= n <= 255 && n as real <= g < n as real + 1.0
    {
      Trunc(g)
    }

    /** getBlue(). */
    function Blue(): (n: int)
      ensures InRange(b) ==> 0 <= n <= 255 && n as real <= b < n as real + 1.0
    {
      Trunc(b)
    }

    /** `operator ==`: the three integer views agree. */
    predicate Equal(other: Rgb) {
      Red() == other.Red() && Green() == other.Green() && Blue() == other.Blue()
    }

    /** The value `setColor(const Color)` writes: the source's integer views. */
    function Truncated(): (c: Rgb)
      ensures c.Equal(this)
      ensures c.Red() as real == c.r && c.Green() as real == c.g && c.Blue() as real == c.b
      ensures Valid() ==> c.Valid() && IsWhole(c.r) && IsWhole(c.g) && IsWhole(c.b)
    {
      Rgb(Red() as real, Green() as real, Blue() as real)
    }

    /** The value `setColor(Red, Green, Blue)` writes for these three channels. */
    function Clamped(): (c: Rgb)
      ensures c.Valid()
      ensures Valid() ==> c == this
    {
      Rgb(Clamp(r), Clamp(g), Clamp(b))
    }

    /** invertColor(): each channel becomes clamp(255 - channel). */
    function Inverted(): (c: Rgb)
      ensures c.Valid()
      ensures Valid() ==> c.r == 255.0 - r && c.g == 255.0 - g && c.b == 255.0 - b
    {
      Rgb(Clamp(255.0 - r), Clamp(255.0 - g), Clamp(255.0 - b))
    }

    /** scaleColor(coefficient): every channel multiplied by k, then clamped. */
    function Scaled(k: real): (c: Rgb)
      ensures c.Valid()
      ensures Valid() && 0.0 <= k <= 1.0 ==> c == Rgb(r * k, g * k, b * k)
    {
      MulAtMost(r, k);
      MulAtMost(g, k);
      MulAtMost(b, k);
      Rgb(Clamp(r * k), Clamp(g * k), Clamp(b * k))
    }

    /** scaleColor(const Color): each channel multiplied by the matching raw channel of `k`. */
    function ScaledBy(k: Rgb): (c: Rgb)
      ensures c.Valid()
      ensures Valid() && 0.0 <= k.r <= 1.0 && 0.0 <= k.g <= 1.0 && 0.0 <= k.b <= 1.0 ==>
                c == Rgb(r * k.r, g * k.g, b * k.b)
    {
      MulAtMost(r, k.r);
      MulAtMost(g, k.g);
      MulAtMost(b, k.b);
      Rgb(Clamp(r * k.r), Clamp(g * k.g), Clamp(b * k.b))
    }

    /** adjustColor(increment): the same increment added to every channel, then clamped. */
    function Adjusted(inc: real): (c: Rgb)
      ensures c.Valid()
      ensures Valid() && 0.0 <= inc ==> r <= c.r && g <= c.g && b <= c.b
      ensures Valid() && inc <= 0.0 ==> c.r <= r && c.g <= g && c.b <= b
      ensures c == AdjustedBy(Rgb(inc, inc, inc))
    {
      Rgb(Clamp(r + inc), Clamp(g + inc), Clamp(b + inc))
    }

    /** adjustColor(const Color): the raw channels of `inc` added per channel, then clamped. */
    function AdjustedBy(inc: Rgb): (c: Rgb)
      ensures c.Valid()
      ensures inc.r == 0.0 && inc.g == 0.0 && inc.b == 0.0 ==> c == Clamped()
      ensures Valid() && 0.0 <= inc.r && 0.0 <= inc.g && 0.0 <= inc.b ==> r <= c.r && g <= c.g && b <= c.b
    {
      Rgb(Clamp(r + inc.r), Clamp(g + inc.g), Clamp(b + inc.b))
    }

    /** convertToGrayscale(): all three channels become the mean of the old three (no clamp). */
    function Grayscale(): (c: Rgb)
      ensures c.r == c.g == c.b
      ensures 3.0 * c.r == r + g + b
      ensures Valid() ==> c.Valid()
    {
      var gray := (r + g + b) / 3.0;
      Rgb(gray, gray, gray)
    }

    /** blendWith(other, factor): (1 - f) * self + f * other per channel, with f clamped to [0, 1]. */
    function Blended(other: Rgb, factor: real): (c: Rgb)
      ensures c.Valid()
      ensures factor <= 0.0 ==> c == Clamped()
      ensures factor >= 1.0 ==> c == other.Clamped()
      ensures Valid() && other.Valid() ==>
                Between(c.r, r, other.r) && Between(c.g, g, other.g) && Between(c.b, b, other.b)
    {
      var f := ClampUnit(factor);
      MixProperties(r, other.r, f);
      MixProperties(g, other.g, f);
      MixProperties(b, other.b, f);
      Rgb(Clamp(Mix(r, other.r, f)), Clamp(Mix(g, other.g, f)), Clamp(Mix(b, other.b, f)))
    }
  }

  /** One channel of a linear blend: (1 - f) * a + f * b. */
  function Mix(a: real, b: real, f: real): real {
    (1.0 - f) * a + f * b
  }

  /** `x` lies between `a` and `b`, in either order. */
  predicate Between(x: real, a: real, b: real) {
    (a <= x <= b) || (b <= x <= a)
  }

  lemma MulNonneg(x: real, y: real)
    ensures 0.0 <= x && 0.0 <= y ==> 0.0 <= x * y
  {
  }

  /** Scaling a non-negative value by a coefficient in [0, 1] cannot leave [0, x]. */
  lemma MulAtMost(x: real, k: real)
    ensures 0.0 <= x && 0.0 <= k <= 1.0 ==> 0.0 <= x * k <= x
  {
    if 0.0 <= x && 0.0 <= k <= 1.0 {
      MulNonneg(x, k);
      MulNonneg(x, 1.0 - k);
      assert x * (1.0 - k) == x - x * k;
    }
  }

  /** A blend at factor 0 is the first channel, at 1 the second, and in between it lies between them. */
  lemma MixProperties(a: real, b: real, f: real)
    ensures f == 0.0 ==> Mix(a, b, f) == a
    ensures f == 1.0 ==> Mix(a, b, f) == b
    ensures 0.0 <= f <= 1.0 ==> Between(Mix(a, b, f), a, b)
  {
    if 0.0 <= f <= 1.0 {
      var lo, hi := if a <= b then a else b, if a <= b then b else a;
      MulNonneg(f, hi - a);
      MulNonneg(f, a - lo);
      MulNonneg(1.0 - f, hi - a);
      MulNonneg(1.0 - f, a - lo);
      assert Mix(a, b, f) == a + f * (b - a);
    }
  }

  /** Inverting an in-range colour twice gives back its exact raw channels. */
  lemma InvertTwice(c: Rgb)
    requires c.Valid()
    ensures c.Inverted().Inverted() == c
  {
  }

  /** `==` is an equivalence relation, and `!=` is its negation by definition. */
  lemma EqualIsEquivalence(a: Rgb, b: Rgb, c: Rgb)
    ensures a.Equal(a)
    ensures a.Equal(b) ==> b.Equal(a)
    ensures a.Equal(b) && b.Equal(c) ==> a.Equal(c)
  {
  }

  /** Blending fully toward an in-range colour makes the colours compare equal. */
  lemma BlendFullyEqualsOther(c: Rgb, other: Rgb, factor: real)
    requires other.Valid() && factor >= 1.0
    ensures c.Blended(other, factor).Equal(other)
    ensures c.Blended(other, factor) == other
  {
  }

  /** Copying integer views is idempotent: a copied colour copies to itself. */
  lemma TruncatedIdempotent(c: Rgb)
    ensures c.Truncated().Truncated() == c.Truncated()
  {
  }

  /** The mutable colour object of src/Color.cpp. */
  class Color {
    var red: real
    var green: real
    var blue: real

    /** The colour's current value. */
    function Value(): Rgb
      reads this
    {
      Rgb(red, green, blue)
    }

    /** Color(r, g, b): the channels are stored as given. */
    constructor (r: real, g: real, b: real)
      ensures Value() == Rgb(r, g, b)
    {
      red, green, blue := r, g, b;
    }

    /** getRed(). */
    function GetRed(): (n: int)
      reads this
      ensures InRange(red) ==> 0 <= n <= 255 && n as real <= red < n as real + 1.0
      ensures n == Value().Red()
    {
      Trunc(red)
    }

    /** getGreen(). */
    function GetGreen(): (n: int)
      reads this
      ensures InRange(green) ==> 0 <= n <= 255 && n as real <= green < n as real + 1.0
      ensures n == Value().Green()
    {
      Trunc(green)
    }

    /** getBlue(). */
    function GetBlue(): (n: int)
      reads this
      ensures InRange(blue) ==> 0 <= n <= 255 && n as real <= blue < n as real + 1.0
      ensures n == Value().Blue()
    {
      Trunc(blue)
    }

    /** `operator ==`. */
    predicate Equals(other: Color)
      reads this, other
      ensures Equals(other) <==>
                GetRed() == other.GetRed() && GetGreen() == other.GetGreen() && GetBlue() == other.GetBlue()
    {
      Value().Equal(other.Value())
    }

    /** `operator !=`. */
    predicate NotEquals(other: Color)
      reads this, other
      ensures NotEquals(other) <==> !Equals(other)
      ensures NotEquals(other) ==>
                GetRed() != other.GetRed() || GetGreen() != other.GetGreen() || GetBlue() != other.GetBlue()
    {
      !Equals(other)
    }

    /** setColor(const Color): copies the other colour's integer views. */
    method SetColorFrom(newColor: Color)
      modifies this
      ensures Value() == old(newColor.Value()).Truncated()
      ensures Equals(newColor)
    {
      var r, g, b := newColor.GetRed(), newColor.GetGreen(), newColor.GetBlue();
      red := r as real;
      green := g as real;
      blue := b as real;
    }

    /** setColor(Red, Green, Blue): each channel clamped. */
    method SetColor(r: real, g: real, b: real)
      modifies this
      ensures Value() == Rgb(r, g, b).Clamped()
      ensures Value().Valid()
    {
      red := Clamp(r);
      blue := Clamp(b);
      green := Clamp(g);
    }

    method SetRed(value: real)
      modifies this
      ensures red == Clamp(value) && green == old(green) && blue == old(blue)
    {
      red := Clamp(value);
    }

    method SetGreen(value: real)
      modifies this
      ensures green == Clamp(value) && red == old(red) && blue == old(blue)
    {
      green := Clamp(value);
    }

    method SetBlue(value: real)
      modifies this
      ensures blue == Clamp(value) && red == old(red) && green == old(green)
    {
      blue := Clamp(value);
    }

    method InvertRed()
      modifies this
      ensures red == Clamp(255.0 - old(red)) && green == old(green) && blue == old(blue)
    {
      red := Clamp(255.0 - red);
    }

    method InvertGreen()
      modifies this
      ensures green == Clamp(255.0 - old(green)) && red == old(red) && blue == old(blue)
    {
      green := Clamp(255.0 - green);
    }

    method InvertBlue()
      modifies this
      ensures blue == Clamp(255.0 - old(blue)) && red == old(red) && green == old(green)
    {
      blue := Clamp(255.0 - blue);
    }

    /** invertColor(): the three single-channel inversions. */
    method InvertColor()
      modifies this
      ensures Value() == old(Value()).Inverted()
    {
      InvertRed();
      InvertGreen();
      InvertBlue();
    }

    method ScaleRed(coefficient: real)
      modifies this
      ensures red == Clamp(old(red) * coefficient) && green == old(green) && blue == old(blue)
    {
      red := Clamp(red * coefficient);
    }

    method ScaleGreen(coefficient: real)
      modifies this
      ensures green == Clamp(old(green) * coefficient) && red == old(red) && blue == old(blue)
    {
      green := Clamp(green * coefficient);
    }

    method ScaleBlue(coefficient: real)
      modifies this
      ensures blue == Clamp(old(blue) * coefficient) && red == old(red) && green == old(green)
    {
      blue := Clamp(blue * coefficient);
    }

    /** scaleColor(double). */
    method ScaleColor(coefficient: real)
      modifies this
      ensures Value() == old(Value()).Scaled(coefficient)
    {
      ScaleRed(coefficient);
      ScaleGreen(coefficient);
      ScaleBlue(coefficient);
    }

    /** scaleColor(const Color): the coefficients are the raw channels of a copy. */
    method ScaleColorBy(coefficient: Color)
      modifies this
      ensures Value() == old(Value()).ScaledBy(old(coefficient.Value()))
    {
      var k := coefficient.Value();
      ScaleRed(k.r);
      ScaleGreen(k.g);
      ScaleBlue(k.b);
    }

    method AdjustRed(increment: real)
      modifies this
      ensures red == Clamp(old(red) + increment) && green == old(green) && blue == old(blue)
    {
      red := Clamp(red + increment);
    }

    method AdjustGreen(increment: real)
      modifies this
      ensures green == Clamp(old(green) + increment) && red == old(red) && blue == old(blue)
    {
      green := Clamp(green + increment);
    }

    method AdjustBlue(increment: real)
      modifies this
      ensures blue == Clamp(old(blue) + increment) && red == old(red) && green == old(green)
    {
      blue := Clamp(blue + increment);
    }

    /** adjustColor(double). */
    method AdjustColor(increment: real)
      modifies this
      ensures Value() == old(Value()).Adjusted(increment)
    {
      AdjustRed(increment);
      AdjustGreen(increment);
      AdjustBlue(increment);
    }

    /** adjustColor(const Color): the increments are the raw channels of a copy. */
    method AdjustColorBy(increment: Color)
      modifies this
      ensures Value() == old(Value()).AdjustedBy(old(increment.Value()))
    {
      var k := increment.Value();
      AdjustRed(k.r);
      AdjustGreen(k.g);
      AdjustBlue(k.b);
    }

    /** convertToGrayscale(). */
    method ConvertToGrayscale()
      modifies this
      ensures Value() == old(Value()).Grayscale()
    {
      var gray := (red + green + blue) / 3.0;
      red, green, blue := gray, gray, gray;
    }

    /** blendWith(other, factor); `other` is a reference and may be this colour itself. */
    method BlendWith(other: Color, factor: real)
      modifies this
      ensures Value() == old(Value()).Blended(old(other.Value()), factor)
    {
      var f := ClampUnit(factor);
      red := Clamp(Mix(red, other.red, f));
      green := Clamp(Mix(green, other.green, f));
      blue := Clamp(Mix(blue, other.blue, f));
    }
  }
}
