/**
 * The fractal compositor: for every pixel of a width x height grid it sums
 * eight octaves of single-octave noise, the frequency doubling and the
 * amplitude shrinking by the factor G at each octave, remaps the sum from
 * [-1, 1] towards [0, 1], rounds it to an intensity and picks a colour by
 * two fixed thresholds. Pixels are appended row by row.
 */
module Fractal {
  import opened PermutationTable
  import opened Noise

  /** Number of octaves summed per pixel. */
  const Octaves: nat := 8

  /** The grid the program renders. */
  const ScreenWidth: nat := 1000
  const ScreenHeight: nat := 1000

  /** A single-octave noise function of the plane. The compositor is
      written against this signature and instantiated with Noise2D over a
      permutation table, so that its proofs use only the two facts about
      the kernel they need. */
  type Sampler = (real, real) -> real

  /** Noise2D over table `t`, as a sampler. */
  function NoiseKernel(t: Table): Sampler
  {
    (a, b) => Noise2D(t, a, b)
  }

  /** The two facts the compositor uses about the kernel: its values lie
      in [-2, 2] and it vanishes at the origin. */
  lemma NoiseKernelFacts(t: Table)
    ensures forall a, b :: -2.0 <= NoiseKernel(t)(a, b) <= 2.0
    ensures NoiseKernel(t)(0.0, 0.0) == 0.0
  {
    NoiseZeroAtLattice(t, 0, 0);
  }

  /** A colour triple; the program keeps the channels in floats, but every
      value it stores is an integer. */
  datatype Rgb = Rgb(r: int, g: int, b: int)

  function Pow(b: real, k: nat): real
  {
    if k == 0 then 1.0 else b * Pow(b, k - 1)
  }

  /** The first `k` octaves at (x, y): the sum over i < k of
      g^i * Noise2D(x * fx * 2^i, y * fx * 2^i). */
  function FractalSum(noise: Sampler, x: real, y: real, fx: real, g: real, k: nat): (r: real)
    ensures k == 0 ==> r == 0.0
    ensures k == 1 ==> r == noise(x * fx, y * fx)
  {
    if k == 0 then 0.0
    else
      OctaveValue(noise, x, y, fx, noise(x * fx, y * fx));
      assert Freq(fx, 0) == fx && Pow(g, 0) == 1.0;
      FractalSum(noise, x, y, fx, g, k - 1) + Pow(g, k - 1) * Octave(noise, x, y, Freq(fx, k - 1))
  }

  /** One octave: the kernel sampled at (x, y) scaled by frequency f. */
  function Octave(noise: Sampler, x: real, y: real, f: real): real
  {
    noise(x * f, y * f)
  }

  /** The frequency of octave k: fx doubled k times. */
  function Freq(fx: real, k: nat): real
  {
    fx * Pow(2.0, k)
  }

  lemma FreqStep(fx: real, k: nat)
    ensures Freq(fx, k + 1) == 2.0 * Freq(fx, k)
  {
  }

  /** The sum of g^i over i < k. */
  function GeometricSum(g: real, k: nat): real
  {
    if k == 0 then 0.0 else GeometricSum(g, k - 1) + Pow(g, k - 1)
  }

  /** The closed form of the geometric sum. */
  lemma {:induction false} GeometricSumClosedForm(g: real, k: nat)
    ensures (1.0 - g) * GeometricSum(g, k) == 1.0 - Pow(g, k)
  {
    if k > 0 {
      GeometricSumClosedForm(g, k - 1);
      assert (1.0 - g) * Pow(g, k - 1) == Pow(g, k - 1) - Pow(g, k);
    }
  }

  /** For 0 <= g < 1 the amplitudes never sum past 1 / (1 - g). */
  lemma GeometricSumBelow(g: real, k: nat)
    requires 0.0 <= g < 1.0
    ensures (1.0 - g) * GeometricSum(g, k) <= 1.0
  {
    GeometricSumClosedForm(g, k);
    PowNonnegative(g, k);
  }

  lemma {:induction false} PowNonnegative(b: real, k: nat)
    requires b >= 0.0
    ensures Pow(b, k) >= 0.0
  {
    if k > 0 {
      PowNonnegative(b, k - 1);
      Interpolation.MulNonnegative(b, Pow(b, k - 1));
    }
  }

  /** Each octave contributes at most twice its amplitude, so with a
      nonnegative amplitude factor the sum of k octaves is at most twice
      the geometric sum of the amplitudes, that is 2 (1 - g^k) / (1 - g). */
  lemma {:induction false} FractalSumBound(noise: Sampler, x: real, y: real, fx: real, g: real, k: nat)
    requires g >= 0.0
    requires forall a, b :: -2.0 <= noise(a, b) <= 2.0
    ensures -2.0 * GeometricSum(g, k) <= FractalSum(noise, x, y, fx, g, k) <= 2.0 * GeometricSum(g, k)
  {
    if k > 0 {
      var j := k - 1;
      var a, f := Pow(g, j), Freq(fx, j);
      var s := noise(x * f, y * f);
      FractalSumBound(noise, x, y, fx, g, j);
      PowNonnegative(g, j);
      FractalSumStep(noise, x, y, fx, g, j, a, f, s);
      StepBound(FractalSum(noise, x, y, fx, g, j), GeometricSum(g, j), a, s);
    }
  }

  /** Adding a term a * s with a >= 0 and |s| <= 2 to a sum within twice
      `geo` of zero keeps it within twice `geo + a`. */
  lemma StepBound(sum: real, geo: real, a: real, s: real)
    requires -2.0 * geo <= sum <= 2.0 * geo
    requires 0.0 <= a && -2.0 <= s <= 2.0
    ensures -2.0 * (geo + a) <= sum + a * s <= 2.0 * (geo + a)
  {
    Interpolation.MulNonnegative(a, 2.0 - s);
    Interpolation.MulNonnegative(a, 2.0 + s);
  }

  /** Adding one octave to the running sum: with amplitude a = g^k and
      frequency f = fx 2^k the next partial sum is the current one plus
      a times the kernel at (x f, y f). */
  lemma FractalSumStep(noise: Sampler, x: real, y: real, fx: real, g: real, k: nat, a: real, f: real, s: real)
    requires a == Pow(g, k) && f == Freq(fx, k) && s == noise(x * f, y * f)
    ensures FractalSum(noise, x, y, fx, g, k + 1) == FractalSum(noise, x, y, fx, g, k) + a * s
  {
    OctaveValue(noise, x, y, f, s);
  }

  /** One octave's contribution before weighting is the kernel at the
      scaled point. */
  lemma OctaveValue(noise: Sampler, x: real, y: real, f: real, s: real)
    requires s == noise(x * f, y * f)
    ensures Octave(noise, x, y, f) == s
  {
  }

  /** With a kernel bounded like Noise2D (NoiseKernelFacts) and
      0 <= g < 1, the sum of any number of octaves stays within
      2 / (1 - g) of zero (about 6.83 for g = 2^(-1/2)). */
  lemma {:induction false} FractalSumWithin(noise: Sampler, x: real, y: real, fx: real, g: real, k: nat)
    requires 0.0 <= g < 1.0
    requires forall a, b :: -2.0 <= noise(a, b) <= 2.0
    ensures -2.0 <= (1.0 - g) * FractalSum(noise, x, y, fx, g, k) <= 2.0
  {
    var sum := FractalSum(noise, x, y, fx, g, k);
    var geo := GeometricSum(g, k);
    FractalSumBound(noise, x, y, fx, g, k);
    GeometricSumBelow(g, k);
    ScaledWithin(1.0 - g, sum, geo);
  }

  lemma ScaledWithin(c: real, sum: real, geo: real)
    requires 0.0 <= c && c * geo <= 1.0 && -2.0 * geo <= sum <= 2.0 * geo
    ensures -2.0 <= c * sum <= 2.0
  {
    Interpolation.MulNonnegative(c, 2.0 * geo - sum);
    Interpolation.MulNonnegative(c, 2.0 * geo + sum);
    assert c * (2.0 * geo - sum) == 2.0 * (c * geo) - c * sum;
    assert c * (2.0 * geo + sum) == 2.0 * (c * geo) + c * sum;
  }

  /** Every octave samples the origin at the origin, so with a kernel that
      vanishes there the sum is 0. */
  lemma {:induction false} FractalSumAtOrigin(noise: Sampler, fx: real, g: real, k: nat)
    requires noise(0.0, 0.0) == 0.0
    ensures FractalSum(noise, 0.0, 0.0, fx, g, k) == 0.0
  {
    if k > 0 {
      FractalSumAtOrigin(noise, fx, g, k - 1);
    }
  }

  /** `std::round`: to the nearest integer, halfway cases away from zero. */
  function Round(r: real): (k: int)
    ensures r >= 0.0 ==> k as real - 0.5 <= r < k as real + 0.5
    ensures r < 0.0 ==> k as real - 0.5 < r <= k as real + 0.5
  {
    if r >= 0.0 then (r + 0.5).Floor else -((0.5 - r).Floor)
  }

  /** The remap `(n + 1) * 0.5`, which takes [-1, 1] onto [0, 1]. */
  function Remap(n: real): (m: real)
    ensures -1.0 <= n <= 1.0 <==> 0.0 <= m <= 1.0
  {
    (n + 1.0) * 0.5
  }

  /** The colour of a remapped value `m`, with intensity round(255 m): blue
      of twice the intensity below 1/2, green with half as much blue below
      0.9, grey from 0.9 on. Nothing is clamped. */
  function ColorOf(m: real): (c: Rgb)
    ensures m < 0.9 ==> c.r == 0
    ensures m < 0.5 ==> c.g == 0
    ensures 0.9 <= m ==> c.r == c.g == c.b
  {
    var color := Round(255.0 * m);
    if m < 0.5 then Rgb(0, 0, color * 2)
    else if m < 0.9 then Rgb(0, color, Round(color as real * 0.5))
    else Rgb(color, color, color)
  }

  predicate InByteRange(c: Rgb)
  {
    0 <= c.r <= 255 && 0 <= c.g <= 255 && 0 <= c.b <= 255
  }

  /** Inside [0, 1] each band yields channels in [0, 255]: the blue band a
      single even channel up to 254, the green band green in [128, 229]
      with blue in [64, 115], the grey band three equal channels in
      [230, 255]. */
  lemma ColorBands(m: real)
    requires 0.0 <= m <= 1.0
    ensures InByteRange(ColorOf(m))
    ensures m < 0.5 ==> ColorOf(m).r == 0 && ColorOf(m).g == 0 && ColorOf(m).b % 2 == 0 && ColorOf(m).b <= 254
    ensures 0.5 <= m < 0.9 ==> ColorOf(m).r == 0 && 128 <= ColorOf(m).g <= 229 && 64 <= ColorOf(m).b <= 115
    ensures 0.9 <= m ==> ColorOf(m).r == ColorOf(m).g == ColorOf(m).b && 230 <= ColorOf(m).r
  {
    var color := Round(255.0 * m);
    if 0.5 <= m < 0.9 {
      assert 128 <= color <= 229;
      var half := Round(color as real * 0.5);
      assert 64 <= half <= 115;
    }
  }

  /** The thresholds are strict: exactly 1/2 is already green, exactly 0.9
      already grey. */
  lemma ThresholdBoundaries()
    ensures ColorOf(0.5) == Rgb(0, 128, 64)
    ensures ColorOf(0.9) == Rgb(230, 230, 230)
  {
    assert Round(127.5) == 128;
    assert Round(64.0) == 64;
    assert Round(229.5) == 230;
  }

  /** Without a clamp a remapped value outside [0, 1] gives channels
      outside [0, 255]. */
  lemma NoClamp()
    ensures ColorOf(1.1) == Rgb(281, 281, 281)
    ensures ColorOf(-0.1) == Rgb(0, 0, -52)
  {
    assert Round(280.5) == 281;
    assert Round(-25.5) == -26;
  }

  /** The colour of pixel (x, y) for base frequency fx and amplitude factor
      g. */
  function PixelColor(noise: Sampler, fx: real, g: real, x: int, y: int): Rgb
  {
    ColorOf(Remap(FractalSum(noise, x as real, y as real, fx, g, Octaves)))
  }

  /** Whatever the table, frequency and amplitude factor, the pixel at the
      origin is the same green. */
  lemma OriginPixel(t: Table, fx: real, g: real)
    ensures PixelColor(NoiseKernel(t), fx, g, 0, 0) == Rgb(0, 128, 64)
  {
    NoiseKernelFacts(t);
    FractalSumAtOrigin(NoiseKernel(t), fx, g, Octaves);
    ThresholdBoundaries();
  }

  /** The colouring of the whole plane for one kernel, base frequency and
      amplitude factor. */
  function Painting(noise: Sampler, fx: real, g: real): (int, int) -> Rgb
  {
    (x, y) => PixelColor(noise, fx, g, x, y)
  }

  /** The first `w` pixels of row `y`, left to right. */
  function Row(pixel: (int, int) -> Rgb, y: int, w: nat): seq<Rgb>
  {
    seq(w, x => pixel(x, y))
  }

  /** The first `h` rows of a grid `w` pixels wide, top row first. */
  function Image(pixel: (int, int) -> Rgb, w: nat, h: nat): seq<Rgb>
  {
    if h == 0 then [] else Image(pixel, w, h - 1) + Row(pixel, h - 1, w)
  }

  /** The image is stored row-major: it has w * h entries and entry
      y * w + x is the colour of pixel (x, y). */
  lemma {:induction false} ImageRowMajor(pixel: (int, int) -> Rgb, w: nat, h: nat)
    ensures |Image(pixel, w, h)| == h * w
    ensures forall y, x :: 0 <= y < h && 0 <= x < w ==> Image(pixel, w, h)[y * w + x] == pixel(x, y)
  {
    ImageLength(pixel, w, h);
    forall y, x | 0 <= y < h && 0 <= x < w
      ensures y * w + x < |Image(pixel, w, h)| && Image(pixel, w, h)[y * w + x] == pixel(x, y)
    {
      ImageEntry(pixel, w, h, y, x);
    }
  }

  /** Each of the h rows contributes w entries. */
  lemma {:induction false} ImageLength(pixel: (int, int) -> Rgb, w: nat, h: nat)
    ensures |Image(pixel, w, h)| == h * w
  {
    if h > 0 {
      ImageLength(pixel, w, h - 1);
      ShiftRow(h - 1, w);
    }
  }

  /** Entry y * w + x is pixel (x, y): it sits in the last row appended
      when y == h - 1, and is kept from the first h - 1 rows otherwise. */
  lemma {:induction false} ImageEntry(pixel: (int, int) -> Rgb, w: nat, h: nat, y: int, x: int)
    requires 0 <= y < h && 0 <= x < w
    ensures y * w + x < |Image(pixel, w, h)|
    ensures Image(pixel, w, h)[y * w + x] == pixel(x, y)
  {
    ImageLength(pixel, w, h - 1);
    RowIndex(y, x, w, h);
    if y < h - 1 {
      ImageEntry(pixel, w, h - 1, y, x);
    }
  }

  /** The index arithmetic of one row-major step: the last row starts
      right after the first h - 1 rows, and an entry of an earlier row lies
      before that. */
  lemma RowIndex(y: int, x: int, w: nat, h: nat)
    requires h > 0 && 0 <= y < h && 0 <= x <= w
    ensures h * w == (h - 1) * w + w
    ensures y < h - 1 && x < w ==> y * w + x < (h - 1) * w
    ensures y == h - 1 ==> y * w + x == (h - 1) * w + x
  {
    ShiftRow(h - 1, w);
    if y < h - 1 && x < w {
      ShiftRow(y, w);
      MulMonotone(y + 1, h - 1, w);
    }
    if y == h - 1 {
      MulEqual(y, h - 1, w);
    }
  }

  lemma ShiftRow(y: int, w: nat)
    ensures (y + 1) * w == y * w + w
  {
  }

  lemma MulMonotone(a: int, b: int, w: nat)
    requires a <= b
    ensures a * w <= b * w
  {
  }

  lemma MulEqual(a: int, b: int, w: int)
    requires a == b
    ensures a * w == b * w
  {
  }

  /** The octave loop of `perlinNoise` for one pixel: starting from
      frequency fx and amplitude 1, it adds amplitude times the kernel at
      the scaled point, then doubles the frequency and multiplies the
      amplitude by g, Octaves times. */
  method FractalNoise(noise: Sampler, px: real, py: real, fx: real, g: real) returns (n: real)
    ensures n == FractalSum(noise, px, py, fx, g, Octaves)
  {
    n := 0.0;
    var a := 1.0;
    var f := fx;
    var oct := 0;
    while oct < Octaves
      invariant 0 <= oct <= Octaves
      invariant f == Freq(fx, oct)
      invariant a == Pow(g, oct)
      invariant n == FractalSum(noise, px, py, fx, g, oct)
    {
      var s := noise(px * f, py * f);
      FractalSumStep(noise, px, py, fx, g, oct, a, f, s);
      n := n + a * s;
      FreqStep(fx, oct);
      f := f * 2.0;
      a := a * g;
      oct := oct + 1;
    }
  }

  /** The body of the pixel loop of `perlinNoise`: the octave sum, its
      remap, the intensity and the colour chosen by the two thresholds. */
  method ShadePixel(noise: Sampler, fx: real, g: real, x: int, y: int) returns (c: Rgb)
    ensures c == PixelColor(noise, fx, g, x, y)
  {
    var n := FractalNoise(noise, x as real, y as real, fx, g);
    n := n + 1.0;
    n := n * 0.5;
    var color := Round(255.0 * n);
    if n < 0.5 {
      c := Rgb(0, 0, color * 2);
    } else if n < 0.9 {
      c := Rgb(0, color, Round(color as real * 0.5));
    } else {
      c := Rgb(color, color, color);
    }
  }

  /** The program's `perlinNoise`, for a grid of `width` x `height`
      pixels: rows outer, columns inner, each pixel's octaves summed with
      the running frequency `f` and amplitude `a`. */
  method PerlinNoise(noise: Sampler, fx: real, g: real, width: nat, height: nat) returns (rgb: seq<Rgb>)
    ensures rgb == Image(Painting(noise, fx, g), width, height)
  {
    rgb := [];
    var y := 0;
    while y < height
      invariant 0 <= y <= height
      invariant rgb == Image(Painting(noise, fx, g), width, y)
    {
      var x := 0;
      while x < width
        invariant 0 <= x <= width
        invariant rgb == Image(Painting(noise, fx, g), width, y) + Row(Painting(noise, fx, g), y, x)
      {
        var c := ShadePixel(noise, fx, g, x, y);
        rgb := rgb + [c];
        assert Row(Painting(noise, fx, g), y, x + 1) == Row(Painting(noise, fx, g), y, x) + [PixelColor(noise, fx, g, x, y)];
        x := x + 1;
      }
      y := y + 1;
    }
  }

  /** The call the program makes: the 1000 x 1000 grid. */
  method PerlinNoiseScreen(fx: real, g: real) returns (rgb: seq<Rgb>)
    ensures |rgb| == 1000000
    ensures forall y, x :: 0 <= y < ScreenHeight && 0 <= x < ScreenWidth ==> rgb[y * 1000 + x] == Painting(NoiseKernel(P), fx, g)(x, y)
  {
    TableShape();
    rgb := PerlinNoise(NoiseKernel(P), fx, g, ScreenWidth, ScreenHeight);
    ImageRowMajor(Painting(NoiseKernel(P), fx, g), ScreenWidth, ScreenHeight);
  }
}
