# Perlin noise for fractal Brownian motion — a verified model

The program renders a 1000 × 1000 image of fractal noise. Its kernel,
`Noise2D`, samples single-octave 2D gradient noise:

- it reduces the lattice cell of the sample point modulo 255 and takes the fractional offsets;
- it hashes the four corners of the cell through a fixed 256-entry permutation table `P`, as `P[P[X + dx] + Y + dy]`;
- it turns each hash into one of four diagonal gradients (`evaluateCorners`) and takes its dot product with the offset from that corner;
- it blends the four influences bilinearly, weighting by the quintic ease curve `6t^5 - 15t^4 + 10t^3`.

The compositor `perlinNoise` sums eight octaves per pixel. At each octave the frequency doubles and the amplitude shrinks by `G = 2^(-1/2)`. It remaps the sum with `(n + 1) / 2`, rounds `255 n` to an intensity and picks a blue, green or grey colour by two thresholds. Pixels are appended row by row.

A separate demo, `simulation`, samples the ease curve at steps of 0.01 on [0, 1].

The model works over Dafny's `real`, so float rounding is not modelled. It has five modules:

- `PermutationTable` (`permutation_table.dfy`): the table `P`, and the `Table` type that the noise functions take as an argument.
- `Interpolation` (`interpolation.dfy`): `Blend` and `Lerp`.
- `Noise` (`noise.dfy`): the gradient selector, the dot product and `Noise2D`. It also holds `Noise2DAsWritten`, a second model of the sampler that records out-of-table reads.
- `Fractal` (`fractal.dfy`): the octave sum, the colour mapping and the `perlinNoise` loops as methods.
- `BlendSampling` (`blend_sampling.dfy`): the `simulation` loop as a method.

Modelling choices:

- The amplitude factor `G` is a real parameter `g`, because the program computes it with `std::exp2(-0.5)` ≈ 0.7071.
- `std::round` is rounding half away from zero.
- The grid size is given by the parameters `width` and `height`. `PerlinNoiseScreen` instantiates them at 1000.
- C++'s truncating `%` is modelled as `CRem`, separately from Dafny's Euclidean `%`.
- The compositor's functions and methods take the single-octave kernel as a function value (`Sampler`). `NoiseKernel(P)` is `Noise2D` over the program's table. This way the octave sum is proved from two facts about the kernel (`NoiseKernelFacts`) rather than by unfolding the kernel.
- Each pixel's octave loop is the method `FractalNoise`, and the rest of one pixel's work is `ShadePixel`; `PerlinNoise` calls it in its inner loop.

## Model

| member | source | states |
|---|---|---|
| PermutationTable.TableShape | perlin/src/perlin.cpp:17-29 | the table has exactly 256 entries, each in [0, 255] |
| PermutationTable.Lookup | perlin/src/perlin.cpp:114-117 | a table read with wrap-around; an index inside the table reads exactly that entry |
| PermutationTable.LookupPeriodic | perlin/src/perlin.cpp:114-117 | indices 256 apart read the same entry |
| Interpolation.Blend | perlin/src/perlin.cpp:108-112 | blend(0) = 0, blend(1) = 1, blend(1/2) = 1/2 |
| Interpolation.BlendSymmetric | perlin/src/perlin.cpp:108-112 | blend(1 - t) = 1 - blend(t) for every t |
| Interpolation.BlendRange | perlin/src/perlin.cpp:108-112 | blend maps [0, 1] into [0, 1] |
| Interpolation.BlendMonotone | perlin/src/perlin.cpp:108-112 | s <= t implies blend(s) <= blend(t); it is proved by writing the difference quotient as a sum of squares |
| Interpolation.Lerp | perlin/src/perlin.cpp:103-106 | lerp(0, a, b) = a and lerp(1, a, b) = b; for t in [0, 1] the result lies between a and b, in either order |
| Noise.CRem | perlin/src/perlin.cpp:65 | C++ `%` on int: for a >= 0 it is the Euclidean remainder; for a < 0 it is that remainder shifted by -m, or 0; it always lies in (-m, m) |
| Noise.EvaluateCorners | perlin/src/perlin.cpp:63-82 | the gradient is always diagonal: both components are 1 or -1 |
| Noise.EvaluateCornersByResidue | perlin/src/perlin.cpp:63-82 | for v >= 0, remainders 0, 1, 2 and 3 give (1,1), (-1,1), (-1,-1) and (1,-1); a negative v gives only (1,1) or (1,-1) |
| Noise.EvaluateCornersOnto | perlin/src/perlin.cpp:63-82 | every diagonal is selected by some value in [0, 4) |
| Noise.DotProduct | perlin/src/perlin.cpp:86-90 | against a diagonal gradient, \|a·b\| <= \|a.x\| + \|a.y\| |
| Noise.Cell | perlin/src/perlin.cpp:95-98 | the reduced lattice coordinate `floor(c) % 255` (truncating) lies in (-255, 255) and is congruent to floor(c) modulo 255 |
| Noise.Frac | perlin/src/perlin.cpp:100-101 | the offset `c - floor(c)` lies in [0, 1) and differs from c by an integer |
| Noise.LatticeCellBounds | perlin/src/perlin.cpp:95-98 | for c >= 0 the reduced cell lies in [0, 254], so X and X + 1 index the table |
| Noise.Hash | perlin/src/perlin.cpp:114-117 | the corner hash `P[P[X] + Y]` read with wrap-around; whenever both reads are inside the table it is exactly the program's double read |
| Noise.CellCornersShared | perlin/src/perlin.cpp:114-117 | the four corner hashes of a cell are shared with its neighbours: its right corners are the left corners of the next cell in x, its top corners the bottom corners of the next cell in y |
| Noise.Interpolate | perlin/src/perlin.cpp:119-135 | the four corner influences blended bilinearly; at the bottom-left corner (both offsets 0) the result is 0; its bound is `InterpolateBound` and its edges are `InterpolateAtEdges` |
| Noise.OuterIndexBounds | perlin/src/perlin.cpp:114-117 | for x, y >= 0 every outer index P[X+dx]+Y+dy lies in [0, 510] |
| Noise.InterpolateBound | perlin/src/perlin.cpp:119-135 | with both offsets in [0, 1] the blend of the four corner influences lies in [-2, 2] |
| Noise.Noise2D | perlin/src/perlin.cpp:92-138 | every sample lies in [-2, 2] |
| Noise.NoiseZeroAtLattice | perlin/src/perlin.cpp:95-135 | the sample at every integer lattice point is exactly 0 |
| Noise.InterpolateAtEdges | perlin/src/perlin.cpp:119-135 | on the left edge of a cell only the left corners count, and on the right edge only the right corners |
| Noise.EdgesAgreeAcross | perlin/src/perlin.cpp:114-135 | the right edge of cell (X, Y) equals the left edge of cell (X + 1, Y) |
| Noise.EdgesAgreeAlong | perlin/src/perlin.cpp:114-135 | the top edge of cell (X, Y) equals the bottom edge of cell (X, Y + 1) |
| Noise.ContinuousAcrossLatticeLine | perlin/src/perlin.cpp:95-135 | for a lattice line x = k with k >= 1 and k not a multiple of 255, the cell to its left meets the sample on the line |
| Noise.NoiseLeftOfLine | perlin/src/perlin.cpp:95-135 | for k - 1 <= x < k the sample is the piece of the cell of x = k - 1 at offset x - (k - 1); that piece at offset 1 is the left-hand side of `ContinuousAcrossLatticeLine` |
| Noise.ContinuousAcrossHorizontalLine | perlin/src/perlin.cpp:95-135 | for a horizontal lattice line y = k with k >= 1 and k not a multiple of 255, the cell below it meets the sample on the line |
| Noise.Period255 | perlin/src/perlin.cpp:95-101 | for x >= 0 the modulo-255 reduction makes every sample repeat 255 units to the right |
| Noise.SeamAtMultipleOf255 | perlin/src/perlin.cpp:95-135 | at every positive multiple k of 255 the modulo-255 wrap breaks continuity: with the program's table at y = 1/2, the piece of the cell left of x = k tends to 0 but the sample on the line is 1/2 |
| Noise.Noise2DAsWritten | perlin/src/perlin.cpp:114-117 | the sampler with unchecked reads: an out-of-table outcome names an index outside [0, 255] |
| Noise.AsWrittenAgrees | perlin/src/perlin.cpp:92-138 | wherever the program's reads stay in the table, it computes the same sample as `Noise2D` |
| Noise.AsWrittenInTableIff | perlin/src/perlin.cpp:95-117 | for x, y >= 0, all reads stay in the table exactly when both top-corner outer indices are below 256 |
| Noise.AsWrittenNegativeCell | perlin/src/perlin.cpp:95-114 | a negative reduced cell, e.g. from any x in [-1, 0), reads before the start of the table |
| Noise.AsWrittenReadsPastTable | perlin/src/perlin.cpp:114 | at (139.5, 254.5) the program's first outer read is at index 510 |
| Noise.SeamAsWritten | perlin/src/perlin.cpp:92-138 | for 254 <= x <= 255 at y = 1/2 the program's reads stay in the table and it samples the same values as `Noise2D`, so the seam at x = 255 is the program's own |
| Fractal.NoiseKernelFacts | perlin/src/perlin.cpp:159 | the kernel the compositor samples lies in [-2, 2] and vanishes at the origin |
| Fractal.FractalSum | perlin/src/perlin.cpp:151-164 | the octave sum the loop computes: no octaves give 0, and one octave gives the kernel at (x·fx, y·fx) with amplitude 1, the loop's starting values; `FractalSumBound`, `FractalSumWithin` and `FractalSumAtOrigin` state its bounds and its value at the origin |
| Fractal.FractalNoise | perlin/src/perlin.cpp:151-164 | after the octave loop, n is the sum over i < 8 of g^i · kernel(x·fx·2^i, y·fx·2^i); the loop invariants are f = fx·2^k and a = g^k |
| Fractal.FreqStep | perlin/src/perlin.cpp:162 | the next octave's frequency is twice the current one |
| Fractal.GeometricSumClosedForm | perlin/src/perlin.cpp:152-163 | the amplitudes satisfy (1 - g) · Σ_{i<k} g^i = 1 - g^k |
| Fractal.GeometricSumBelow | perlin/src/perlin.cpp:152-163 | for 0 <= g < 1 the amplitudes sum to at most 1 / (1 - g) |
| Fractal.FractalSumBound | perlin/src/perlin.cpp:151-164 | for a kernel within [-2, 2] and g >= 0, the k-octave sum lies within twice the sum of the amplitudes |
| Fractal.FractalSumWithin | perlin/src/perlin.cpp:151-164 | for a kernel within [-2, 2] and 0 <= g < 1, (1 - g) times the octave sum lies in [-2, 2] |
| Fractal.FractalSumAtOrigin | perlin/src/perlin.cpp:157-164 | for a kernel vanishing at the origin, the octave sum at pixel (0, 0) is 0 |
| Fractal.Round | perlin/src/perlin.cpp:168 | std::round: the result is within 1/2 of its argument, with halves rounded away from zero |
| Fractal.Remap | perlin/src/perlin.cpp:166-167 | (n + 1) / 2 lies in [0, 1] exactly when n lies in [-1, 1] |
| Fractal.ColorOf | perlin/src/perlin.cpp:168-180 | the colour of a remapped value: red only from 0.9 on, green only from 1/2 on, and three equal channels from 0.9 on, for every value, clamped or not; `ColorBands`, `ThresholdBoundaries` and `NoClamp` give the channel ranges |
| Fractal.ColorBands | perlin/src/perlin.cpp:168-180 | for a remapped value in [0, 1] every channel is in [0, 255]: below 1/2 only an even blue up to 254; below 0.9 no red, green in [128, 229] and blue in [64, 115]; from 0.9 on three equal channels of at least 230 |
| Fractal.ThresholdBoundaries | perlin/src/perlin.cpp:169-180 | the thresholds are strict: exactly 1/2 gives (0, 128, 64), exactly 0.9 gives (230, 230, 230) |
| Fractal.NoClamp | perlin/src/perlin.cpp:166-180 | nothing clamps the channels: 1.1 gives (281, 281, 281) and -0.1 gives a blue of -52 |
| Fractal.OriginPixel | perlin/src/perlin.cpp:146-180 | for every table, frequency and amplitude factor, pixel (0, 0) is (0, 128, 64) |
| Fractal.ShadePixel | perlin/src/perlin.cpp:151-180 | one pixel's octave loop, remap, rounding and colour choice produce `PixelColor`, whose bands `ColorBands` states and whose origin value `OriginPixel` states |
| Fractal.ImageLength | perlin/src/perlin.cpp:146-181 | appending one colour per pixel, row after row, gives width·height entries |
| Fractal.ImageEntry | perlin/src/perlin.cpp:146-181 | for y < height and x < width, entry y·width + x exists and is the colour of pixel (x, y) |
| Fractal.ImageRowMajor | perlin/src/perlin.cpp:146-181 | the image has width·height entries and, for every pixel (x, y) of the grid, entry y·width + x is its colour |
| Fractal.PerlinNoise | perlin/src/perlin.cpp:141-185 | the nested loops build exactly `Image` of the painting: the rows completed so far followed by the current row's first x pixels is the loop invariant |
| Fractal.PerlinNoiseScreen | perlin/src/perlin.cpp:141-185 | on the 1000 × 1000 grid over the program's table there are 10^6 entries, and entry 1000y + x is the colour of pixel (x, y) |
| BlendSampling.Simulation | perlin/src/blend.cpp:32-46 | the two vectors have equal nonzero length; the parameters start at 0, grow by 0.01, stay in [0, 1] and stop one step before passing 1; each value is blend of its parameter, lies in [0, 1], starts at 0 and never decreases |

## Left out

- `main` (the ImGui/GLFW window, slider and draw-list code) and the `Noise` rectangle struct are not part of this model: they only render the image.
- `generateRandom` and all of `perlin/src/noise.cpp` are not part of this model: they are a random-rectangle demo built on `std::random_device`.
- `plot2D` in `perlin/src/blend.cpp` is not part of this model: it is plotting glue.
- Float arithmetic is not modelled: `float`/`double` rounding, `std::pow`, and the accumulation of 0.01 in the `simulation` loop counter are all exact real arithmetic here.
- BlendSampling.Simulation: the sample count is not stated. Over the reals it is 101, but float accumulation of 0.01 in `t` can end the loop one sample earlier or later.
- Fractal.PerlinNoise: `G = std::exp2(-0.5)` is the parameter `g`. The loop counters `x` and `y`, which are floats in the program, are integers here. The fixed grid of the program is the instance `PerlinNoiseScreen`.
- Fractal.PerlinNoise: the kernel is passed as a value, so the method is proved for any kernel. `PerlinNoiseScreen` passes `Noise2D` over `P`.
- Noise.Noise2D: `int Xi = std::floor(x)` overflows in C++ for huge coordinates. The model uses unbounded integers.
- Noise.Noise2D: the table reads wrap around the table (`Lookup`). The program's unchecked reads are modelled by `Noise2DAsWritten` (see Findings).
- The horizontal line y = 255 wraps the cell index the same way as x = 255 does; whether it breaks continuity there for the program's table is not worked out.
- The colour triples are integers. The program stores them in floats, but every value it stores is an integer.

## Findings

| source | as written | input that shows it | evidently intended | confidence | as-written member | corrected member |
|---|---|---|---|---|---|---|
| perlin/src/perlin.cpp:114-117 | the outer index `P[X + dx] + Y + dy` can reach 510, and a negative x gives a negative X; the 256-entry `std::vector` is read without a check | x = 139.5, y = 254.5: X = 139, Y = 254, `P[140]` = 255, so the first read is `P[510]` | the doubled 512-entry table of the reference implementation, i.e. every index taken modulo 256 | not executed | Noise.Noise2DAsWritten, Noise.AsWrittenReadsPastTable | Noise.Noise2D with PermutationTable.Lookup, Noise.AsWrittenAgrees |

The modulo-255 reduction of the cell is kept as written. It makes the sampler periodic with period 255 in x on the nonnegative half-plane (`Period255`), and it breaks continuity at every positive multiple of 255: `SeamAtMultipleOf255` states the seam at each x = 255 n for `Noise2D`, and `SeamAsWritten` shows that the program samples the same values around x = 255. Every vertical lattice line x = k with k >= 1 and k not a multiple of 255 is continuous (`ContinuousAcrossLatticeLine`), and so is every horizontal line y = k with k >= 1 and k not a multiple of 255 (`ContinuousAcrossHorizontalLine`). Octave i of pixel (x, y) samples the kernel at x · fx · 2^i, so these seams enter the image wherever that product reaches 255.
