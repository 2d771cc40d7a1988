/**
 * Single-octave 2D gradient noise: the gradient selector, the dot product
 * and the sampler Noise2D, which hashes the four corners of a lattice
 * cell through the permutation table, takes each corner's gradient
 * against the offset to the sample point and blends the four influences.
 */
module Noise {
  import opened PermutationTable
  import opened Interpolation

  /** A pair of reals: a gradient or an offset vector. */
  datatype Pos = Pos(x: real, y: real)

  /** The four hash values of a lattice cell's corners, as the program
      names them. */
  datatype Corners = Corners(topRight: int, topLeft: int, bottomRight: int, bottomLeft: int)

  function Abs(r: real): real
  {
    if r < 0.0 then -r else r
  }

  /** C++ `%` on `int`: the quotient is truncated toward zero, so the
      remainder takes the sign of the dividend. */
  function CRem(a: int, m: int): (r: int)
    requires m > 0
    ensures a >= 0 ==> r == a % m
    ensures a < 0 ==> r == (if a % m == 0 then 0 else a % m - m)
    ensures -m < r < m
  {
    if a >= 0 then a % m
    else
      var q, s := (-a) / m, (-a) % m;
      if s == 0 then
        ModUnique(a, m, -q, 0);
        0
      else
        ModUnique(a, m, -q - 1, m - s);
        -s
  }

  /** Quotient and remainder are the only ones with `0 <= s < m`. */
  lemma ModUnique(a: int, m: int, q: int, s: int)
    requires m > 0 && 0 <= s < m && a == m * q + s
    ensures a % m == s
  {
    var k := a / m - q;
    assert m * k == s - a % m by {
      assert a == m * (a / m) + a % m;
      assert m * k == m * (a / m) - m * q;
    }
  }

  /** Both components are 1 or -1: one of the four diagonal directions. */
  predicate IsDiagonal(g: Pos)
  {
    (g.x == 1.0 || g.x == -1.0) && (g.y == 1.0 || g.y == -1.0)
  }

  /** The gradient selector: the truncating remainder of `v` by 4 picks one
      of four diagonal vectors; every remainder other than 0, 1 and 2
      (3, but also the negative ones) picks (1, -1). */
  function EvaluateCorners(v: int): (g: Pos)
    ensures IsDiagonal(g)
  {
    var h := CRem(v, 4);
    if h == 0 then Pos(1.0, 1.0)
    else if h == 1 then Pos(-1.0, 1.0)
    else if h == 2 then Pos(-1.0, -1.0)
    else Pos(1.0, -1.0)
  }

  /** The mapping from remainders to gradients, for nonnegative and for
      negative arguments: a negative argument only ever selects (1, 1) or
      (1, -1). */
  lemma EvaluateCornersByResidue(v: int)
    ensures v >= 0 ==>
      EvaluateCorners(v) == (if v % 4 == 0 then Pos(1.0, 1.0)
       else if v % 4 == 1 then Pos(-1.0, 1.0)
       else if v % 4 == 2 then Pos(-1.0, -1.0)
       else Pos(1.0, -1.0))
    ensures v < 0 ==> EvaluateCorners(v) == (if v % 4 == 0 then Pos(1.0, 1.0) else Pos(1.0, -1.0))
  {
  }

  /** Every diagonal is the gradient of some table value. */
  lemma EvaluateCornersOnto(g: Pos)
    requires IsDiagonal(g)
    ensures exists v :: 0 <= v < 4 && EvaluateCorners(v) == g
  {
    if g == Pos(1.0, 1.0) {
      assert EvaluateCorners(0) == g;
    } else if g == Pos(-1.0, 1.0) {
      assert EvaluateCorners(1) == g;
    } else if g == Pos(-1.0, -1.0) {
      assert EvaluateCorners(2) == g;
    } else {
      assert EvaluateCorners(3) == g;
    }
  }

  /** The dot product; against a diagonal gradient it is bounded by the
      sum of the offset's absolute components. */
  function DotProduct(a: Pos, b: Pos): (r: real)
    ensures IsDiagonal(b) ==> Abs(r) <= Abs(a.x) + Abs(a.y)
  {
    DiagonalFactors(a, b);
    a.x * b.x + a.y * b.y
  }

  /** Against a diagonal gradient each product keeps the absolute value of
      the offset's component. */
  lemma DiagonalFactors(a: Pos, b: Pos)
    ensures IsDiagonal(b) ==> Abs(a.x * b.x) == Abs(a.x) && Abs(a.y * b.y) == Abs(a.y)
  {
    if IsDiagonal(b) {
      UnitFactor(a.x, b.x);
      UnitFactor(a.y, b.y);
    }
  }

  /** Multiplying by 1 or -1 keeps the absolute value. */
  lemma UnitFactor(a: real, u: real)
    requires u == 1.0 || u == -1.0
    ensures Abs(a * u) == Abs(a)
  {
    if u == -1.0 {
      assert a * u == -a;
    }
  }

  /** The lattice coordinate of `c` reduced as the program reduces it:
      `floor(c) % 255` with C++'s truncating remainder. */
  function Cell(c: real): (X: int)
    ensures -255 < X < 255
    ensures (c.Floor - X) % 255 == 0
  {
    CRem(c.Floor, 255)
  }

  /** The offset of `c` from the lattice line below it: a value in [0, 1)
      that differs from `c` by an integer. */
  function Frac(c: real): (r: real)
    ensures 0.0 <= r < 1.0
    ensures (c - r).Floor as real == c - r
  {
    c - c.Floor as real
  }

  /** For a nonnegative coordinate the reduced cell lies in [0, 254], so
      both `P[X]` and `P[X + 1]` are inside the table. */
  lemma LatticeCellBounds(c: real)
    ensures c >= 0.0 ==> 0 <= Cell(c) <= 254 && 0 <= Cell(c) + 1 < Size
  {
  }

  /** The hash of a lattice corner, `P[P[X] + Y]`, with both reads wrapping
      around the table. */
  function Hash(t: Table, X: int, Y: int): (h: Byte)
    ensures 0 <= X < Size && 0 <= t[X] + Y < Size ==> h == t[t[X] + Y]
  {
    Lookup(t, Lookup(t, X) + Y)
  }

  /** The four corner hashes of the cell whose bottom-left corner is
      (X, Y). */
  function CellCorners(t: Table, X: int, Y: int): Corners
  {
    Corners(Hash(t, X + 1, Y + 1), Hash(t, X, Y + 1), Hash(t, X + 1, Y), Hash(t, X, Y))
  }

  /** Neighbouring cells share corners: the right-hand corners of cell
      (X, Y) are the left-hand corners of cell (X + 1, Y), and its top
      corners are the bottom corners of cell (X, Y + 1). */
  lemma CellCornersShared(t: Table, X: int, Y: int)
    ensures CellCorners(t, X, Y).topRight == CellCorners(t, X + 1, Y).topLeft
    ensures CellCorners(t, X, Y).bottomRight == CellCorners(t, X + 1, Y).bottomLeft
    ensures CellCorners(t, X, Y).topLeft == CellCorners(t, X, Y + 1).bottomLeft
    ensures CellCorners(t, X, Y).topRight == CellCorners(t, X, Y + 1).bottomRight
  {
  }

  /** Each corner's influence (its gradient against the offset from that
      corner to the sample point), blended bilinearly with the quintic
      weights of the two offsets. */
  function Interpolate(c: Corners, xf: real, yf: real): (r: real)
    ensures xf == 0.0 && yf == 0.0 ==> r == 0.0
  {
    var gradientTopRight := DotProduct(Pos(xf - 1.0, yf - 1.0), EvaluateCorners(c.topRight));
    var gradientTopLeft := DotProduct(Pos(xf, yf - 1.0), EvaluateCorners(c.topLeft));
    var gradientBottomRight := DotProduct(Pos(xf - 1.0, yf), EvaluateCorners(c.bottomRight));
    var gradientBottomLeft := DotProduct(Pos(xf, yf), EvaluateCorners(c.bottomLeft));
    var u := Blend(xf);
    var v := Blend(yf);
    var f1 := Lerp(v, gradientBottomLeft, gradientTopLeft);
    var f2 := Lerp(v, gradientBottomRight, gradientTopRight);
    Lerp(u, f1, f2)
  }

  /** Inside a cell, with both offsets in the unit interval, every corner
      influence is at most 2 in magnitude, and so is their blend. */
  lemma InterpolateBound(c: Corners, xf: real, yf: real)
    requires 0.0 <= xf <= 1.0 && 0.0 <= yf <= 1.0
    ensures -2.0 <= Interpolate(c, xf, yf) <= 2.0
  {
    var gradientTopRight := DotProduct(Pos(xf - 1.0, yf - 1.0), EvaluateCorners(c.topRight));
    var gradientTopLeft := DotProduct(Pos(xf, yf - 1.0), EvaluateCorners(c.topLeft));
    var gradientBottomRight := DotProduct(Pos(xf - 1.0, yf), EvaluateCorners(c.bottomRight));
    var gradientBottomLeft := DotProduct(Pos(xf, yf), EvaluateCorners(c.bottomLeft));
    BlendRange(xf);
    BlendRange(yf);
    var u := Blend(xf);
    var v := Blend(yf);
    var f1 := Lerp(v, gradientBottomLeft, gradientTopLeft);
    var f2 := Lerp(v, gradientBottomRight, gradientTopRight);
    assert -2.0 <= f1 <= 2.0;
    assert -2.0 <= f2 <= 2.0;
  }

  /** The single-octave sample of table `t` at (x, y): the cell is reduced
      modulo 255 as in the program, and the table is read with
      wrap-around. */
  function Noise2D(t: Table, x: real, y: real): (r: real)
    ensures -2.0 <= r <= 2.0
  {
    LatticeCellBounds(x);
    LatticeCellBounds(y);
    InterpolateBound(CellCorners(t, Cell(x), Cell(y)), Frac(x), Frac(y));
    Interpolate(CellCorners(t, Cell(x), Cell(y)), Frac(x), Frac(y))
  }

  /** At a lattice point both offsets are 0: the weights vanish, so the
      sample is the bottom-left influence, whose offset is the zero
      vector. */
  lemma NoiseZeroAtLattice(t: Table, i: int, j: int)
    ensures Noise2D(t, i as real, j as real) == 0.0
  {
    assert Frac(i as real) == 0.0;
    assert Frac(j as real) == 0.0;
  }

  /** On the left edge of a cell only its left-hand corners count, on the
      right edge only its right-hand ones. */
  lemma InterpolateAtEdges(c: Corners, yf: real)
    ensures Interpolate(c, 0.0, yf) == Lerp(Blend(yf),
      DotProduct(Pos(0.0, yf), EvaluateCorners(c.bottomLeft)),
      DotProduct(Pos(0.0, yf - 1.0), EvaluateCorners(c.topLeft)))
    ensures Interpolate(c, 1.0, yf) == Lerp(Blend(yf),
      DotProduct(Pos(0.0, yf), EvaluateCorners(c.bottomRight)),
      DotProduct(Pos(0.0, yf - 1.0), EvaluateCorners(c.topRight)))
  {
  }

  /** Neighbouring cells agree along the lattice line they share: the
      right edge (u = 1) of cell (X, Y) and the left edge (u = 0) of cell
      (X + 1, Y) use the same two corner hashes with the same offsets. */
  lemma EdgesAgreeAcross(t: Table, X: int, Y: int, yf: real)
    ensures Interpolate(CellCorners(t, X, Y), 1.0, yf) == Interpolate(CellCorners(t, X + 1, Y), 0.0, yf)
  {
    InterpolateAtEdges(CellCorners(t, X, Y), yf);
    InterpolateAtEdges(CellCorners(t, X + 1, Y), yf);
  }

  /** The same along a horizontal lattice line: the top edge (v = 1) of
      cell (X, Y) and the bottom edge (v = 0) of cell (X, Y + 1). */
  lemma EdgesAgreeAlong(t: Table, X: int, Y: int, xf: real)
    ensures Interpolate(CellCorners(t, X, Y), xf, 1.0) == Interpolate(CellCorners(t, X, Y + 1), xf, 0.0)
  {
  }

  /** Away from multiples of 255, the piece of the cell left of the
      vertical lattice line x = k, which is a polynomial in the offset and
      therefore the limit of the samples approaching the line from the
      left, meets the sample on the line: no seam. */
  lemma ContinuousAcrossLatticeLine(t: Table, k: int, y: real)
    requires k >= 1 && k % 255 != 0
    ensures Interpolate(CellCorners(t, Cell((k - 1) as real), Cell(y)), 1.0, Frac(y)) == Noise2D(t, k as real, y)
  {
    assert ((k - 1) as real).Floor == k - 1;
    assert (k as real).Floor == k;
    assert Frac(k as real) == 0.0;
    assert Cell(k as real) == Cell((k - 1) as real) + 1;
    EdgesAgreeAcross(t, Cell((k - 1) as real), Cell(y), Frac(y));
  }

  /** Between the vertical lattice lines x = k - 1 and x = k the sampler
      is the piece of one cell: the cell of x = k - 1, at offset
      x - (k - 1). */
  lemma NoiseLeftOfLine(t: Table, k: int, x: real, y: real)
    requires (k - 1) as real <= x < k as real
    ensures Noise2D(t, x, y) == Interpolate(CellCorners(t, Cell((k - 1) as real), Cell(y)), x - (k - 1) as real, Frac(y))
  {
    assert x.Floor == k - 1;
    assert ((k - 1) as real).Floor == k - 1;
  }

  /** The same for a horizontal lattice line y = k: away from multiples
      of 255, the piece of the cell below the line meets the sample on
      the line. */
  lemma ContinuousAcrossHorizontalLine(t: Table, x: real, k: int)
    requires k >= 1 && k % 255 != 0
    ensures Interpolate(CellCorners(t, Cell(x), Cell((k - 1) as real)), Frac(x), 1.0) == Noise2D(t, x, k as real)
  {
    assert ((k - 1) as real).Floor == k - 1;
    assert (k as real).Floor == k;
    assert Frac(k as real) == 0.0;
    assert Cell(k as real) == Cell((k - 1) as real) + 1;
    EdgesAgreeAlong(t, Cell(x), Cell((k - 1) as real), Frac(x));
  }

  /** Points with the same reduced cell and the same offset in x get the
      same sample. */
  lemma SameCellSameSample(t: Table, x1: real, x2: real, y: real)
    requires Cell(x1) == Cell(x2) && Frac(x1) == Frac(x2)
    ensures Noise2D(t, x1, y) == Noise2D(t, x2, y)
  {
  }

  /** On the nonnegative half-plane the modulo-255 reduction makes the
      sampler periodic in x with period 255. */
  lemma Period255(t: Table, x: real, y: real)
    requires x >= 0.0
    ensures Noise2D(t, x + 255.0, y) == Noise2D(t, x, y)
  {
    var f := x.Floor;
    assert (x + 255.0).Floor == f + 255;
    ModUnique(f + 255, 255, f / 255 + 1, f % 255);
    SameCellSameSample(t, x + 255.0, x, y);
  }

  /** At every positive multiple k of 255 the modulo-255 reduction wraps
      the cell index from 254 to 0, so with the program's table the cell
      on the left reads the column hashed from `P[255]` while the line
      itself reads the one hashed from `P[0]`: at y = 1/2 the left piece
      approaches 0 but the sample on the line is 1/2. */
  lemma SeamAtMultipleOf255(k: int)
    requires k >= 1 && k % 255 == 0
    ensures Interpolate(CellCorners(P, Cell((k - 1) as real), Cell(0.5)), 1.0, Frac(0.5)) == 0.0
    ensures Noise2D(P, k as real, 0.5) == 0.5
  {
    SeamLeftAt(k);
    SeamOnLineAt(k);
  }

  lemma SeamLeftAt(k: int)
    requires k >= 1 && k % 255 == 0
    ensures Interpolate(CellCorners(P, Cell((k - 1) as real), Cell(0.5)), 1.0, Frac(0.5)) == 0.0
  {
    SeamCells(k);
    SeamLeftPiece();
  }

  lemma SeamOnLineAt(k: int)
    requires k >= 1 && k % 255 == 0
    ensures Noise2D(P, k as real, 0.5) == 0.5
  {
    assert Noise2D(P, k as real, 0.5) == Noise2D(P, 255.0, 0.5) by {
      SeamCells(k);
      SameCellSameSample(P, k as real, 255.0, 0.5);
    }
    SeamSampleOnLine();
  }

  /** Just left of a multiple k of 255 the reduced cell is 254; on the
      line it is 0 with offset 0, as at x = 255. */
  lemma SeamCells(k: int)
    requires k >= 1 && k % 255 == 0
    ensures Cell((k - 1) as real) == 254 && Cell(0.5) == 0 && Frac(0.5) == 0.5
    ensures Cell(k as real) == 0 == Cell(255.0)
    ensures Frac(k as real) == 0.0 == Frac(255.0)
  {
    ModUnique(k - 1, 255, k / 255 - 1, 254);
    assert ((k - 1) as real).Floor == k - 1;
    assert (k as real).Floor == k;
  }

  /** Cell 254 reads the hashes 19 (bottom right, gradient (1, -1)) and 98
      (top right, gradient (-1, -1)); at y offset 1/2 on its right edge
      their influences -1/2 and 1/2 cancel. */
  lemma SeamLeftPiece()
    ensures Interpolate(CellCorners(P, 254, 0), 1.0, 0.5) == 0.0
  {
    var left := CellCorners(P, 254, 0);
    assert Lookup(P, 255) == 180 && Lookup(P, 180) == 19 && Lookup(P, 181) == 98;
    assert left.bottomRight == 19 && left.topRight == 98;
    assert DotProduct(Pos(0.0, 0.5), EvaluateCorners(19)) == -0.5;
    assert DotProduct(Pos(0.0, -0.5), EvaluateCorners(98)) == 0.5;
    InterpolateAtEdges(left, 0.5);
    assert Lerp(0.5, -0.5, 0.5) == 0.0;
  }

  /** On the line x = 255 the cell is 0, which reads the hashes 17 (bottom
      left, gradient (-1, 1)) and 182 (top left, gradient (-1, -1)); both
      influences are 1/2. */
  lemma SeamSampleOnLine()
    ensures Noise2D(P, 255.0, 0.5) == 0.5
  {
    assert Cell(255.0) == 0 && Cell(0.5) == 0;
    assert Frac(0.5) == 0.5 && Frac(255.0) == 0.0;
    var right := CellCorners(P, 0, 0);
    assert Lookup(P, 0) == 151 && Lookup(P, 151) == 17 && Lookup(P, 152) == 182;
    assert right.bottomLeft == 17 && right.topLeft == 182;
    assert DotProduct(Pos(0.0, 0.5), EvaluateCorners(17)) == 0.5;
    assert DotProduct(Pos(0.0, -0.5), EvaluateCorners(182)) == 0.5;
    InterpolateAtEdges(right, 0.5);
    assert Lerp(0.5, 0.5, 0.5) == 0.5;
  }

  /** What one read of the table does in the program: `std::vector`
      indexing is unchecked, so an index outside [0, 255] reads memory past
      the table instead of an entry. */
  datatype Reading = InTable(value: real) | OutOfTable(index: int)

  /** The sampler as the program writes it, with the table read without
      wrap-around, in the program's order of reads: the first index that
      falls outside the table is reported. */
  function Noise2DAsWritten(t: Table, x: real, y: real): (r: Reading)
    ensures r.OutOfTable? ==> !(0 <= r.index < Size)
  {
    var X, Y := Cell(x), Cell(y);
    if !(0 <= X + 1 < Size) then OutOfTable(X + 1)
    else if !(0 <= t[X + 1] + Y + 1 < Size) then OutOfTable(t[X + 1] + Y + 1)
    else if !(0 <= X < Size) then OutOfTable(X)
    else if !(0 <= t[X] + Y + 1 < Size) then OutOfTable(t[X] + Y + 1)
    else if !(0 <= t[X + 1] + Y < Size) then OutOfTable(t[X + 1] + Y)
    else if !(0 <= t[X] + Y < Size) then OutOfTable(t[X] + Y)
    else
      var c := Corners(t[t[X + 1] + Y + 1], t[t[X] + Y + 1], t[t[X + 1] + Y], t[t[X] + Y]);
      InTable(Interpolate(c, Frac(x), Frac(y)))
  }

  /** Wherever the program's reads stay inside the table, it computes the
      same sample as the wrap-around model. */
  lemma AsWrittenAgrees(t: Table, x: real, y: real)
    ensures Noise2DAsWritten(t, x, y).InTable? ==> Noise2DAsWritten(t, x, y).value == Noise2D(t, x, y)
  {
    var X, Y := Cell(x), Cell(y);
    if Noise2DAsWritten(t, x, y).InTable? {
      var tr, tl, br, bl := t[X + 1] + Y + 1, t[X] + Y + 1, t[X + 1] + Y, t[X] + Y;
      assert CellCorners(t, X, Y) == Corners(t[tr], t[tl], t[br], t[bl]);
    }
  }

  /** For nonnegative coordinates every outer index `t[X + dx] + Y + dy`
      lies in [0, 510], twice the table's range. */
  lemma OuterIndexBounds(t: Table, x: real, y: real)
    requires x >= 0.0 && y >= 0.0
    ensures 0 <= t[Cell(x)] + Cell(y) && t[Cell(x) + 1] + Cell(y) + 1 <= 510
    ensures 0 <= t[Cell(x) + 1] + Cell(y) && t[Cell(x)] + Cell(y) + 1 <= 510
  {
    LatticeCellBounds(x);
    LatticeCellBounds(y);
  }

  /** For nonnegative coordinates the inner reads are always inside the
      table, and all reads are exactly when the two top-corner outer
      indices are (the bottom ones are one smaller). */
  lemma AsWrittenInTableIff(t: Table, x: real, y: real)
    requires x >= 0.0 && y >= 0.0
    ensures Noise2DAsWritten(t, x, y).InTable?
        <==> t[Cell(x) + 1] + Cell(y) + 1 < Size && t[Cell(x)] + Cell(y) + 1 < Size
  {
    LatticeCellBounds(x);
    LatticeCellBounds(y);
  }

  /** A negative reduced cell (for instance any x in [-1, 0)) makes the
      program read before the start of the table. */
  lemma AsWrittenNegativeCell(t: Table, x: real, y: real)
    requires Cell(x) < 0
    ensures Noise2DAsWritten(t, x, y).OutOfTable?
  {
  }

  /** The seam is also the program's: from x = 254 up to and including
      the line x = 255, at y = 1/2, all of its reads stay inside the
      table, so it samples what the wrap-around model samples: the piece
      of cell 254 left of the line (`NoiseLeftOfLine`) and 1/2 on it
      (`SeamAtMultipleOf255`). */
  lemma SeamAsWritten(x: real)
    requires 254.0 <= x <= 255.0
    ensures Noise2DAsWritten(P, x, 0.5) == InTable(Noise2D(P, x, 0.5))
  {
    TableEntries();
    assert Cell(0.5) == 0;
    if x < 255.0 {
      assert x.Floor == 254;
      assert Cell(x) == 254;
    } else {
      assert Cell(x) == 0;
    }
    AsWrittenInTableIff(P, x, 0.5);
    AsWrittenAgrees(P, x, 0.5);
  }

  /** The four entries of the program's table that the reads around
      x = 255 at y = 1/2 use. */
  lemma TableEntries()
    ensures P[0] == 151 && P[1] == 160 && P[254] == 156 && P[255] == 180
  {
  }

  /** The outer index reaches 510: with the program's table, in the cell
      (139, 254), where `P[140] == 255`, the first read of the top-right
      hash is 254 entries past the end of the table. */
  lemma AsWrittenReadsPastTable()
    ensures Noise2DAsWritten(P, 139.5, 254.5) == OutOfTable(510)
  {
    assert Cell(139.5) == 139 && Cell(254.5) == 254;
    assert P[140] == 255;
  }
}
