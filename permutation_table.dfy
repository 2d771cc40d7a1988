/**
 * The fixed table of 256 pseudo-random lattice hashes shared by every
 * noise evaluation (Ken Perlin's reference permutation).
 */
module PermutationTable {

  /** A table entry: the program stores them as `int`, and every one of
      them lies in [0, 255]. */
  type Byte = v: int | 0 <= v < 256

  /** Number of entries in the table. */
  const Size: nat := 256

  /** A permutation table: 256 bytes. The noise functions take the table as
      an argument; the program's own table is `P` below. */
  type Table = t: seq<Byte> | |t| == Size witness seq(Size, i => 0)

  /** The table exactly as the program declares it, in its order; it is
      written as sixteen runs of sixteen entries so that a lookup at a
      constant index stays cheap for the verifier. */
  const P: seq<Byte> :=
    [151, 160, 137, 91, 90, 15, 131, 13, 201, 95, 96, 53, 194, 233, 7, 225] +
    [140, 36, 103, 30, 69, 142, 8, 99, 37, 240, 21, 10, 23, 190, 6, 148] +
    [247, 120, 234, 75, 0, 26, 197, 62, 94, 252, 219, 203, 117, 35, 11, 32] +
    [57, 177, 33, 88, 237, 149, 56, 87, 174, 20, 125, 136, 171, 168, 68, 175] +
    [74, 165, 71, 134, 139, 48, 27, 166, 77, 146, 158, 231, 83, 111, 229, 122] +
    [60, 211, 133, 230, 220, 105, 92, 41, 55, 46, 245, 40, 244, 102, 143, 54] +
    [65, 25, 63, 161, 1, 216, 80, 73, 209, 76, 132, 187, 208, 89, 18, 169] +
    [200, 196, 135, 130, 116, 188, 159, 86, 164, 100, 109, 198, 173, 186, 3, 64] +
    [52, 217, 226, 250, 124, 123, 5, 202, 38, 147, 118, 126, 255, 82, 85, 212] +
    [207, 206, 59, 227, 47, 16, 58, 17, 182, 189, 28, 42, 223, 183, 170, 213] +
    [119, 248, 152, 2, 44, 154, 163, 70, 221, 153, 101, 155, 167, 43, 172, 9] +
    [129, 22, 39, 253, 19, 98, 108, 110, 79, 113, 224, 232, 178, 185, 112, 104] +
    [218, 246, 97, 228, 251, 34, 242, 193, 238, 210, 144, 12, 191, 179, 162, 241] +
    [81, 51, 145, 235, 249, 14, 239, 107, 49, 192, 214, 31, 181, 199, 106, 157] +
    [184, 84, 204, 176, 115, 121, 50, 45, 127, 4, 150, 254, 138, 236, 205, 93] +
    [222, 114, 67, 29, 24, 72, 243, 141, 128, 195, 78, 66, 215, 61, 156, 180]

  /** The table has exactly 256 entries and every entry is in [0, 255]. */
  lemma TableShape()
    ensures |P| == Size
    ensures forall i :: 0 <= i < |P| ==> 0 <= P[i] <= 255
  {
  }

  /** The table read with wrap-around: index `i` selects entry `i mod 256`,
      so an index inside the table selects that very entry, and an index in
      [256, 512) selects what the reference implementation's table, stored
      twice in a row, holds there. Negative indices, which that layout does
      not cover either, are wrapped the same way here. */
  function Lookup(t: Table, i: int): (r: Byte)
    ensures 0 <= i < Size ==> r == t[i]
  {
    t[i % Size]
  }

  /** Wrap-around: indices 256 apart select the same entry. */
  lemma LookupPeriodic(t: Table, i: int)
    ensures Lookup(t, i + Size) == Lookup(t, i)
  {
    assert (i + Size) % Size == i % Size;
  }
}
