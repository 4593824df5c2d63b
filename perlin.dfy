/** Perlin.cpp: Ken Perlin's improved gradient noise (Perlin::Generator)
    and the octave-summing noise map built from it (Perlin::Noise).

    Doubles are modelled as exact reals: the properties proved here are
    those of the arithmetic the code spells out, not of its rounding. */
module Perlin {
  import opened Bytes
  import opened PerlinTable
  import Grid

  /* ---------------------------------------------------------------------
     Interpolation kernel: fade, lerp, grad (Perlin.cpp:114-129)
     --------------------------------------------------------------------- */

  /** Product of two non-negative reals is non-negative. */
  lemma MulNonNegative(a: real, b: real)
    requires a >= 0.0 && b >= 0.0
    ensures a * b >= 0.0
  {
  }

  /** The quintic fade curve 6t^5 - 15t^4 + 10t^3, in the nested form the
      source evaluates. It fixes both ends of the unit interval. */
  function Fade(t: real): (r: real)
    ensures t == 0.0 ==> r == 0.0
    ensures t == 1.0 ==> r == 1.0
  {
    t * t * t * (t * (t * 6.0 - 15.0) + 10.0)
  }

  /** Fade maps the unit interval into itself: on [0, 1] the factor
      t(6t - 15) + 10 is at least 1, and
      1 - fade(t) = (1 - t)^3 (6t^2 + 3t + 1). */
  lemma FadeBounds(t: real)
    ensures 0.0 <= t <= 1.0 ==> 0.0 <= Fade(t) <= 1.0
  {
    if 0.0 <= t <= 1.0 {
      var f := Fade(t);
      var c := t * t * t;
      MulNonNegative(t, t);
      MulNonNegative(t * t, t);
      var q := t * (t * 6.0 - 15.0) + 10.0;
      assert q - 1.0 == 3.0 * ((3.0 - 2.0 * t) * (1.0 - t));
      MulNonNegative(3.0 - 2.0 * t, 1.0 - t);
      MulNonNegative(c, q);
      var s := 1.0 - t;
      MulNonNegative(s, s);
      MulNonNegative(s * s, s);
      assert 1.0 - f == s * s * s * (6.0 * t * t + 3.0 * t + 1.0);
      MulNonNegative(s * s * s, 6.0 * t * t + 3.0 * t + 1.0);
    }
  }

  /** The fade curve is symmetric about the middle of the cell:
      fade(1 - t) = 1 - fade(t). */
  lemma FadeSymmetric(t: real)
    ensures Fade(1.0 - t) == 1.0 - Fade(t)
  {
    var s := 1.0 - t;
    assert s * s * s * (s * (s * 6.0 - 15.0) + 10.0)
        == 1.0 - t * t * t * (t * (t * 6.0 - 15.0) + 10.0);
  }

  /** Linear interpolation from a (at t = 0) to b (at t = 1). */
  function Lerp(t: real, a: real, b: real): (r: real)
    ensures t == 0.0 ==> r == a
    ensures t == 1.0 ==> r == b
  {
    a + t * (b - a)
  }

  /** For t in [0, 1], lerp lies between a and b. */
  lemma LerpBetween(t: real, a: real, b: real)
    ensures 0.0 <= t <= 1.0 ==> (a <= Lerp(t, a, b) <= b || b <= Lerp(t, a, b) <= a)
  {
    if 0.0 <= t <= 1.0 {
      if a <= b {
        MulNonNegative(t, b - a);
        MulNonNegative(1.0 - t, b - a);
      } else {
        MulNonNegative(t, a - b);
        MulNonNegative(1.0 - t, a - b);
      }
    }
  }

  /** The bound interpolation keeps: between two values of [-m, m] lies a
      value of [-m, m]. */
  lemma LerpBound(t: real, a: real, b: real, m: real)
    requires 0.0 <= t <= 1.0
    requires -m <= a <= m && -m <= b <= m
    ensures -m <= Lerp(t, a, b) <= m
  {
    LerpBetween(t, a, b);
  }

  /** A gradient direction: the coefficients of dx, dy, dz. */
  datatype Direction = Direction(cx: int, cy: int, cz: int)

  /** The dot product of a direction with an offset. */
  function Dot(g: Direction, x: real, y: real, z: real): real
  {
    g.cx as real * x + g.cy as real * y + g.cz as real * z
  }

  /** The gradient hashing of `grad`: the low four bits of the hash pick
      u (x below 8, else y) and v (y below 4, x for 12 and 14, else z),
      bit 0 negates u and bit 1 negates v. `hash & 15` is written
      `hash % 16`, `h & 1` as `h % 2` and `h & 2` as `(h / 2) % 2`; these
      agree because h is never negative (and Euclidean `% 16` equals the
      two's-complement `& 15` for every int).

      The result is the dot product of the offset with the direction that
      Gradients lists for hash & 15; for offsets in [-1, 1] it adds or
      subtracts two of them, so it is at most 2 in magnitude. */
  function Grad(hash: int, x: real, y: real, z: real): (r: real)
    ensures r == Dot(Gradients[hash % 16], x, y, z)
    ensures -1.0 <= x <= 1.0 && -1.0 <= y <= 1.0 && -1.0 <= z <= 1.0 ==> -2.0 <= r <= 2.0
  {
    var h := hash % 16;
    var u := if h < 8 then x else y;
    var v := if h < 4 then y else if h == 12 || h == 14 then x else z;
    (if h % 2 == 0 then u else -u) + (if (h / 2) % 2 == 0 then v else -v)
  }

  /** Ken Perlin's table of gradient directions, indexed by hash & 15: the
      twelve edge midpoints of a cube, then four of them again. */
  const Gradients: seq<Direction> := [
    Direction( 1,  1,  0), Direction(-1,  1,  0), Direction( 1, -1,  0), Direction(-1, -1,  0),
    Direction( 1,  0,  1), Direction(-1,  0,  1), Direction( 1,  0, -1), Direction(-1,  0, -1),
    Direction( 0,  1,  1), Direction( 0, -1,  1), Direction( 0,  1, -1), Direction( 0, -1, -1),
    Direction( 1,  1,  0), Direction( 0, -1,  1), Direction(-1,  1,  0), Direction( 0, -1, -1)
  ]

  /** An edge direction of the cube: two coefficients are 1 or -1, the
      third is 0. */
  predicate IsEdge(g: Direction)
  {
    var unit := (c: int) => c == 1 || c == -1;
    (g.cx == 0 && unit(g.cy) && unit(g.cz)) ||
    (g.cy == 0 && unit(g.cx) && unit(g.cz)) ||
    (g.cz == 0 && unit(g.cx) && unit(g.cy))
  }

  /** Every entry of Gradients is an edge direction; the first twelve are
      the twelve edge directions, each once; entries 12 to 15 repeat
      entries 0, 9, 1 and 11. */
  lemma GradientsAreEdges()
    ensures forall h :: 0 <= h < 16 ==> IsEdge(Gradients[h])
    ensures forall i, j :: 0 <= i < j < 12 ==> Gradients[i] != Gradients[j]
    ensures forall g :: IsEdge(g) ==> g in Gradients[..12]
    ensures Gradients[12] == Gradients[0] && Gradients[13] == Gradients[9]
    ensures Gradients[14] == Gradients[1] && Gradients[15] == Gradients[11]
  {
    forall g | IsEdge(g)
      ensures g in Gradients[..12]
    {
      var k :=
        if g.cz == 0 then (if g.cx == 1 then 0 else 1) + (if g.cy == 1 then 0 else 2)
        else if g.cy == 0 then 4 + (if g.cx == 1 then 0 else 1) + (if g.cz == 1 then 0 else 2)
        else 8 + (if g.cy == 1 then 0 else 1) + (if g.cz == 1 then 0 else 2);
      assert Gradients[..12][k] == g;
    }
  }

  /* ---------------------------------------------------------------------
     Generator::get (Perlin.cpp:58-112)
     --------------------------------------------------------------------- */

  /** `(int) floor(v) & 255`: the lattice cell coordinate reduced to the
      table's range. It is floor(v) modulo 256 and never negative, even for
      negative floors. */
  function Wrap(n: int): (r: int)
    ensures 0 <= r <= 255
    ensures (n - r) % 256 == 0
  {
    n % 256
  }

  /** The six hashes of Perlin.cpp:75-80. */
  datatype Hashes = Hashes(a: int, b: int, aa: int, ab: int, ba: int, bb: int)

  /** The corner hashing: two nested lookups per axis. Every hash, and every
      hash plus one, indexes the 512-entry table: table entries are at most
      255 and cell coordinates at most 255, so no hash exceeds 510. */
  function CornerHashes(p: seq<Byte>, X: int, Y: int, Z: int): (c: Hashes)
    requires |p| == 512
    requires 0 <= X <= 255 && 0 <= Y <= 255 && 0 <= Z <= 255
    ensures 0 <= c.a <= 510 && 0 <= c.b <= 510
    ensures 0 <= c.aa <= 510 && 0 <= c.ab <= 510 && 0 <= c.ba <= 510 && 0 <= c.bb <= 510
  {
    var A := p[X] + Y;
    var B := p[X + 1] + Y;
    Hashes(A, B, p[A] + Z, p[A + 1] + Z, p[B] + Z, p[B + 1] + Z)
  }

  /** Three rounds of interpolation with weights in [0, 1] keep eight
      values of [-2, 2] within [-2, 2]. */
  lemma TrilinearBound(u: real, v: real, w: real, g0: real, g1: real, g2: real, g3: real,
                       g4: real, g5: real, g6: real, g7: real)
    ensures
      && 0.0 <= u <= 1.0 && 0.0 <= v <= 1.0 && 0.0 <= w <= 1.0
      && -2.0 <= g0 <= 2.0 && -2.0 <= g1 <= 2.0 && -2.0 <= g2 <= 2.0 && -2.0 <= g3 <= 2.0
      && -2.0 <= g4 <= 2.0 && -2.0 <= g5 <= 2.0 && -2.0 <= g6 <= 2.0 && -2.0 <= g7 <= 2.0
      ==>
      -2.0 <= Lerp(w, Lerp(v, Lerp(u, g0, g1), Lerp(u, g2, g3)),
                      Lerp(v, Lerp(u, g4, g5), Lerp(u, g6, g7))) <= 2.0
  {
    if && 0.0 <= u <= 1.0 && 0.0 <= v <= 1.0 && 0.0 <= w <= 1.0
       && -2.0 <= g0 <= 2.0 && -2.0 <= g1 <= 2.0 && -2.0 <= g2 <= 2.0 && -2.0 <= g3 <= 2.0
       && -2.0 <= g4 <= 2.0 && -2.0 <= g5 <= 2.0 && -2.0 <= g6 <= 2.0 && -2.0 <= g7 <= 2.0
    {
      LerpBound(u, g0, g1, 2.0);
      LerpBound(u, g2, g3, 2.0);
      LerpBound(u, g4, g5, 2.0);
      LerpBound(u, g6, g7, 2.0);
      LerpBound(v, Lerp(u, g0, g1), Lerp(u, g2, g3), 2.0);
      LerpBound(v, Lerp(u, g4, g5), Lerp(u, g6, g7), 2.0);
      LerpBound(w, Lerp(v, Lerp(u, g0, g1), Lerp(u, g2, g3)), Lerp(v, Lerp(u, g4, g5), Lerp(u, g6, g7)), 2.0);
    }
  }

  /** The blend of Perlin.cpp:83-111 for the cell (X, Y, Z) and the offset
      (fx, fy, fz) inside it: the eight corner gradients, interpolated along
      x, then y, then z with the faded offsets. For offsets in the unit cube
      every corner gradient is at most 2 in magnitude and each
      interpolation stays between its ends, so the blend is in [-2, 2]. At
      the cell's own corner every fade is 0, so the blend is that corner's
      gradient, which is 0 there. */
  function Blend(p: seq<Byte>, X: int, Y: int, Z: int, fx: real, fy: real, fz: real): (r: real)
    requires |p| == 512
    requires 0 <= X <= 255 && 0 <= Y <= 255 && 0 <= Z <= 255
    ensures 0.0 <= fx <= 1.0 && 0.0 <= fy <= 1.0 && 0.0 <= fz <= 1.0 ==> -2.0 <= r <= 2.0
    ensures fx == 0.0 && fy == 0.0 && fz == 0.0 ==> r == 0.0
  {
    var u, v, w := Fade(fx), Fade(fy), Fade(fz);
    var c := CornerHashes(p, X, Y, Z);
    var g0, g1 := Grad(p[c.aa], fx, fy, fz), Grad(p[c.ba], fx - 1.0, fy, fz);
    var g2, g3 := Grad(p[c.ab], fx, fy - 1.0, fz), Grad(p[c.bb], fx - 1.0, fy - 1.0, fz);
    var g4, g5 := Grad(p[c.aa + 1], fx, fy, fz - 1.0), Grad(p[c.ba + 1], fx - 1.0, fy, fz - 1.0);
    var g6, g7 := Grad(p[c.ab + 1], fx, fy - 1.0, fz - 1.0), Grad(p[c.bb + 1], fx - 1.0, fy - 1.0, fz - 1.0);
    FadeBounds(fx);
    FadeBounds(fy);
    FadeBounds(fz);
    TrilinearBound(u, v, w, g0, g1, g2, g3, g4, g5, g6, g7);
    Lerp(w, Lerp(v, Lerp(u, g0, g1), Lerp(u, g2, g3)), Lerp(v, Lerp(u, g4, g5), Lerp(u, g6, g7)))
  }

  /** The offset of v inside its lattice cell, in [0, 1). */
  function Offset(v: real): (f: real)
    ensures 0.0 <= f < 1.0
  {
    v - v.Floor as real
  }

  /** Generator::get on a table: the noise value at (x, y, z). Only the
      exact-arithmetic bound |noise| <= 2 is claimed here. */
  function GradientNoise(p: seq<Byte>, x: real, y: real, z: real): (r: real)
    requires IsTable(p)
    ensures -2.0 <= r <= 2.0
  {
    var X, Y, Z := Wrap(x.Floor), Wrap(y.Floor), Wrap(z.Floor);
    var fx, fy, fz := Offset(x), Offset(y), Offset(z);
    Blend(p, X, Y, Z, fx, fy, fz)
  }

  /** At a lattice point (integer coordinates) the noise is 0. */
  lemma NoiseAtLattice(p: seq<Byte>, x: int, y: int, z: int)
    requires IsTable(p)
    ensures GradientNoise(p, x as real, y as real, z as real) == 0.0
  {
    assert (x as real).Floor == x && (y as real).Floor == y && (z as real).Floor == z;
  }

  /** The noise repeats every 256 cells along x: the cell coordinate is
      wrapped by `& 255` and the offset inside the cell is unchanged. */
  lemma PeriodicInX(p: seq<Byte>, x: real, y: real, z: real)
    requires IsTable(p)
    ensures GradientNoise(p, x + 256.0, y, z) == GradientNoise(p, x, y, z)
  {
    assert (x + 256.0).Floor == x.Floor + 256;
    assert Wrap(x.Floor + 256) == Wrap(x.Floor);
    assert Offset(x + 256.0) == Offset(x);
  }

  /* ---------------------------------------------------------------------
     Perlin::Generator (Perlin.cpp:6-55)
     --------------------------------------------------------------------- */

  /** Ken Perlin's reference permutation of 0..255. That the literal is a
      permutation is checked by computation against its inverse, the
      position of each byte value. */
  method ReferencePermutation() returns (q: seq<Byte>)
    ensures IsBytePermutation(q)
    ensures q[0] == 151 && q[1] == 160 && q[254] == 156 && q[255] == 180
  {
    var reference := new Byte[] [
      151, 160, 137,  91,  90,  15, 131,  13, 201,  95,  96,  53, 194, 233,   7, 225,
      140,  36, 103,  30,  69, 142,   8,  99,  37, 240,  21,  10,  23, 190,   6, 148,
      247, 120, 234,  75,   0,  26, 197,  62,  94, 252, 219, 203, 117,  35,  11,  32,
       57, 177,  33,  88, 237, 149,  56,  87, 174,  20, 125, 136, 171, 168,  68, 175,
       74, 165,  71, 134, 139,  48,  27, 166,  77, 146, 158, 231,  83, 111, 229, 122,
       60, 211, 133, 230, 220, 105,  92,  41,  55,  46, 245,  40, 244, 102, 143,  54,
       65,  25,  63, 161,   1, 216,  80,  73, 209,  76, 132, 187, 208,  89,  18, 169,
      200, 196, 135, 130, 116, 188, 159,  86, 164, 100, 109, 198, 173, 186,   3,  64,
       52, 217, 226, 250, 124, 123,   5, 202,  38, 147, 118, 126, 255,  82,  85, 212,
      207, 206,  59, 227,  47,  16,  58,  17, 182, 189,  28,  42, 223, 183, 170, 213,
      119, 248, 152,   2,  44, 154, 163,  70, 221, 153, 101, 155, 167,  43, 172,   9,
      129,  22,  39, 253,  19,  98, 108, 110,  79, 113, 224, 232, 178, 185, 112, 104,
      218, 246,  97, 228, 251,  34, 242, 193, 238, 210, 144,  12, 191, 179, 162, 241,
       81,  51, 145, 235, 249,  14, 239, 107,  49, 192, 214,  31, 181, 199, 106, 157,
      184,  84, 204, 176, 115, 121,  50,  45, 127,   4, 150, 254, 138, 236, 205,  93,
      222, 114,  67,  29,  24,  72, 243, 141, 128, 195,  78,  66, 215,  61, 156, 180
    ];
    ghost var positions := new Byte[] [
       36, 100, 163, 126, 233, 134,  30,  14,  22, 175,  27,  46, 203,   7, 213,   5,
      149, 151, 110, 180,  57,  26, 177,  28, 244,  97,  37,  70, 154, 243,  19, 219,
       47,  50, 197,  45,  17,  24, 136, 178,  91,  87, 155, 173, 164, 231,  89, 148,
       69, 216, 230, 209, 128,  11,  95,  88,  54,  48, 150, 146,  80, 253,  39,  98,
      127,  96, 251, 242,  62,  20, 167,  66, 245, 103,  64,  35, 105,  72, 250, 184,
      102, 208, 141,  76, 225, 142, 119,  55,  51, 109,   4,   3,  86, 239,  40,   9,
       10, 194, 181,  23, 121, 170,  93,  18, 191,  85, 222, 215, 182, 122, 183,  77,
      190, 185, 241, 228, 116,  44, 138, 160,  33, 229,  79, 133, 132,  58, 139, 232,
      248, 176, 115,   6, 106,  82,  67, 114,  59,   2, 236,  68,  16, 247,  21,  94,
      202, 210,  73, 137,  31,  53, 234,   0, 162, 169, 165, 171, 254, 223,  74, 118,
        1,  99, 206, 166, 120,  65,  71, 172,  61, 111, 158,  60, 174, 124,  56,  63,
      227,  49, 188, 205, 255, 220, 152, 157, 224, 189, 125, 107, 117, 153,  29, 204,
      217, 199,  12, 249, 113,  38, 123, 221, 112,   8, 135,  43, 226, 238, 145, 144,
      108, 104, 201,  81, 143, 159, 218, 252, 101, 129, 192,  42,  84, 168, 240, 156,
      186,  15, 130, 147, 195,  78,  83,  75, 187,  13,  34, 211, 237,  52, 200, 214,
       25, 207, 198, 246,  92,  90, 193,  32, 161, 212, 131, 196,  41, 179, 235, 140
    ];
    assert forall i :: 0 <= i < 256 ==> positions[reference[i]] == i;
    q := reference[..];
    forall i, j | 0 <= i < j < |q|
      ensures q[i] != q[j]
    {
      assert positions[q[i]] == i && positions[q[j]] == j;
    }
    DistinctBytesArePermutation(q);
  }

  /** A noise generator: its permutation table and nothing else. */
  class Generator {
    var permutation: seq<Byte>

    ghost predicate Valid()
      reads this
    {
      IsTable(permutation)
    }

    /** Generator(): Ken Perlin's reference permutation, duplicated. */
    constructor ()
      ensures Valid()
      ensures permutation[0] == 151 && permutation[1] == 160
      ensures permutation[254] == 156 && permutation[255] == 180
    {
      var q := ReferencePermutation();
      DuplicatedIsTable(q);
      var table := q + q;
      assert IsTable(table);
      permutation := table;
    }

    /** Generator(seed): 0..255 (std::iota), shuffled in place with an
        engine seeded by `seed` (std::shuffle), then duplicated. Two
        generators built from the same seed and engine have the same
        table. */
    constructor Seeded(seed: U32, engine: Engine)
      ensures Valid() && permutation == SeededTable(seed, engine)
    {
      var q := ShuffledIota(seed, engine);
      var table := q + q;
      assert table == SeededTable(seed, engine);
      permutation := table;
    }

    /** Generator::get: in exact arithmetic the noise lies in [-2, 2]. */
    function Get(x: real, y: real, z: real): (r: real)
      reads this
      requires Valid()
      ensures -2.0 <= r <= 2.0
    {
      GradientNoise(permutation, x, y, z)
    }
  }

  /* ---------------------------------------------------------------------
     Perlin::Noise (Perlin.cpp:132-218)
     --------------------------------------------------------------------- */

  /** b^n, for `pow(2, i)` and the running amplitude persistence^i. */
  function Pow(b: real, n: nat): real
  {
    if n == 0 then 1.0 else Pow(b, n - 1) * b
  }

  /** `std::max(-1.0, std::min(1.0, v))`. */
  function Clamp(v: real): (r: real)
    ensures -1.0 <= r <= 1.0
    ensures -1.0 <= v <= 1.0 ==> r == v
    ensures v > 1.0 ==> r == 1.0
    ensures v < -1.0 ==> r == -1.0
  {
    var m := if 1.0 < v then 1.0 else v;
    if m < -1.0 then -1.0 else m
  }

  /** The coordinate at which octave i samples the noise for cell
      coordinate c of a map of the given size. */
  function Sample(c: nat, frequency: real, i: nat, size: nat): real
    requires size > 0
  {
    c as real * frequency * Pow(2.0, i) / size as real
  }

  /** The noise octave i reads for cell (x, y) of a w x h map: the noise at
      the cell's sample point in layer z = i. */
  function Layer(p: seq<Byte>, x: nat, y: nat, w: nat, h: nat, frequency: real, i: nat): real
    requires IsTable(p) && w > 0 && h > 0
  {
    GradientNoise(p, Sample(x, frequency, i, w), Sample(y, frequency, i, h), i as real)
  }

  /** The layers of the first n octaves of cell (x, y). */
  function Layers(p: seq<Byte>, x: nat, y: nat, w: nat, h: nat, frequency: real, n: nat): (s: seq<real>)
    requires IsTable(p) && w > 0 && h > 0
    ensures |s| == n
  {
    seq(n, i requires 0 <= i < n => Layer(p, x, y, w, h, frequency, i))
  }

  /** Layer value v of octave i weighted by persistence^i. */
  function Weighted(persistence: real, i: nat, v: real): real
  {
    Pow(persistence, i) * v
  }

  /** The sum over i < |s| of persistence^i * s[i]. */
  function WeightedSum(s: seq<real>, persistence: real): real
  {
    if |s| == 0 then 0.0
    else WeightedSum(s[..|s| - 1], persistence) + Weighted(persistence, |s| - 1, s[|s| - 1])
  }

  /** The octave sum of cell (x, y): its first n layers weighted by the
      powers of the persistence. */
  function OctaveSum(p: seq<Byte>, x: nat, y: nat, w: nat, h: nat,
                     frequency: real, persistence: real, n: nat): real
    requires IsTable(p) && w > 0 && h > 0
  {
    WeightedSum(Layers(p, x, y, w, h, frequency, n), persistence)
  }

  /** One turn of generate's octave loop: adding amplitude times layer i
      extends the weighted sum of the first i layers by one, and
      multiplying the amplitude by the persistence gives the next power. */
  lemma OctaveStep(s: seq<real>, persistence: real, i: nat, value: real, amplitude: real, noise: real)
    requires i < |s| && noise == s[i]
    requires value == WeightedSum(s[..i], persistence)
    requires amplitude == Pow(persistence, i)
    ensures value + amplitude * noise == WeightedSum(s[..i + 1], persistence)
    ensures amplitude * persistence == Pow(persistence, i + 1)
  {
    WeightedSumSnoc(s, persistence, i);
    assert Weighted(persistence, i, s[i]) == amplitude * noise;
  }

  /** The weighted sum of a prefix one longer adds one term. */
  lemma WeightedSumSnoc(s: seq<real>, persistence: real, i: nat)
    requires i < |s|
    ensures WeightedSum(s[..i + 1], persistence) == WeightedSum(s[..i], persistence) + Weighted(persistence, i, s[i])
  {
    var t := s[..i + 1];
    assert t[..|t| - 1] == s[..i];
  }

  /** A weighted sum of zeros is zero. */
  lemma {:induction false} WeightedSumOfZeros(s: seq<real>, persistence: real)
    requires forall i :: 0 <= i < |s| ==> s[i] == 0.0
    ensures WeightedSum(s, persistence) == 0.0
  {
    if |s| > 0 {
      WeightedSumOfZeros(s[..|s| - 1], persistence);
      assert Weighted(persistence, |s| - 1, s[|s| - 1]) == 0.0 by {
        MulZero(Pow(persistence, |s| - 1), s[|s| - 1]);
      }
    }
  }

  /** Every cell of a noise map is in [-1, 1]. */
  ghost predicate InUnitRange(s: seq<real>)
  {
    forall k :: 0 <= k < |s| ==> -1.0 <= s[k] <= 1.0
  }

  /** The value generate stores in cell (x, y). */
  function CellValue(p: seq<Byte>, x: nat, y: nat, w: nat, h: nat,
                     frequency: real, octaves: nat, persistence: real): (r: real)
    requires IsTable(p) && w > 0 && h > 0
    ensures -1.0 <= r <= 1.0
  {
    Clamp(OctaveSum(p, x, y, w, h, frequency, persistence, octaves))
  }

  /** The cell (x, y) of a w x h map that generate's loops write: the loops
      run their `y` below the width and their `x` below the height
      (Perlin.cpp:192-193) and `set` drops cells outside the map, so only
      the square of side min(w, h) is written. */
  predicate Written(w: nat, h: nat, x: nat, y: nat)
  {
    x < w && y < h && x < h && y < w
  }

  /** The map generate leaves behind, given the resized map `base`. */
  function GeneratedMap(base: seq<real>, w: nat, h: nat, frequency: real, octaves: nat,
                        persistence: real, p: seq<Byte>): (r: seq<real>)
    requires |base| == w * h && IsTable(p)
    ensures |r| == |base|
    ensures InUnitRange(base) ==> InUnitRange(r)
  {
    if octaves == 0 then base
    else
      seq(w * h, k requires 0 <= k < w * h =>
        Grid.IndexOf(w, h, k);
        if Written(w, h, k % w, k / w)
        then CellValue(p, k % w, k / w, w, h, frequency, octaves, persistence)
        else base[k])
  }

  /** With at least one octave, generate writes exactly the cells with
      both coordinates below min(width, height), each with its clamped
      octave sum in [-1, 1]; every other cell keeps what the resize left. */
  lemma GeneratedCell(base: seq<real>, w: nat, h: nat, frequency: real, octaves: nat,
                      persistence: real, p: seq<Byte>, x: nat, y: nat)
    requires |base| == w * h && IsTable(p) && octaves > 0
    requires x < w && y < h
    ensures Grid.Index(w, x, y) < w * h
    ensures Written(w, h, x, y) <==> x < w && y < w && x < h && y < h
    ensures GeneratedMap(base, w, h, frequency, octaves, persistence, p)[Grid.Index(w, x, y)]
         == if Written(w, h, x, y)
            then CellValue(p, x, y, w, h, frequency, octaves, persistence)
            else base[Grid.Index(w, x, y)]
    ensures Written(w, h, x, y) ==>
      -1.0 <= GeneratedMap(base, w, h, frequency, octaves, persistence, p)[Grid.Index(w, x, y)] <= 1.0
  {
    var k := Grid.Index(w, x, y);
    Grid.IndexInBounds(w, h, x, y);
    Grid.IndexOf(w, h, k);
    Grid.IndexInjective(w, x, y, k % w, k / w);
  }

  /** The cell at the origin samples every octave at a lattice point, so
      a generated map holds 0.0 there, whatever the seed. */
  lemma OriginIsZero(p: seq<Byte>, w: nat, h: nat, frequency: real, persistence: real, n: nat)
    requires IsTable(p) && w > 0 && h > 0
    ensures OctaveSum(p, 0, 0, w, h, frequency, persistence, n) == 0.0
  {
    var s := Layers(p, 0, 0, w, h, frequency, n);
    forall i | 0 <= i < n
      ensures s[i] == 0.0
    {
      LayerAtOrigin(p, w, h, frequency, i);
    }
    WeightedSumOfZeros(s, persistence);
  }

  /** Every layer of the origin cell is 0. */
  lemma LayerAtOrigin(p: seq<Byte>, w: nat, h: nat, frequency: real, i: nat)
    requires IsTable(p) && w > 0 && h > 0
    ensures Layer(p, 0, 0, w, h, frequency, i) == 0.0
  {
    SampleAtZero(frequency, i, w);
    SampleAtZero(frequency, i, h);
    NoiseAtLattice(p, 0, 0, i);
  }

  lemma MulZero(a: real, b: real)
    requires b == 0.0
    ensures a * b == 0.0
  {
  }

  /** Coordinate 0 samples at 0 in every octave. */
  lemma SampleAtZero(frequency: real, i: nat, size: nat)
    requires size > 0
    ensures Sample(0, frequency, i, size) == 0.0
  {
  }

  /** When the map is square, generate writes every cell. */
  lemma SquareIsCovered(w: nat, x: nat, y: nat)
    requires x < w && y < w
    ensures Written(w, w, x, y)
  {
  }

  /** When width exceeds height, the cell at column `height` of row 0 is
      inside the map but never written. */
  lemma WideMapMissesCell(w: nat, h: nat)
    requires h < w && 0 < h
    ensures Grid.Index(w, h, 0) < w * h && !Written(w, h, h, 0)
  {
    Grid.IndexInBounds(w, h, h, 0);
  }

  /** Progress of generate's loops: the cells visited before (row, col) in
      the loops' order hold their values, the rest hold `base`. */
  ghost predicate Progress(values: seq<real>, base: seq<real>, w: nat, h: nat, frequency: real,
                           octaves: nat, persistence: real, p: seq<Byte>, row: nat, col: nat)
    requires |values| == w * h && |base| == w * h && IsTable(p)
  {
    forall cx: nat, cy: nat :: cx < w && cy < h ==>
      Grid.At(values, w, h, cx, cy, 0.0) ==
        if Written(w, h, cx, cy) && (cy < row || (cy == row && cx < col))
        then CellValue(p, cx, cy, w, h, frequency, octaves, persistence)
        else Grid.At(base, w, h, cx, cy, 0.0)
  }

  /** One step of the inner loop: `set(col, row, value)` after the cells
      before it. */
  lemma ProgressStep(values: seq<real>, base: seq<real>, w: nat, h: nat, frequency: real,
                     octaves: nat, persistence: real, p: seq<Byte>, row: nat, col: nat)
    requires |values| == w * h && |base| == w * h && IsTable(p)
    requires row < w && col < h
    requires Progress(values, base, w, h, frequency, octaves, persistence, p, row, col)
    ensures Progress(Grid.Put(values, w, h, col, row, CellValue(p, col, row, w, h, frequency, octaves, persistence)),
                     base, w, h, frequency, octaves, persistence, p, row, col + 1)
  {
    var v := CellValue(p, col, row, w, h, frequency, octaves, persistence);
    forall cx: nat, cy: nat | cx < w && cy < h
      ensures Grid.At(Grid.Put(values, w, h, col, row, v), w, h, cx, cy, 0.0) ==
        if Written(w, h, cx, cy) && (cy < row || (cy == row && cx < col + 1))
        then CellValue(p, cx, cy, w, h, frequency, octaves, persistence)
        else Grid.At(base, w, h, cx, cy, 0.0)
    {
      Grid.AtPut(values, w, h, col, row, v, cx, cy, 0.0);
    }
  }

  /** When the loops are done, the map is GeneratedMap. */
  lemma ProgressDone(values: seq<real>, base: seq<real>, w: nat, h: nat, frequency: real,
                     octaves: nat, persistence: real, p: seq<Byte>)
    requires |values| == w * h && |base| == w * h && IsTable(p) && octaves > 0
    requires Progress(values, base, w, h, frequency, octaves, persistence, p, w, 0)
    ensures values == GeneratedMap(base, w, h, frequency, octaves, persistence, p)
  {
    var g := GeneratedMap(base, w, h, frequency, octaves, persistence, p);
    forall x: nat, y: nat | x < w && y < h && Grid.Index(w, x, y) < |values|
      ensures values[Grid.Index(w, x, y)] == g[Grid.Index(w, x, y)]
    {
      GeneratedCell(base, w, h, frequency, octaves, persistence, p, x, y);
      assert Grid.At(values, w, h, x, y, 0.0) == values[Grid.Index(w, x, y)];
    }
    Grid.Extensional(values, g, w, h);
  }

  /** The octave loop of generate for cell (x, y): the weighted sum of the
      first `octaves` octaves, before clamping. */
  method OctaveNoise(perlin: Generator, x: Grid.U16, y: Grid.U16, w: Grid.U16, h: Grid.U16,
                     frequency: real, octaves: U32, persistence: real) returns (value: real)
    requires perlin.Valid() && w > 0 && h > 0
    ensures value == OctaveSum(perlin.permutation, x, y, w, h, frequency, persistence, octaves)
  {
    ghost var s := Layers(perlin.permutation, x, y, w, h, frequency, octaves);
    value := 0.0;
    var amplitude := 1.0;
    for i := 0 to octaves
      invariant value == WeightedSum(s[..i], persistence)
      invariant amplitude == Pow(persistence, i)
    {
      var noise := perlin.Get(Sample(x, frequency, i, w), Sample(y, frequency, i, h), i as real);
      assert noise == s[i];
      OctaveStep(s, persistence, i, value, amplitude, noise);
      value := value + amplitude * noise;
      amplitude := amplitude * persistence;
    }
    assert s[..octaves] == s;
  }

  /** A noise map: width * height doubles in row-major order. The source
      calls the vector `map`, a reserved word here. */
  class Noise {
    var values: seq<real>
    var width: Grid.U16
    var height: Grid.U16

    /** The map holds width * height cells, each in [-1, 1]: new cells
        are 0.0 and every cell written holds a clamped value. */
    ghost predicate Valid()
      reads this
    {
      |values| == width * height && InUnitRange(values)
    }

    /** Noise(): an empty 0 x 0 map. */
    constructor ()
      ensures Valid() && width == 0 && height == 0 && values == []
    {
      values, width, height := [], 0, 0;
    }

    /** Noise(width, height, frequency, octaves, persistence, seed): an
        empty map on which generate runs at once. */
    constructor Generated(w: Grid.U16, h: Grid.U16, frequency: real, octaves: U32,
                          persistence: real, seed: U32, engine: Engine)
      ensures Valid() && width == w && height == h
      ensures values == GeneratedMap(seq(w * h, _ => 0.0), w, h, frequency, octaves,
                                     persistence, SeededTable(seed, engine))
    {
      values, width, height := [], 0, 0;
      new;
      Generate(w, h, frequency, octaves, persistence, seed, engine);
      assert Grid.Resized([], w * h, 0.0) == seq(w * h, _ => 0.0);
    }

    /** Noise::get: 0.0 outside the map, the stored cell inside; either
        way a value in [-1, 1]. */
    function Get(x: Grid.U16, y: Grid.U16): (r: real)
      reads this
      requires Valid()
      ensures -1.0 <= r <= 1.0
      ensures x >= width || y >= height ==> r == 0.0
      ensures x < width && y < height ==>
        Grid.Index(width, x, y) < |values| && r == values[Grid.Index(width, x, y)]
    {
      Grid.At(values, width, height, x, y, 0.0)
    }

    /** Noise::set: cells outside the map are ignored. The method is
        private, and its one caller passes a clamped value. */
    method Set(x: Grid.U16, y: Grid.U16, value: real)
      requires Valid() && -1.0 <= value <= 1.0
      modifies this
      ensures Valid() && width == old(width) && height == old(height)
      ensures values == Grid.Put(old(values), width, height, x, y, value)
    {
      if x >= width || y >= height {
        return;
      }
      Grid.IndexInBounds(width, height, x, y);
      values := values[Grid.Index(width, x, y) := value];
    }

    /** Noise::resize: new dimensions, and std::vector::resize of the flat
        vector (old prefix kept, new cells 0.0). */
    method Resize(w: Grid.U16, h: Grid.U16)
      requires Valid()
      modifies this
      ensures Valid() && width == w && height == h
      ensures values == Grid.Resized(old(values), w * h, 0.0)
    {
      width := w;
      height := h;
      values := Grid.Resized(values, w * h, 0.0);
    }

    /** Noise::generate: resize, then (with at least one octave) fill the
        cells the loops reach with the clamped octave sums of a generator
        seeded with `seed`. */
    method Generate(w: Grid.U16, h: Grid.U16, frequency: real, octaves: U32,
                    persistence: real, seed: U32, engine: Engine)
      requires Valid()
      modifies this
      ensures Valid() && width == w && height == h
      ensures values == GeneratedMap(Grid.Resized(old(values), w * h, 0.0), w, h, frequency,
                                     octaves, persistence, SeededTable(seed, engine))
    {
      Resize(w, h);
      if octaves == 0 {
        return;
      }
      var perlin := new Generator.Seeded(seed, engine);
      ghost var p := perlin.permutation;
      ghost var base := values;
      var y := 0;
      while y < width
        invariant Valid() && width == w && height == h && |base| == w * h
        invariant perlin.Valid() && perlin.permutation == p
        invariant 0 <= y <= w
        invariant Progress(values, base, w, h, frequency, octaves, persistence, p, y, 0)
      {
        var x := 0;
        while x < height
          invariant Valid() && width == w && height == h
          invariant perlin.Valid() && perlin.permutation == p
          invariant 0 <= x <= h
          invariant Progress(values, base, w, h, frequency, octaves, persistence, p, y, x)
        {
          var value := OctaveNoise(perlin, x, y, width, height, frequency, octaves, persistence);
          value := Clamp(value);
          ProgressStep(values, base, w, h, frequency, octaves, persistence, p, y, x);
          Set(x, y, value);
          x := x + 1;
        }
        assert Progress(values, base, w, h, frequency, octaves, persistence, p, y + 1, 0);
        y := y + 1;
      }
      ProgressDone(values, base, w, h, frequency, octaves, persistence, p);
    }
  }
}
