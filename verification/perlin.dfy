/**
  The integer lattice and hash layer of the 2D gradient noise (perlin.py),
  with the polynomial helpers and the octave normaliser over exact reals.
  The base permutation produced by NumPy's seeded shuffle is an input.
 */
module Perlin {
  import opened Wrappers
  import opened Arith

  // ---------------------------------------------------------------------
  // fade / lerp (perlin.py lines 3-8)
  // ---------------------------------------------------------------------

  /** The quintic smoothstep 6t^5 - 15t^4 + 10t^3, in the source's Horner form. */
  function Fade(t: real): (r: real)
    ensures r == 6.0 * t * t * t * t * t - 15.0 * t * t * t * t + 10.0 * t * t * t
    ensures t == 0.0 ==> r == 0.0
    ensures t == 1.0 ==> r == 1.0
  {
    t * t * t * (t * (t * 6.0 - 15.0) + 10.0)
  }

  /** Linear interpolation from a (at x = 0) to b (at x = 1). */
  function Lerp(a: real, b: real, x: real): (r: real)
    ensures x == 0.0 ==> r == a
    ensures x == 1.0 ==> r == b
  {
    a + x * (b - a)
  }

  /** fade is point-symmetric about (1/2, 1/2). */
  lemma FadeSymmetric(t: real)
    ensures Fade(1.0 - t) == 1.0 - Fade(t)
  {
  }

  /** fade is non-negative for non-negative arguments. */
  lemma FadeNonNegative(t: real)
    requires t >= 0.0
    ensures Fade(t) >= 0.0
  {
    var q := t * (t * 6.0 - 15.0) + 10.0;
    assert q == 6.0 * (t - 1.25) * (t - 1.25) + 0.625;
    assert q > 0.0;
    assert t * t >= 0.0;
    assert t * t * t >= 0.0;
  }

  /** fade maps the unit interval into itself, so u and v are valid weights. */
  lemma FadeInUnitInterval(t: real)
    requires 0.0 <= t <= 1.0
    ensures 0.0 <= Fade(t) <= 1.0
  {
    FadeNonNegative(t);
    FadeNonNegative(1.0 - t);
    FadeSymmetric(t);
  }

  lemma NonNegativeProduct(a: real, b: real)
    requires a >= 0.0 && b >= 0.0
    ensures a * b >= 0.0
  {
  }

  /** With a weight in [0,1], lerp stays between its endpoints. */
  lemma LerpBetween(a: real, b: real, x: real)
    requires 0.0 <= x <= 1.0
    ensures a <= b ==> a <= Lerp(a, b, x) <= b
    ensures b <= a ==> b <= Lerp(a, b, x) <= a
  {
    var d := b - a;
    assert x * d + (1.0 - x) * d == d;
    if a <= b {
      NonNegativeProduct(x, d);
      NonNegativeProduct(1.0 - x, d);
    } else {
      NonNegativeProduct(x, -d);
      NonNegativeProduct(1.0 - x, -d);
    }
  }

  // ---------------------------------------------------------------------
  // gradient (perlin.py lines 10-16)
  // ---------------------------------------------------------------------

  /** The eight gradient directions, in the source's order. */
  const GradientVectors: seq<(int, int)> :=
    [(1, 1), (-1, 1), (1, -1), (-1, -1), (1, 0), (-1, 0), (0, 1), (0, -1)]

  /** The gradient picked by hash h: `vectors[h % 8]` (Python's % is floored, as Dafny's is here). */
  function GradientVector(h: int): (g: (int, int))
    ensures -1 <= g.0 <= 1 && -1 <= g.1 <= 1
    ensures g != (0, 0)
    ensures g in GradientVectors
  {
    var k := h % 8;
    assert 0 <= k < |GradientVectors|;
    GradientVectors[k]
  }

  /** Dot product of the selected gradient with the offset (x, y). */
  function Gradient(h: int, x: real, y: real): (r: real)
    ensures x == 0.0 && y == 0.0 ==> r == 0.0
  {
    var g := GradientVector(h);
    (g.0 as real) * x + (g.1 as real) * y
  }

  // ---------------------------------------------------------------------
  // Bitwise AND with a non-negative mask (Python's unbounded two's complement)
  // ---------------------------------------------------------------------

  /** `a & m` for any integer a and any non-negative mask m, one bit at a time. */
  function BitAnd(a: int, m: nat): (r: nat)
    ensures r <= m
    decreases m
  {
    if m == 0 then 0
    else
      var rest := BitAnd(a / 2, m / 2);
      2 * rest + (if a % 2 == 1 && m % 2 == 1 then 1 else 0)
  }

  /** An odd mask keeps the low bit and masks the rest with the halved mask. */
  lemma BitAndOddMask(a: int, m: nat)
    requires m % 2 == 1
    ensures BitAnd(a, m) == 2 * BitAnd(a / 2, m / 2) + a % 2
  {
  }

  /** If masking with P - 1 reduces mod P, masking with M - 1 = 2P - 1 reduces mod M. */
  lemma BitAndMaskStep(a: int, P: int, M: int)
    requires P >= 1 && M == 2 * P
    requires BitAnd(a / 2, P - 1) == (a / 2) % P
    ensures BitAnd(a, M - 1) == a % M
  {
    var m := M - 1;
    ModUnique(m, 2, P - 1, 1);
    BitAndOddMask(a, m);
    ModDouble(a, P);
  }

  /** Masking with 255 keeps the low byte: `a & 255 == a mod 256`, for negative a too. */
  lemma BitAndLowByte(a: int)
    ensures BitAnd(a, 255) == a % 256
  {
    var a1 := a / 2;
    var a2 := a1 / 2;
    var a3 := a2 / 2;
    var a4 := a3 / 2;
    var a5 := a4 / 2;
    var a6 := a5 / 2;
    var a7 := a6 / 2;
    var a8 := a7 / 2;
    assert BitAnd(a8, 0) == a8 % 1;
    BitAndMaskStep(a7, 1, 2);
    BitAndMaskStep(a6, 2, 4);
    BitAndMaskStep(a5, 4, 8);
    BitAndMaskStep(a4, 8, 16);
    BitAndMaskStep(a3, 16, 32);
    BitAndMaskStep(a2, 32, 64);
    BitAndMaskStep(a1, 64, 128);
    BitAndMaskStep(a, 128, 256);
  }

  // ---------------------------------------------------------------------
  // Lattice indices (perlin.py lines 20-24)
  // ---------------------------------------------------------------------

  /** The mask `perlin_2d` applies to lattice coordinates. */
  const LatticeMask: nat := 255

  /** `floor & 255`: the lattice coordinate reduced into the table. */
  function LatticeIndex(f: int): (i: int)
    ensures 0 <= i <= 255
    ensures i == f % 256
  {
    BitAndLowByte(f);
    BitAnd(f, LatticeMask)
  }

  /** Lattice indices are periodic with period 256, in both directions. */
  lemma LatticeIndexPeriodic(f: int, g: int, n: int)
    requires g == f + 256 * n
    ensures LatticeIndex(g) == LatticeIndex(f)
  {
    ModUnique(g, 256, f / 256 + n, f % 256);
  }

  // ---------------------------------------------------------------------
  // Permutation table (perlin.py lines 41-46)
  // ---------------------------------------------------------------------

  /** The integers 0 .. n-1 in order (`np.arange(n)`). */
  function Range(n: nat): (s: seq<int>)
    ensures |s| == n
    ensures forall i :: 0 <= i < n ==> s[i] == i
  {
    seq(n, i => i)
  }

  /** A shuffle of `np.arange(256)`: the same multiset of values. */
  ghost predicate IsPermutation256(base: seq<int>)
  {
    multiset(base) == multiset(Range(256))
  }

  /** `np.tile(p, 2)`: the base table followed by a second copy of itself. */
  function PermutationTable(base: seq<int>): (p: seq<int>)
    ensures |p| == 2 * |base|
    ensures forall i :: 0 <= i < |base| ==> p[i] == base[i] && p[i + |base|] == base[i]
  {
    base + base
  }

  /** What the hash lookups need of the table: 512 entries, each in [0,255]. */
  predicate IsHashTable(p: seq<int>)
  {
    |p| == 512 && forall i :: 0 <= i < |p| ==> 0 <= p[i] <= 255
  }

  /** Every value of a shuffled base lies in [0,255] and there are 256 of them. */
  lemma PermutationValues(base: seq<int>)
    requires IsPermutation256(base)
    ensures |base| == 256
    ensures forall i :: 0 <= i < |base| ==> 0 <= base[i] <= 255
    ensures forall v :: 0 <= v <= 255 ==> v in base
  {
    assert |multiset(base)| == |multiset(Range(256))|;
    forall i | 0 <= i < |base|
      ensures 0 <= base[i] <= 255
    {
      assert base[i] in multiset(base);
      assert base[i] in multiset(Range(256));
      assert base[i] in Range(256);
    }
    forall v | 0 <= v <= 255
      ensures v in base
    {
      assert Range(256)[v] == v;
      assert v in multiset(Range(256));
      assert v in multiset(base);
    }
  }

  /** The doubled table of a shuffle meets what the hash lookups need. */
  lemma PermutationTableIsHashTable(base: seq<int>)
    requires IsPermutation256(base)
    ensures IsHashTable(PermutationTable(base))
  {
    PermutationValues(base);
    var p := PermutationTable(base);
    forall i | 0 <= i < |p|
      ensures 0 <= p[i] <= 255
    {
      if i < 256 {
        assert p[i] == base[i];
      } else {
        assert p[(i - 256) + 256] == base[i - 256];
      }
    }
  }

  /**
    Without the doubling the double lookup would leave the table: some corner
    index `p[xi] + (yi + 1)` reaches 511 while an undoubled table has 256 entries.
   */
  lemma UndoubledTableOverflows(base: seq<int>)
    requires IsPermutation256(base)
    ensures |base| == 256
    ensures exists xi :: 0 <= xi < |base| && base[xi] + (255 + 1) == 511
  {
    PermutationValues(base);
    assert 255 in base;
    var xi :| 0 <= xi < |base| && base[xi] == 255;
    assert base[xi] + (255 + 1) == 511;
  }

  // ---------------------------------------------------------------------
  // Corner hashes (perlin.py lines 29-33)
  // ---------------------------------------------------------------------

  datatype Corners = Corners(n00: int, n01: int, n10: int, n11: int)

  /** `p[p[i] + j]`: each lookup stays inside the 512-entry table. */
  function Hash(p: seq<int>, i: int, j: int): (h: int)
    requires IsHashTable(p)
    requires 0 <= i <= 256 && 0 <= j <= 256
    ensures 0 <= h <= 255
    ensures h in p
  {
    assert 0 <= p[i] + j <= 255 + 256 < |p|;
    p[p[i] + j]
  }

  /** The four corner hashes of lattice cell (xi, yi). */
  function CornerHashes(p: seq<int>, xi: int, yi: int): (c: Corners)
    requires IsHashTable(p)
    requires 0 <= xi <= 255 && 0 <= yi <= 255
    ensures 0 <= c.n00 <= 255 && 0 <= c.n01 <= 255 && 0 <= c.n10 <= 255 && 0 <= c.n11 <= 255
  {
    Corners(Hash(p, xi, yi), Hash(p, xi, yi + 1), Hash(p, xi + 1, yi), Hash(p, xi + 1, yi + 1))
  }

  /** The corner hashes of the lattice cell holding (x, y). */
  function CellHashes(p: seq<int>, x: real, y: real): Corners
    requires IsHashTable(p)
  {
    CornerHashes(p, LatticeIndex(x.Floor), LatticeIndex(y.Floor))
  }

  /** Shifting a coordinate by a multiple of 256 leaves its lattice index unchanged. */
  lemma LatticeShift(x: real, m: int)
    ensures LatticeIndex((x + 256.0 * (m as real)).Floor) == LatticeIndex(x.Floor)
  {
    FloorShiftBy256(x, m);
    LatticeIndexPeriodic(x.Floor, (x + 256.0 * (m as real)).Floor, m);
  }

  /** Shifting either coordinate by a multiple of 256 leaves every corner hash unchanged. */
  lemma CellHashesPeriodic(p: seq<int>, x: real, y: real, m: int, n: int)
    requires IsHashTable(p)
    ensures CellHashes(p, x + 256.0 * (m as real), y + 256.0 * (n as real)) == CellHashes(p, x, y)
  {
    LatticeShift(x, m);
    LatticeShift(y, n);
  }

  lemma FloorShiftBy256(x: real, m: int)
    ensures (x + 256.0 * (m as real)).Floor == x.Floor + 256 * m
  {
    assert x + 256.0 * (m as real) == x + (256 * m) as real;
    FloorShift(x, 256 * m);
  }

  /** Adding an integer to a real adds it to the floor. */
  lemma FloorShift(x: real, k: int)
    ensures (x + k as real).Floor == x.Floor + k
  {
  }

  // ---------------------------------------------------------------------
  // perlin_2d (perlin.py lines 18-39), over exact reals
  // ---------------------------------------------------------------------

  /** The offset of x inside its lattice cell, `x - floor(x)`. */
  function Frac(x: real): (r: real)
    ensures 0.0 <= r < 1.0
  {
    x - x.Floor as real
  }

  /** Bilinear blend of the four corner gradients at offset (xf, yf) inside a cell. */
  function CellNoise(c: Corners, xf: real, yf: real): real
  {
    var u := Fade(xf);
    var v := Fade(yf);
    var x1 := Lerp(Gradient(c.n00, xf, yf), Gradient(c.n10, xf - 1.0, yf), u);
    var x2 := Lerp(Gradient(c.n01, xf, yf - 1.0), Gradient(c.n11, xf - 1.0, yf - 1.0), u);
    Lerp(x1, x2, v)
  }

  /** One octave of gradient noise at (x, y). */
  function Perlin2D(p: seq<int>, x: real, y: real): real
    requires IsHashTable(p)
  {
    CellNoise(CellHashes(p, x, y), Frac(x), Frac(y))
  }

  /** Gradient noise vanishes at every lattice point. */
  lemma Perlin2DZeroOnLattice(p: seq<int>, a: int, b: int)
    requires IsHashTable(p)
    ensures Perlin2D(p, a as real, b as real) == 0.0
  {
    assert Frac(a as real) == 0.0 && Frac(b as real) == 0.0;
  }

  /** The cell offset repeats with period 256. */
  lemma FracPeriodic(x: real, m: int)
    ensures Frac(x + 256.0 * (m as real)) == Frac(x)
  {
    FloorShiftBy256(x, m);
  }

  /** The noise field repeats every 256 units along each axis. */
  lemma Perlin2DPeriodic(p: seq<int>, x: real, y: real, m: int, n: int)
    requires IsHashTable(p)
    ensures Perlin2D(p, x + 256.0 * (m as real), y + 256.0 * (n as real)) == Perlin2D(p, x, y)
  {
    CellHashesPeriodic(p, x, y, m, n);
    FracPeriodic(x, m);
    FracPeriodic(y, n);
  }

  // ---------------------------------------------------------------------
  // generate_fractal_noise (perlin.py lines 48-58)
  // ---------------------------------------------------------------------

  function Pow(b: real, n: nat): real
  {
    if n == 0 then 1.0 else Pow(b, n - 1) * b
  }

  /** The total amplitude after n octaves: the sum of persistence^k for k < n. */
  function AmplitudeSum(persistence: real, n: nat): real
  {
    if n == 0 then 0.0 else AmplitudeSum(persistence, n - 1) + Pow(persistence, n - 1)
  }

  /** A table that meets the hash lookups' needs, as produced by `get_permutation_table`. */
  type HashTable = p: seq<int> | IsHashTable(p) witness seq(512, _ => 0)

  /** The noise primitive one octave samples: `perlin_2d(., ., p)` for a fixed table. */
  function PerlinOctave(p: HashTable): (real, real) -> real
  {
    (x: real, y: real) => Perlin2D(p, x, y)
  }

  /** A sample coordinate at a given frequency (`x * frequency`). */
  function AtFrequency(v: real, frequency: real): real
  {
    v * frequency
  }

  /** The weighted octave sum before normalisation. */
  function OctaveSum(noise: (real, real) -> real, x: real, y: real, n: nat, persistence: real, lacunarity: real): real
  {
    if n == 0 then 0.0
    else
      var f := Pow(lacunarity, n - 1);
      OctaveSum(noise, x, y, n - 1, persistence, lacunarity)
        + noise(AtFrequency(x, f), AtFrequency(y, f)) * Pow(persistence, n - 1)
  }

  /** Fractal noise: the octave sum divided by the total amplitude; None where NumPy yields NaN (division by zero). */
  function FractalNoise(noise: (real, real) -> real, x: real, y: real, octaves: nat, persistence: real, lacunarity: real): Option<real>
  {
    var m := AmplitudeSum(persistence, octaves);
    if m == 0.0 then None else Some(OctaveSum(noise, x, y, octaves, persistence, lacunarity) / m)
  }

  lemma {:induction false} PowNonNegative(b: real, n: nat)
    requires b >= 0.0
    ensures Pow(b, n) >= 0.0
  {
    if n > 0 {
      PowNonNegative(b, n - 1);
    }
  }

  /** With at least one octave and a non-negative persistence, the normaliser is at least 1. */
  lemma {:induction false} AmplitudeSumAtLeastOne(persistence: real, n: nat)
    requires n >= 1 && persistence >= 0.0
    ensures AmplitudeSum(persistence, n) >= 1.0
  {
    if n > 1 {
      AmplitudeSumAtLeastOne(persistence, n - 1);
      PowNonNegative(persistence, n - 1);
    }
  }

  /**
    The source's accumulation loop: frequency and amplitude start at 1 and are
    multiplied by lacunarity and persistence after every octave.
   */
  method GenerateFractalNoise(noise: (real, real) -> real, x: real, y: real, octaves: nat, persistence: real, lacunarity: real)
    returns (r: Option<real>)
    ensures r == FractalNoise(noise, x, y, octaves, persistence, lacunarity)
    ensures octaves >= 1 && persistence >= 0.0 ==> r.Some?
  {
    var total := 0.0;
    var frequency := 1.0;
    var amplitude := 1.0;
    var maxVal := 0.0;
    var k := 0;
    while k < octaves
      invariant 0 <= k <= octaves
      invariant frequency == Pow(lacunarity, k)
      invariant amplitude == Pow(persistence, k)
      invariant maxVal == AmplitudeSum(persistence, k)
      invariant total == OctaveSum(noise, x, y, k, persistence, lacunarity)
    {
      var sample := noise(AtFrequency(x, frequency), AtFrequency(y, frequency));
      total := total + sample * amplitude;
      maxVal := maxVal + amplitude;
      amplitude := amplitude * persistence;
      frequency := frequency * lacunarity;
      k := k + 1;
    }
    if octaves >= 1 && persistence >= 0.0 {
      AmplitudeSumAtLeastOne(persistence, octaves);
    }
    if maxVal == 0.0 {
      r := None;
    } else {
      r := Some(total / maxVal);
    }
  }
}
