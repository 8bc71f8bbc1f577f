/**
  The gradient-noise generator: a simplified two-dimensional version of
  Ken Perlin's improved noise (2002). A seed-driven shuffle builds a
  permutation of 0..255, which is doubled to 512 entries so that chained
  lookups never wrap; `Noise2D` hashes the four corners of the lattice cell
  through that table, picks one of four gradients from the two low bits of the
  hash and blends the corner dot products with the quintic fade curve.

  `java.util.Random` is replaced by the sequence of its 256 `nextInt(256)`
  draws, and doubles by exact reals.
*/
module PerlinNoise {
  import opened JavaNumeric

  const PermutationSize: int := 256
  const TableSize: int := 2 * PermutationSize

  /** The generator's state: the shuffled `permutation` and its doubled copy `p`. */
  datatype Noise = Noise(permutation: seq<int>, p: seq<int>)

  /** The hashes of one lattice cell's corners, named as in the source. */
  datatype CornerHashes = CornerHashes(a: int, aa: int, ab: int, b: int, ba: int, bb: int)

  // ---------------------------------------------------------------------------
  // Permutation table
  // ---------------------------------------------------------------------------

  /** The array `0, 1, ..., n-1` the constructor starts from. */
  function Identity(n: nat): seq<int>
  {
    seq(n, i => i)
  }

  /** `s` holds each of 0..255 exactly once. */
  ghost predicate IsPermutation(s: seq<int>)
  {
    |s| == PermutationSize && multiset(s) == multiset(Identity(PermutationSize))
  }

  /** The state every constructed generator is in. */
  ghost predicate Valid(t: Noise)
  {
    && IsPermutation(t.permutation)
    && |t.p| == TableSize
    && (forall i :: 0 <= i < TableSize ==> t.p[i] == t.permutation[i % PermutationSize])
    && (forall i :: 0 <= i < TableSize ==> 0 <= t.p[i] < PermutationSize)
  }

  /** A generator as the constructor leaves it; it never changes afterwards. */
  type Table = t: Noise | Valid(t) witness Noise(Identity(PermutationSize), seq(TableSize, i => i % PermutationSize))

  /** Exchanging two entries, as the three assignments through `temp` do. */
  function Swap(s: seq<int>, i: int, j: int): (r: seq<int>)
    requires 0 <= i < |s| && 0 <= j < |s|
    ensures |r| == |s|
    ensures multiset(r) == multiset(s)
    ensures r[i] == s[j] && r[j] == s[i]
    ensures forall k :: 0 <= k < |s| && k != i && k != j ==> r[k] == s[k]
  {
    s[i := s[j]][j := s[i]]
  }

  /**
    The permutation after the first `n` rounds of the shuffle. Round `i` swaps
    entry `i` with entry `draws[i]`, where `draws[i]` ranges over the WHOLE
    table rather than over `i..255`: this is not textbook Fisher-Yates, but
    every round is still a swap, so the result is still a permutation.
  */
  function Shuffled(draws: seq<int>, n: nat): (s: seq<int>)
    requires n <= |draws| && n <= PermutationSize
    requires forall k :: 0 <= k < |draws| ==> 0 <= draws[k] < PermutationSize
    ensures IsPermutation(s)
  {
    if n == 0 then Identity(PermutationSize)
    else Swap(Shuffled(draws, n - 1), n - 1, draws[n - 1])
  }

  lemma {:induction false} IdentityCounts(n: nat)
    ensures forall v :: multiset(Identity(n))[v] == (if 0 <= v < n then 1 else 0)
  {
    if n > 0 {
      IdentityCounts(n - 1);
      assert Identity(n) == Identity(n - 1) + [n - 1];
      assert multiset(Identity(n)) == multiset(Identity(n - 1)) + multiset{n - 1};
    }
  }

  /** An entry found at two positions occurs at least twice in the multiset. */
  lemma RepeatedEntry(s: seq<int>, i: int, j: int)
    requires 0 <= i < j < |s| && s[i] == s[j]
    ensures multiset(s)[s[i]] >= 2
  {
    assert s == s[..i] + [s[i]] + s[i + 1..j] + [s[j]] + s[j + 1..];
  }

  /** A permutation of 0..255 has its entries in range, pairwise distinct, and hits every value. */
  lemma PermutationFacts(s: seq<int>)
    requires IsPermutation(s)
    ensures forall i :: 0 <= i < |s| ==> 0 <= s[i] < PermutationSize
    ensures forall i, j :: 0 <= i < j < |s| ==> s[i] != s[j]
    ensures forall v :: 0 <= v < PermutationSize ==> v in s
  {
    IdentityCounts(PermutationSize);
    forall i | 0 <= i < |s|
      ensures 0 <= s[i] < PermutationSize
    {
      assert s[i] in multiset(s);
    }
    forall i, j | 0 <= i < j < |s|
      ensures s[i] != s[j]
    {
      if s[i] == s[j] {
        RepeatedEntry(s, i, j);
      }
    }
    forall v | 0 <= v < PermutationSize
      ensures v in s
    {
      assert v in multiset(s);
    }
  }

  /** The constructor's first loop: shuffle the identity with the 256 draws of `nextInt(256)`. */
  method Shuffle(draws: seq<int>) returns (permutation: seq<int>)
    requires |draws| == PermutationSize
    requires forall k :: 0 <= k < |draws| ==> 0 <= draws[k] < PermutationSize
    ensures IsPermutation(permutation)
    ensures permutation == Shuffled(draws, PermutationSize)
  {
    permutation := Identity(PermutationSize);
    var i := 0;
    while i < PermutationSize
      invariant 0 <= i <= PermutationSize
      invariant permutation == Shuffled(draws, i)
    {
      var j := draws[i];
      permutation := Swap(permutation, i, j);
      i := i + 1;
    }
  }

  /** The constructor's second loop: `p[i] = permutation[i % 256]` for i in 0..511. */
  method DoubleTable(permutation: seq<int>) returns (p: seq<int>)
    requires |permutation| == PermutationSize
    ensures |p| == TableSize
    ensures forall i :: 0 <= i < TableSize ==> p[i] == permutation[i % PermutationSize]
    ensures p == permutation + permutation
  {
    p := [];
    var i := 0;
    while i < TableSize
      invariant 0 <= i <= TableSize
      invariant |p| == i
      invariant forall k :: 0 <= k < i ==> p[k] == permutation[k % PermutationSize]
    {
      p := p + [permutation[i % PermutationSize]];
      i := i + 1;
    }
    assert forall k :: 0 <= k < TableSize ==> p[k] == (permutation + permutation)[k];
  }

  /** The constructor `PerlinNoise(seed)`, given the draws its `Random(seed)` produces. */
  method NewNoise(draws: seq<int>) returns (t: Table)
    requires |draws| == PermutationSize
    requires forall k :: 0 <= k < |draws| ==> 0 <= draws[k] < PermutationSize
    ensures t.permutation == Shuffled(draws, PermutationSize)
    ensures t.p == t.permutation + t.permutation
  {
    var permutation := Shuffle(draws);
    var p := DoubleTable(permutation);
    PermutationFacts(permutation);
    t := Noise(permutation, p);
  }

  /** The doubled table repeats with period 256 and only holds values of 0..255. */
  lemma TableFacts(t: Table)
    ensures forall i :: 0 <= i < PermutationSize ==> t.p[i + PermutationSize] == t.p[i]
    ensures forall v :: 0 <= v < PermutationSize ==> v in t.p[..PermutationSize]
  {
    PermutationFacts(t.permutation);
    forall i | 0 <= i < PermutationSize
      ensures t.p[i + PermutationSize] == t.p[i]
    {
      assert (i + PermutationSize) % PermutationSize == i;
    }
    assert t.p[..PermutationSize] == t.permutation;
  }

  // ---------------------------------------------------------------------------
  // The three helpers of `noise`
  // ---------------------------------------------------------------------------

  /** The quintic fade curve 6t^5 - 15t^4 + 10t^3, written in the source's Horner form. */
  function Fade(t: real): (r: real)
    ensures t == 0.0 ==> r == 0.0
    ensures t == 1.0 ==> r == 1.0
  {
    t * t * t * (t * (t * 6.0 - 15.0) + 10.0)
  }

  /** The fade curve is point-symmetric about (1/2, 1/2). */
  lemma FadeSymmetric(t: real)
    ensures Fade(1.0 - t) == 1.0 - Fade(t)
  {
  }

  lemma FadeNonNegative(t: real)
    requires 0.0 <= t
    ensures 0.0 <= Fade(t)
  {
    var q := t * (t * 6.0 - 15.0) + 10.0;
    assert q == 6.0 * (t - 1.25) * (t - 1.25) + 0.625;
    assert 0.0 < q;
    var c := t * t * t;
    assert 0.0 <= c;
    assert Fade(t) == c * q;
  }

  /** On the unit interval the fade curve stays in the unit interval. */
  lemma FadeBounds(t: real)
    requires 0.0 <= t <= 1.0
    ensures 0.0 <= Fade(t) <= 1.0
  {
    FadeNonNegative(t);
    FadeNonNegative(1.0 - t);
    FadeSymmetric(t);
  }

  /** Linear interpolation from `a` (at t = 0) to `b` (at t = 1). */
  function Lerp(t: real, a: real, b: real): (r: real)
    ensures t == 0.0 ==> r == a
    ensures t == 1.0 ==> r == b
    ensures 0.0 <= t <= 1.0 && a <= b ==> a <= r <= b
    ensures 0.0 <= t <= 1.0 && b <= a ==> b <= r <= a
  {
    ScaledBetween(t, b - a);
    a + t * (b - a)
  }

  lemma ScaledBetween(t: real, d: real)
    ensures 0.0 <= t <= 1.0 && 0.0 <= d ==> 0.0 <= t * d <= d
    ensures 0.0 <= t <= 1.0 && d <= 0.0 ==> d <= t * d <= 0.0
  {
    assert d - t * d == (1.0 - t) * d;
  }

  /**
    The corner gradient's dot product with the offset `(x, z)`. Only the two low
    bits of the hash are used, so there are four cases, and hashes 1 and 2 give
    the same gradient (-1, 1).
  */
  function Grad(hash: int, x: real, z: real): (r: real)
    requires 0 <= hash < PermutationSize
    ensures hash % 4 == 0 ==> r == x + z
    ensures hash % 4 == 1 || hash % 4 == 2 ==> r == z - x
    ensures hash % 4 == 3 ==> r == -x - z
  {
    var h := (hash as bv8) & 3;
    var u := if h < 2 then x else z;
    var v := if h < 2 then z else x;
    (if h & 1 == 0 then u else -u) + (if h & 2 == 0 then v else -v)
  }

  // ---------------------------------------------------------------------------
  // noise
  // ---------------------------------------------------------------------------

  /** `(int) Math.floor(c) & 255`: the lattice cell coordinate inside the table's domain. */
  function CellCoordinate(c: real): (r: int)
    ensures 0 <= r < PermutationSize
    ensures IntMin <= c.Floor <= IntMax ==> r == c.Floor % PermutationSize
  {
    LowByte(FloorToInt(c))
  }

  /** The chained table lookups of `noise`; every one of them is in bounds. */
  function Hashes(t: Table, X: int, Z: int): (h: CornerHashes)
    requires 0 <= X < PermutationSize && 0 <= Z < PermutationSize
    ensures 0 <= h.a <= TableSize - 2 && 0 <= h.b <= TableSize - 2
    ensures 0 <= h.aa < PermutationSize && 0 <= h.ab < PermutationSize
    ensures 0 <= h.ba < PermutationSize && 0 <= h.bb < PermutationSize
  {
    var A := t.p[X] + Z;
    var B := t.p[X + 1] + Z;
    CornerHashes(A, t.p[A], t.p[A + 1], B, t.p[B], t.p[B + 1])
  }

  /** `x - Math.floor(x)`: the offset of a coordinate inside its lattice cell. */
  function Frac(c: real): (r: real)
    ensures 0.0 <= r < 1.0
    ensures (c - r).Floor as real == c - r
  {
    c - c.Floor as real
  }

  /**
    The bound every noise value is proved to keep. Each corner term is a dot
    product with offsets in [-1, 1], so it lies in [-2, 2], and blending keeps
    it there.
  */
  const NoiseBound: real := 2.0

  /** The noise value at `(x, z)`: it never leaves [-NoiseBound, NoiseBound]. */
  function Noise2D(t: Table, x: real, z: real): (r: real)
    ensures -NoiseBound <= r <= NoiseBound
  {
    CellNoise(t, CellCoordinate(x), CellCoordinate(z), Frac(x), Frac(z))
  }

  /**
    The body of `noise` once the cell `(X, Z)` and the offsets `(fx, fz)`
    inside it are known. Inside the cell the value is bounded, and at the
    cell's own corner (zero offsets) it is zero.
  */
  function CellNoise(t: Table, X: int, Z: int, fx: real, fz: real): (r: real)
    requires 0 <= X < PermutationSize && 0 <= Z < PermutationSize
    ensures 0.0 <= fx < 1.0 && 0.0 <= fz < 1.0 ==> -NoiseBound <= r <= NoiseBound
    ensures fx == 0.0 && fz == 0.0 ==> r == 0.0
  {
    FadeUnit(fx);
    FadeUnit(fz);
    var h := Hashes(t, X, Z);
    var u := Fade(fx);
    var v := Fade(fz);
    Lerp(v,
      Lerp(u, Grad(t.p[h.aa], fx, fz), Grad(t.p[h.ba], fx - 1.0, fz)),
      Lerp(u, Grad(t.p[h.ab], fx, fz - 1.0), Grad(t.p[h.bb], fx - 1.0, fz - 1.0)))
  }

  lemma FadeUnit(t: real)
    ensures 0.0 <= t <= 1.0 ==> 0.0 <= Fade(t) <= 1.0
  {
    if 0.0 <= t <= 1.0 {
      FadeBounds(t);
    }
  }

  /** At every lattice point the offsets are zero, so the noise is zero. */
  lemma NoiseVanishesOnLattice(t: Table, i: int, k: int)
    ensures Noise2D(t, i as real, k as real) == 0.0
  {
    assert Frac(i as real) == 0.0 && Frac(k as real) == 0.0;
  }

  /** The noise repeats every 256 units along x (within the 32-bit cell range). */
  lemma NoisePeriodicX(t: Table, x: real, z: real)
    requires IntMin <= x.Floor && x.Floor + PermutationSize <= IntMax
    ensures Noise2D(t, x + 256.0, z) == Noise2D(t, x, z)
  {
    ShiftKeepsCell(x);
  }

  /** The noise repeats every 256 units along z (within the 32-bit cell range). */
  lemma NoisePeriodicZ(t: Table, x: real, z: real)
    requires IntMin <= z.Floor && z.Floor + PermutationSize <= IntMax
    ensures Noise2D(t, x, z + 256.0) == Noise2D(t, x, z)
  {
    ShiftKeepsCell(z);
  }

  /** A whole period along one axis lands in the same cell at the same offset. */
  lemma ShiftKeepsCell(c: real)
    requires IntMin <= c.Floor && c.Floor + PermutationSize <= IntMax
    ensures CellCoordinate(c + 256.0) == CellCoordinate(c) && Frac(c + 256.0) == Frac(c)
  {
    FloorShift(c, PermutationSize);
  }

  // ---------------------------------------------------------------------------
  // fractalNoise
  // ---------------------------------------------------------------------------

  function Pow(b: real, n: nat): real
  {
    if n == 0 then 1.0 else b * Pow(b, n - 1)
  }

  /** A sampling function whose every value lies in [-NoiseBound, NoiseBound]. */
  ghost predicate SamplesWithin(sample: (real, real) -> real)
  {
    forall a, b :: -NoiseBound <= sample(a, b) <= NoiseBound
  }

  /**
    What the remaining `n` octaves add to `total`, when the next one samples at
    `frequency` with weight `amplitude`; each later octave doubles the
    frequency and multiplies the amplitude by `persistence`. With bounded
    samples and non-negative weights, the sum is bounded by the same weights'
    sum, `AmplitudeSum`.
  */
  function OctaveSum(sample: (real, real) -> real, x: real, z: real, frequency: real, amplitude: real,
                     persistence: real, n: nat): (r: real)
    ensures SamplesWithin(sample) && 0.0 <= amplitude && 0.0 <= persistence ==>
      -NoiseBound * AmplitudeSum(amplitude, persistence, n) <= r <= NoiseBound * AmplitudeSum(amplitude, persistence, n)
    decreases n
  {
    if n == 0 then 0.0
    else
      var v := sample(x * frequency, z * frequency);
      var rest := OctaveSum(sample, x, z, frequency * 2.0, amplitude * persistence, persistence, n - 1);
      OctaveStep(sample, x * frequency, z * frequency, amplitude, persistence, rest,
                 AmplitudeSum(amplitude * persistence, persistence, n - 1));
      v * amplitude + rest
  }

  /**
    What the remaining `n` octaves add to `maxValue`. With non-negative
    weights it is non-negative, and at least the first weight once an octave
    runs.
  */
  function AmplitudeSum(amplitude: real, persistence: real, n: nat): (r: real)
    ensures 0.0 <= amplitude && 0.0 <= persistence ==> 0.0 <= r
    ensures 1 <= n && 0.0 <= amplitude && 0.0 <= persistence ==> amplitude <= r
    decreases n
  {
    if n == 0 then 0.0
    else
      NonNegativeWeight(amplitude, persistence);
      amplitude + AmplitudeSum(amplitude * persistence, persistence, n - 1)
  }

  /** One octave's term plus the bounded rest is bounded by the weights so far. */
  lemma OctaveStep(sample: (real, real) -> real, a: real, b: real, amplitude: real, persistence: real,
                   rest: real, restWeight: real)
    ensures SamplesWithin(sample) && 0.0 <= amplitude && 0.0 <= persistence ==> 0.0 <= amplitude * persistence
    ensures SamplesWithin(sample) && 0.0 <= amplitude && -NoiseBound * restWeight <= rest <= NoiseBound * restWeight ==>
      -NoiseBound * (amplitude + restWeight) <= sample(a, b) * amplitude + rest <= NoiseBound * (amplitude + restWeight)
  {
    if SamplesWithin(sample) && 0.0 <= amplitude {
      NonNegativeWeight(amplitude, persistence);
      var v := sample(a, b);
      assert -NoiseBound <= v <= NoiseBound;
      ScaledSample(v, amplitude, NoiseBound);
      assert -NoiseBound * amplitude <= v * amplitude <= NoiseBound * amplitude;
      BoundsAdd(v * amplitude, rest, amplitude, restWeight);
    }
  }

  /** Adding two values bounded by NoiseBound times a and b gives one bounded by NoiseBound times a + b. */
  lemma BoundsAdd(u: real, w: real, a: real, b: real)
    ensures -NoiseBound * a <= u <= NoiseBound * a && -NoiseBound * b <= w <= NoiseBound * b ==>
      -NoiseBound * (a + b) <= u + w <= NoiseBound * (a + b)
  {
  }

  lemma NonNegativeWeight(amplitude: real, persistence: real)
    ensures 0.0 <= amplitude && 0.0 <= persistence ==> 0.0 <= amplitude * persistence
  {
  }

  /** The number of octaves the loop of `fractalNoise` runs: none for a negative count. */
  function Octaves(octaves: int): nat
  {
    if octaves < 0 then 0 else octaves
  }

  /**
    The loop of `fractalNoise` over any sampling function, then `total / maxValue`.
    With no octaves (or amplitudes that cancel) the division is by zero and
    Java yields NaN or an infinity.
  */
  method FractalSum(sample: (real, real) -> real, x: real, z: real, octaves: int, persistence: real)
    returns (r: Number)
    ensures r == Divide(OctaveSum(sample, x, z, 1.0, 1.0, persistence, Octaves(octaves)),
                        AmplitudeSum(1.0, persistence, Octaves(octaves)))
    ensures octaves <= 0 ==> r == NonFinite
    ensures octaves >= 1 && persistence >= 0.0 ==> r.Finite?
  {
    var total := 0.0;
    var frequency := 1.0;
    var amplitude := 1.0;
    var maxValue := 0.0;
    var i := 0;
    while i < octaves
      invariant 0 <= i <= Octaves(octaves)
      invariant total + OctaveSum(sample, x, z, frequency, amplitude, persistence, Octaves(octaves) - i)
             == OctaveSum(sample, x, z, 1.0, 1.0, persistence, Octaves(octaves))
      invariant maxValue + AmplitudeSum(amplitude, persistence, Octaves(octaves) - i)
             == AmplitudeSum(1.0, persistence, Octaves(octaves))
    {
      total := total + sample(x * frequency, z * frequency) * amplitude;
      maxValue := maxValue + amplitude;
      amplitude := amplitude * persistence;
      frequency := frequency * 2.0;
      i := i + 1;
    }
    r := Divide(total, maxValue);
  }

  /** The generator's `noise` as a plain function of the coordinates. */
  function NoiseOf(t: Table): (real, real) -> real
  {
    (x: real, z: real) => Noise2D(t, x, z)
  }

  /**
    `fractalNoise(·, ·, octaves, persistence)` of a generator as a plain
    function of the coordinates, for a fixed octave count of at least one and
    a non-negative persistence, where the division is always defined.
  */
  function FractalField(t: Table, octaves: nat, persistence: real): (real, real) -> real
    requires 1 <= octaves && 0.0 <= persistence
  {
    (x: real, z: real) =>
      OctaveSum(NoiseOf(t), x, z, 1.0, 1.0, persistence, octaves) / AmplitudeSum(1.0, persistence, octaves)
  }

  /**
    `fractalNoise(x, z, octaves, persistence)` on a constructed generator. The
    normalisation by `maxValue` keeps the result within the bound of a single
    octave whenever the weights are non-negative, and the result is then the
    value of `FractalField`.
  */
  method FractalNoise(t: Table, x: real, z: real, octaves: int, persistence: real) returns (r: Number)
    ensures r == Divide(OctaveSum(NoiseOf(t), x, z, 1.0, 1.0, persistence, Octaves(octaves)),
                        AmplitudeSum(1.0, persistence, Octaves(octaves)))
    ensures octaves <= 0 ==> r == NonFinite
    ensures octaves >= 1 && persistence >= 0.0 ==> r.Finite? && -NoiseBound <= r.value <= NoiseBound
    ensures octaves >= 1 && persistence >= 0.0 ==> r == Finite(FractalField(t, octaves, persistence)(x, z))
  {
    r := FractalSum(NoiseOf(t), x, z, octaves, persistence);
    if octaves >= 1 && persistence >= 0.0 {
      FractalBounded(t, x, z, persistence, Octaves(octaves));
    }
  }

  /** Every sample of the generator's noise function lies in [-NoiseBound, NoiseBound]. */
  lemma NoiseOfBounded(t: Table)
    ensures SamplesWithin(NoiseOf(t))
  {
    forall a, b
      ensures -NoiseBound <= NoiseOf(t)(a, b) <= NoiseBound
    {
      assert NoiseOf(t)(a, b) == Noise2D(t, a, b);
    }
  }

  /** With non-negative weights the normalised octave sum stays in [-NoiseBound, NoiseBound]. */
  lemma FractalBounded(t: Table, x: real, z: real, persistence: real, n: nat)
    requires 1 <= n && 0.0 <= persistence
    ensures 1.0 <= AmplitudeSum(1.0, persistence, n)
    ensures -NoiseBound <= OctaveSum(NoiseOf(t), x, z, 1.0, 1.0, persistence, n) / AmplitudeSum(1.0, persistence, n) <= NoiseBound
  {
    NoiseOfBounded(t);
    NormalizedBounded(NoiseOf(t), x, z, persistence, n);
  }

  /** The fractal field of a generator is itself a bounded sampling function. */
  lemma FractalFieldBounded(t: Table, octaves: nat, persistence: real)
    requires 1 <= octaves && 0.0 <= persistence
    ensures SamplesWithin(FractalField(t, octaves, persistence))
  {
    forall a, b
      ensures -NoiseBound <= FractalField(t, octaves, persistence)(a, b) <= NoiseBound
    {
      FractalBounded(t, a, b, persistence, octaves);
    }
  }

  /** Normalising by `maxValue` keeps any bounded sampling function's fractal sum within the samples' bound. */
  lemma NormalizedBounded(sample: (real, real) -> real, x: real, z: real, persistence: real, n: nat)
    requires SamplesWithin(sample)
    requires 1 <= n && 0.0 <= persistence
    ensures 1.0 <= AmplitudeSum(1.0, persistence, n)
    ensures -NoiseBound <= OctaveSum(sample, x, z, 1.0, 1.0, persistence, n) / AmplitudeSum(1.0, persistence, n) <= NoiseBound
  {
    QuotientBounded(OctaveSum(sample, x, z, 1.0, 1.0, persistence, n), AmplitudeSum(1.0, persistence, n), NoiseBound);
  }

  lemma ScaledSample(v: real, amplitude: real, m: real)
    ensures -m <= v <= m && 0.0 <= amplitude ==> -m * amplitude <= v * amplitude <= m * amplitude
  {
    if -m <= v <= m && 0.0 <= amplitude {
      assert (m - v) * amplitude >= 0.0 && (v + m) * amplitude >= 0.0;
    }
  }

  lemma QuotientBounded(total: real, maxValue: real, m: real)
    requires 1.0 <= maxValue && -m * maxValue <= total <= m * maxValue
    ensures -m <= total / maxValue <= m
  {
    var q := total / maxValue;
    assert q * maxValue == total;
    assert (q - m) * maxValue <= 0.0 && (q + m) * maxValue >= 0.0;
  }

  /** `maxValue` is a geometric series: (1 - p) * Σ_{i<n} a*p^i == a * (1 - p^n). */
  lemma {:induction false} AmplitudeSumGeometric(amplitude: real, persistence: real, n: nat)
    ensures (1.0 - persistence) * AmplitudeSum(amplitude, persistence, n) == amplitude * (1.0 - Pow(persistence, n))
    decreases n
  {
    if n > 0 {
      var p, rest, q := persistence, AmplitudeSum(amplitude * persistence, persistence, n - 1), Pow(persistence, n - 1);
      AmplitudeSumGeometric(amplitude * p, p, n - 1);
      assert AmplitudeSum(amplitude, p, n) == amplitude + rest;
      assert Pow(p, n) == p * q;
      GeometricStep(amplitude, p, rest, q);
    }
  }

  /** One more leading term of the series: (1 - p)(a + rest) == a(1 - p q) when (1 - p) rest == a p (1 - q). */
  lemma GeometricStep(a: real, p: real, rest: real, q: real)
    requires (1.0 - p) * rest == a * p * (1.0 - q)
    ensures (1.0 - p) * (a + rest) == a * (1.0 - p * q)
  {
    calc {
      (1.0 - p) * (a + rest);
      (1.0 - p) * a + (1.0 - p) * rest;
      (1.0 - p) * a + a * p * (1.0 - q);
      a * (1.0 - p * q);
    }
  }
}
