/**
  The terrain: a square heightmap sampled from fractal noise, the mesh built
  from it (row-major vertex positions, UVs, per-vertex normals from
  neighbouring positions, two triangles per grid cell), and the piecewise
  constant height query that camera collision and tree placement use.

  The fractal noise is a parameter `field`; the program's instance is
  `NoiseField`, `(a, b) => fractalNoise(a, b, 6, 0.5)` of the generator the
  terrain is built from. Floats are exact reals; the nested `z`/`x` loops of the source
  visit vertex `k = z * gridSize + x` in increasing `k`, and the model loops
  over `k` in the same order.
*/
module Terrain {
  import opened JavaNumeric
  import opened Geometry
  import PerlinNoise

  /** The multiplier applied to the normalised grid coordinate before sampling. */
  const FeatureFrequency: real := 5.0
  /** The octave count and persistence the heights are sampled with. */
  const NoiseOctaves: nat := 6
  const NoisePersistence: real := 0.5

  datatype Terrain = Terrain(gridSize: int, scale: real, heightScale: real, heights: seq<seq<real>>)

  /** The buffers `generateTerrain` hands to the GPU, and the draw count it records. */
  datatype Mesh = Mesh(vertices: seq<real>, normals: seq<real>, texCoords: seq<Number>, indices: seq<int>,
                       vertexCount: int)

  ghost predicate IsGrid(heights: seq<seq<real>>, n: int)
  {
    |heights| == n && forall z :: 0 <= z < n ==> |heights[z]| == n
  }

  /** A terrain as the constructor leaves it, with a usable cell size. */
  ghost predicate Valid(t: Terrain)
  {
    0 <= t.gridSize <= IntMax && t.scale != 0.0 && IsGrid(t.heights, t.gridSize)
  }

  // ---------------------------------------------------------------------------
  // Index arithmetic
  // ---------------------------------------------------------------------------

  lemma MulLe(a: int, b: int, c: int)
    requires a <= b && 0 <= c
    ensures a * c <= b * c
  {
  }

  lemma ZeroMultiple(d: int, n: int)
    requires 0 < n && -n < d * n < n
    ensures d == 0
  {
    if d >= 1 {
      MulLe(1, d, n);
    } else if d <= -1 {
      MulLe(d, -1, n);
    }
  }

  lemma DivModUnique(k: int, n: int, q: int, r: int)
    requires 0 < n && 0 <= r < n && k == q * n + r
    ensures k / n == q && k % n == r
  {
    var q', r' := k / n, k % n;
    assert (q - q') * n == r' - r;
    ZeroMultiple(q - q', n);
  }

  /** Below n * n, the quotient by n is below n. */
  lemma RowBelow(k: int, n: int)
    requires 0 <= n && 0 <= k < n * n
    ensures 0 < n && 0 <= k / n < n
  {
    if k / n >= n {
      MulLe(n, k / n, n);
    }
  }

  function VertexCount(n: int): int
  {
    n * n
  }

  /** `(gridSize - 1) * (gridSize - 1) * 6`: the length of the index array as allocated. */
  function IndexCount(n: int): int
  {
    (n - 1) * (n - 1) * 6
  }

  /** The cells along one side, i.e. the iterations of each index loop. */
  function CellsPerSide(n: int): nat
  {
    if n < 1 then 0 else n - 1
  }

  /** Row-major vertex numbering, x fastest. */
  function VertexIndex(n: int, x: int, z: int): (k: int)
    requires 0 <= x < n && 0 <= z < n
    ensures 0 <= k < VertexCount(n)
  {
    MulLe(z, n - 1, n);
    MulLe(0, z, n);
    z * n + x
  }

  /** The grid point of vertex `k`: its column `k % n` and row `k / n`. */
  function GridPoint(n: int, k: int): (p: (int, int))
    requires 0 <= n && 0 <= k < VertexCount(n)
    ensures 0 <= p.0 < n && 0 <= p.1 < n
    ensures VertexIndex(n, p.0, p.1) == k
  {
    RowBelow(k, n);
    (k % n, k / n)
  }

  /** Numbering a grid point and reading the number back returns the point: the numbering is one-to-one. */
  lemma GridPointOfVertex(n: int, x: int, z: int)
    requires 0 <= x < n && 0 <= z < n
    ensures GridPoint(n, VertexIndex(n, x, z)) == (x, z)
  {
    DivModUnique(z * n + x, n, z, x);
  }

  /** Vertex `k` read back from a flat buffer of three floats per vertex. */
  function Position(buffer: seq<real>, n: int, k: int): Vec3
    requires |buffer| == 3 * VertexCount(n) && 0 <= k < VertexCount(n)
  {
    Vec3(buffer[3 * k], buffer[3 * k + 1], buffer[3 * k + 2])
  }

  // ---------------------------------------------------------------------------
  // Heights
  // ---------------------------------------------------------------------------

  /** The field the program samples: the generator's fractal noise with 6 octaves and persistence 0.5. */
  function NoiseField(noise: PerlinNoise.Table): (real, real) -> real
  {
    PerlinNoise.FractalField(noise, NoiseOctaves, NoisePersistence)
  }

  /**
    The elevation stored for grid point (x, z): the field at (x/n * 5, z/n * 5),
    times `heightScale`. A field bounded by the noise bound gives heights
    bounded by that bound times a non-negative `heightScale`.
  */
  function SampleHeight(field: (real, real) -> real, n: int, heightScale: real, x: int, z: int): (r: real)
    requires 0 < n
    ensures PerlinNoise.SamplesWithin(field) && 0.0 <= heightScale ==>
      -PerlinNoise.NoiseBound * heightScale <= r <= PerlinNoise.NoiseBound * heightScale
  {
    var a := x as real / n as real * FeatureFrequency;
    var b := z as real / n as real * FeatureFrequency;
    ScaledHeight(field, a, b, heightScale);
    field(a, b) * heightScale
  }

  lemma ScaledHeight(field: (real, real) -> real, a: real, b: real, heightScale: real)
    ensures PerlinNoise.SamplesWithin(field) && 0.0 <= heightScale ==>
      -PerlinNoise.NoiseBound * heightScale <= field(a, b) * heightScale <= PerlinNoise.NoiseBound * heightScale
  {
    if PerlinNoise.SamplesWithin(field) && 0.0 <= heightScale {
      var v := field(a, b);
      assert -PerlinNoise.NoiseBound <= v <= PerlinNoise.NoiseBound;
      PerlinNoise.ScaledSample(v, heightScale, PerlinNoise.NoiseBound);
    }
  }

  /** Every height the program samples lies within the noise bound times a non-negative `heightScale`. */
  lemma NoiseHeightsBounded(noise: PerlinNoise.Table, n: int, heightScale: real, x: int, z: int)
    requires 0 < n && 0.0 <= heightScale
    ensures -PerlinNoise.NoiseBound * heightScale <= SampleHeight(NoiseField(noise), n, heightScale, x, z)
    ensures SampleHeight(NoiseField(noise), n, heightScale, x, z) <= PerlinNoise.NoiseBound * heightScale
  {
    PerlinNoise.FractalFieldBounded(noise, NoiseOctaves, NoisePersistence);
  }

  /** The first loop nest of `generateTerrain`: `heights[z][x]` for every grid point. */
  method GenerateHeights(field: (real, real) -> real, n: int, heightScale: real) returns (heights: seq<seq<real>>)
    requires 0 <= n
    ensures IsGrid(heights, n)
    ensures forall z, x :: 0 <= z < n && 0 <= x < n ==> heights[z][x] == SampleHeight(field, n, heightScale, x, z)
  {
    heights := [];
    var z := 0;
    while z < n
      invariant 0 <= z <= n
      invariant |heights| == z
      invariant forall zz :: 0 <= zz < z ==> |heights[zz]| == n
      invariant forall zz, x :: 0 <= zz < z && 0 <= x < n ==> heights[zz][x] == SampleHeight(field, n, heightScale, x, zz)
    {
      var row := [];
      var x := 0;
      while x < n
        invariant 0 <= x <= n
        invariant |row| == x
        invariant forall xx :: 0 <= xx < x ==> row[xx] == SampleHeight(field, n, heightScale, xx, z)
      {
        row := row + [SampleHeight(field, n, heightScale, x, z)];
        x := x + 1;
      }
      heights := heights + [row];
      z := z + 1;
    }
  }

  // ---------------------------------------------------------------------------
  // Vertex positions and UVs
  // ---------------------------------------------------------------------------

  /**
    `(float) c / (gridSize - 1)`: a UV coordinate. It lies in [0, 1] once there
    are two grid points per side; with one the division is 0 / 0.
  */
  function TexCoord(n: int, c: int): (r: Number)
    requires 0 <= c < n
    ensures 2 <= n ==> r.Finite? && 0.0 <= r.value <= 1.0
    ensures n == 1 ==> r == NonFinite
    ensures 2 <= n && c == 0 ==> r == Finite(0.0)
    ensures 2 <= n && c == n - 1 ==> r == Finite(1.0)
  {
    UnitQuotient(c as real, (n - 1) as real);
    Divide(c as real, (n - 1) as real)
  }

  lemma UnitQuotient(a: real, b: real)
    ensures 0.0 < b && 0.0 <= a <= b ==> 0.0 <= a / b <= 1.0
    ensures 0.0 < b ==> 0.0 / b == 0.0 && b / b == 1.0
  {
    if 0.0 < b && 0.0 <= a <= b {
      QuotientAtLeast(a, b, 0.0);
      QuotientAtMost(a, b, 1.0);
    }
  }

  /**
    The world coordinate of grid line `i`, `x * scale` in the source, written
    as `i` repeated additions of `scale`; `OffsetIsProduct` shows the two
    agree. In this form neighbouring grid lines differ by exactly `scale`
    without any multiplication, which keeps the normal proofs linear.
  */
  function Offset(i: nat, scale: real): real
  {
    if i == 0 then 0.0 else Offset(i - 1, scale) + scale
  }

  lemma {:induction false} OffsetIsProduct(i: nat, scale: real)
    ensures Offset(i, scale) == i as real * scale
  {
    if i > 0 {
      OffsetIsProduct(i - 1, scale);
      assert (i - 1) as real * scale + scale == i as real * scale;
    }
  }

  /** Vertex (x, z) sits at (x * scale, heights[z][x], z * scale) in the position buffer. */
  ghost predicate LaidOut(vertices: seq<real>, n: int, scale: real, heights: seq<seq<real>>)
    requires IsGrid(heights, n)
  {
    && |vertices| == 3 * VertexCount(n)
    && forall x, z :: 0 <= x < n && 0 <= z < n ==>
         Position(vertices, n, VertexIndex(n, x, z)) == Vec3(Offset(x, scale), heights[z][x], Offset(z, scale))
  }

  /** The second loop nest of `generateTerrain`: positions and UVs, three and two floats per vertex. */
  method LayOutVertices(n: int, scale: real, heights: seq<seq<real>>)
    returns (vertices: seq<real>, texCoords: seq<Number>)
    requires 0 <= n && IsGrid(heights, n)
    ensures LaidOut(vertices, n, scale, heights)
    ensures |texCoords| == 2 * VertexCount(n)
    ensures forall x, z :: 0 <= x < n && 0 <= z < n ==>
      texCoords[2 * VertexIndex(n, x, z)] == TexCoord(n, x) && texCoords[2 * VertexIndex(n, x, z) + 1] == TexCoord(n, z)
  {
    vertices, texCoords := [], [];
    var k := 0;
    while k < VertexCount(n)
      invariant 0 <= k <= VertexCount(n)
      invariant |vertices| == 3 * k && |texCoords| == 2 * k
      invariant forall j :: 0 <= j < k ==>
        var (x, z) := GridPoint(n, j);
        && vertices[3 * j] == Offset(x, scale)
        && vertices[3 * j + 1] == heights[z][x]
        && vertices[3 * j + 2] == Offset(z, scale)
        && texCoords[2 * j] == TexCoord(n, x)
        && texCoords[2 * j + 1] == TexCoord(n, z)
    {
      var (x, z) := GridPoint(n, k);
      vertices := vertices + [Offset(x, scale), heights[z][x], Offset(z, scale)];
      texCoords := texCoords + [TexCoord(n, x), TexCoord(n, z)];
      k := k + 1;
    }
    forall x, z | 0 <= x < n && 0 <= z < n
      ensures Position(vertices, n, VertexIndex(n, x, z)) == Vec3(Offset(x, scale), heights[z][x], Offset(z, scale))
    {
      GridPointOfVertex(n, x, z);
    }
    forall x, z | 0 <= x < n && 0 <= z < n
      ensures texCoords[2 * VertexIndex(n, x, z)] == TexCoord(n, x)
      ensures texCoords[2 * VertexIndex(n, x, z) + 1] == TexCoord(n, z)
    {
      GridPointOfVertex(n, x, z);
    }
  }

  // ---------------------------------------------------------------------------
  // Normals
  // ---------------------------------------------------------------------------

  /** The (left, top) neighbour pair exists. */
  predicate HasLeftTopPair(n: int, x: int, z: int)
  {
    x > 0 && z > 0
  }

  /** The (right, bottom) neighbour pair exists. */
  predicate HasRightBottomPair(n: int, x: int, z: int)
  {
    x < n - 1 && z < n - 1
  }

  /** How many cross products feed the normal of vertex (x, z). */
  function PairCount(n: int, x: int, z: int): int
  {
    (if HasLeftTopPair(n, x, z) then 1 else 0) + (if HasRightBottomPair(n, x, z) then 1 else 0)
  }

  /** The position of grid point (x, z) in a vertex buffer. */
  function Corner(vertices: seq<real>, n: int, x: int, z: int): Vec3
    requires |vertices| == 3 * VertexCount(n) && 0 <= x < n && 0 <= z < n
  {
    Position(vertices, n, VertexIndex(n, x, z))
  }

  /** The edge from grid point (x, z) to grid point (x2, z2). */
  function Edge(vertices: seq<real>, n: int, x: int, z: int, x2: int, z2: int): Vec3
    requires |vertices| == 3 * VertexCount(n) && 0 <= x < n && 0 <= z < n && 0 <= x2 < n && 0 <= z2 < n
  {
    Sub(Corner(vertices, n, x2, z2), Corner(vertices, n, x, z))
  }

  /**
    The cross product of the edges from vertex (x, z) to its left and top
    neighbours: a normal of the triangle they span.
  */
  function LeftTopCross(vertices: seq<real>, n: int, x: int, z: int): (r: Vec3)
    requires |vertices| == 3 * VertexCount(n) && 0 < x < n && 0 < z < n
    ensures Dot(r, Edge(vertices, n, x, z, x - 1, z)) == 0.0 && Dot(r, Edge(vertices, n, x, z, x, z - 1)) == 0.0
  {
    var v0 := Position(vertices, n, VertexIndex(n, x, z));
    var left := Position(vertices, n, VertexIndex(n, x - 1, z));
    var top := Position(vertices, n, VertexIndex(n, x, z - 1));
    CrossOrthogonal(Sub(left, v0), Sub(top, v0));
    Cross(Sub(left, v0), Sub(top, v0))
  }

  /**
    The cross product of the edges from vertex (x, z) to its right and bottom
    neighbours: a normal of the triangle they span.
  */
  function RightBottomCross(vertices: seq<real>, n: int, x: int, z: int): (r: Vec3)
    requires |vertices| == 3 * VertexCount(n) && 0 <= x < n - 1 && 0 <= z < n - 1
    ensures Dot(r, Edge(vertices, n, x, z, x + 1, z)) == 0.0 && Dot(r, Edge(vertices, n, x, z, x, z + 1)) == 0.0
  {
    var v0 := Position(vertices, n, VertexIndex(n, x, z));
    var right := Position(vertices, n, VertexIndex(n, x + 1, z));
    var bottom := Position(vertices, n, VertexIndex(n, x, z + 1));
    CrossOrthogonal(Sub(right, v0), Sub(bottom, v0));
    Cross(Sub(right, v0), Sub(bottom, v0))
  }

  /**
    The normal of vertex (x, z) before `normalize()`: the left/top cross
    product when both neighbours exist, plus the right/bottom one when both
    of those exist. With one pair it is perpendicular to that pair's edges;
    with none it is the zero vector.
  */
  function NormalSum(vertices: seq<real>, n: int, x: int, z: int): (r: Vec3)
    requires |vertices| == 3 * VertexCount(n) && 0 <= x < n && 0 <= z < n
    ensures PairCount(n, x, z) == 0 ==> r == Zero
    ensures HasLeftTopPair(n, x, z) && !HasRightBottomPair(n, x, z) ==>
      Dot(r, Edge(vertices, n, x, z, x - 1, z)) == 0.0 && Dot(r, Edge(vertices, n, x, z, x, z - 1)) == 0.0
    ensures HasRightBottomPair(n, x, z) && !HasLeftTopPair(n, x, z) ==>
      Dot(r, Edge(vertices, n, x, z, x + 1, z)) == 0.0 && Dot(r, Edge(vertices, n, x, z, x, z + 1)) == 0.0
  {
    var normal := Zero;
    var normal := if HasLeftTopPair(n, x, z) then Add(normal, LeftTopCross(vertices, n, x, z)) else normal;
    var normal := if HasRightBottomPair(n, x, z) then Add(normal, RightBottomCross(vertices, n, x, z)) else normal;
    normal
  }

  /** `calculateNormals`, without the final `normalize()`: three floats per vertex. */
  method CalculateNormals(vertices: seq<real>, n: int) returns (normals: seq<real>)
    requires 0 <= n && |vertices| == 3 * VertexCount(n)
    ensures |normals| == 3 * VertexCount(n)
    ensures forall x, z :: 0 <= x < n && 0 <= z < n ==>
      Position(normals, n, VertexIndex(n, x, z)) == NormalSum(vertices, n, x, z)
  {
    normals := [];
    var k := 0;
    while k < VertexCount(n)
      invariant 0 <= k <= VertexCount(n)
      invariant |normals| == 3 * k
      invariant forall j :: 0 <= j < k ==>
        var (x, z) := GridPoint(n, j);
        Vec3(normals[3 * j], normals[3 * j + 1], normals[3 * j + 2]) == NormalSum(vertices, n, x, z)
    {
      var (x, z) := GridPoint(n, k);
      var normal := NormalSum(vertices, n, x, z);
      normals := normals + [normal.x, normal.y, normal.z];
      k := k + 1;
    }
    forall x, z | 0 <= x < n && 0 <= z < n
      ensures Position(normals, n, VertexIndex(n, x, z)) == NormalSum(vertices, n, x, z)
    {
      GridPointOfVertex(n, x, z);
    }
  }

  /**
    On a laid-out mesh each cross product has vertical component -scale^2, so
    the summed normal points down by exactly that much per contributing pair.
  */
  lemma NormalVertical(vertices: seq<real>, n: int, scale: real, heights: seq<seq<real>>, x: int, z: int)
    requires IsGrid(heights, n) && LaidOut(vertices, n, scale, heights)
    requires 0 <= x < n && 0 <= z < n
    ensures PairCount(n, x, z) == 2 ==> NormalSum(vertices, n, x, z).y == -2.0 * (scale * scale)
    ensures PairCount(n, x, z) == 1 ==> NormalSum(vertices, n, x, z).y == -(scale * scale)
    ensures PairCount(n, x, z) == 0 ==> NormalSum(vertices, n, x, z) == Zero
  {
    if HasLeftTopPair(n, x, z) {
      LeftTopVertical(vertices, n, scale, heights, x, z);
    }
    if HasRightBottomPair(n, x, z) {
      RightBottomVertical(vertices, n, scale, heights, x, z);
    }
  }

  lemma LeftTopVertical(vertices: seq<real>, n: int, scale: real, heights: seq<seq<real>>, x: int, z: int)
    requires IsGrid(heights, n) && LaidOut(vertices, n, scale, heights)
    requires 0 < x < n && 0 < z < n
    ensures LeftTopCross(vertices, n, x, z).y == -(scale * scale)
  {
    var v0 := Position(vertices, n, VertexIndex(n, x, z));
    var left := Position(vertices, n, VertexIndex(n, x - 1, z));
    var top := Position(vertices, n, VertexIndex(n, x, z - 1));
    assert v0 == Vec3(Offset(x, scale), heights[z][x], Offset(z, scale));
    assert left == Vec3(Offset(x - 1, scale), heights[z][x - 1], Offset(z, scale));
    assert top == Vec3(Offset(x, scale), heights[z - 1][x], Offset(z - 1, scale));
    LeftTopTerm(v0, left, top, scale);
  }

  lemma RightBottomVertical(vertices: seq<real>, n: int, scale: real, heights: seq<seq<real>>, x: int, z: int)
    requires IsGrid(heights, n) && LaidOut(vertices, n, scale, heights)
    requires 0 <= x < n - 1 && 0 <= z < n - 1
    ensures RightBottomCross(vertices, n, x, z).y == -(scale * scale)
  {
    var v0 := Position(vertices, n, VertexIndex(n, x, z));
    var right := Position(vertices, n, VertexIndex(n, x + 1, z));
    var bottom := Position(vertices, n, VertexIndex(n, x, z + 1));
    assert v0 == Vec3(Offset(x, scale), heights[z][x], Offset(z, scale));
    assert right == Vec3(Offset(x + 1, scale), heights[z][x + 1], Offset(z, scale));
    assert bottom == Vec3(Offset(x, scale), heights[z + 1][x], Offset(z + 1, scale));
    RightBottomTerm(v0, right, bottom, scale);
  }

  /** The cross product of the edges to the neighbours one cell left and one cell up has vertical part -s^2. */
  lemma LeftTopTerm(v0: Vec3, left: Vec3, top: Vec3, s: real)
    requires left.x == v0.x - s && left.z == v0.z && top.x == v0.x && top.z == v0.z - s
    ensures Cross(Sub(left, v0), Sub(top, v0)).y == -(s * s)
  {
  }

  /** The cross product of the edges to the neighbours one cell right and one cell down has vertical part -s^2. */
  lemma RightBottomTerm(v0: Vec3, right: Vec3, bottom: Vec3, s: real)
    requires right.x == v0.x + s && right.z == v0.z && bottom.x == v0.x && bottom.z == v0.z + s
    ensures Cross(Sub(right, v0), Sub(bottom, v0)).y == -(s * s)
  {
  }

  /**
    Only two vertices of a grid with at least two points per side get no
    neighbour pair at all, the corners (n-1, 0) and (0, n-1); their normal is
    the zero vector, which `normalize()` turns into 0/0.
  */
  lemma UnlitVertices(n: int, x: int, z: int)
    requires 2 <= n && 0 <= x < n && 0 <= z < n
    ensures PairCount(n, x, z) == 0 <==> (x == n - 1 && z == 0) || (x == 0 && z == n - 1)
  {
  }

  // ---------------------------------------------------------------------------
  // Indices
  // ---------------------------------------------------------------------------

  /**
    The six indices cell (x, z) contributes: triangles (topLeft, bottomLeft,
    topRight) and (topRight, bottomLeft, bottomRight), where `topRight` is
    `topLeft + 1` and `bottomLeft` is one row further down.
  */
  function CellIndices(n: int, x: int, z: int): (c: seq<int>)
    requires 0 <= x < n - 1 && 0 <= z < n - 1
    ensures |c| == 6
    ensures c[0] == VertexIndex(n, x, z) && c[1] == VertexIndex(n, x, z + 1)
    ensures c[2] == VertexIndex(n, x + 1, z) && c[5] == VertexIndex(n, x + 1, z + 1)
    ensures forall i :: 0 <= i < 6 ==> 0 <= c[i] < VertexCount(n)
  {
    var topLeft := VertexIndex(n, x, z);
    var topRight := topLeft + 1;
    var bottomLeft := VertexIndex(n, x, z + 1);
    var bottomRight := bottomLeft + 1;
    [topLeft, bottomLeft, topRight, topRight, bottomLeft, bottomRight]
  }

  /** Both triangles of a cell are proper (three distinct corners) and share the edge topRight-bottomLeft. */
  lemma CellTriangles(n: int, x: int, z: int)
    requires 0 <= x < n - 1 && 0 <= z < n - 1
    ensures var c := CellIndices(n, x, z);
      && c[0] != c[1] && c[1] != c[2] && c[0] != c[2]
      && c[3] != c[4] && c[4] != c[5] && c[3] != c[5]
      && {c[0], c[1], c[2]} * {c[3], c[4], c[5]} == {c[1], c[2]}
  {
    var c := CellIndices(n, x, z);
    assert c[1] == c[0] + n && c[2] == c[0] + 1 && c[5] == c[0] + n + 1 by {
      assert (z + 1) * n == z * n + n;
    }
  }

  /**
    Both triangles of a cell wind the same way: on a laid-out mesh their face
    normals (edge to the second corner, cross edge to the third) point up,
    with vertical component scale^2, opposite to the vertex normals.
  */
  lemma CellFacesUp(vertices: seq<real>, n: int, scale: real, heights: seq<seq<real>>, x: int, z: int)
    requires IsGrid(heights, n) && LaidOut(vertices, n, scale, heights)
    requires 0 <= x < n - 1 && 0 <= z < n - 1
    ensures var c := CellIndices(n, x, z);
      var p0, p1, p2 := Position(vertices, n, c[0]), Position(vertices, n, c[1]), Position(vertices, n, c[2]);
      var p3, p4, p5 := Position(vertices, n, c[3]), Position(vertices, n, c[4]), Position(vertices, n, c[5]);
      && Cross(Sub(p1, p0), Sub(p2, p0)).y == scale * scale
      && Cross(Sub(p4, p3), Sub(p5, p3)).y == scale * scale
  {
    var c := CellIndices(n, x, z);
    var topLeft, bottomLeft := Position(vertices, n, c[0]), Position(vertices, n, c[1]);
    var topRight, bottomRight := Position(vertices, n, c[2]), Position(vertices, n, c[5]);
    assert topLeft == Vec3(Offset(x, scale), heights[z][x], Offset(z, scale));
    assert bottomLeft == Vec3(Offset(x, scale), heights[z + 1][x], Offset(z + 1, scale));
    assert topRight == Vec3(Offset(x + 1, scale), heights[z][x + 1], Offset(z, scale));
    assert bottomRight == Vec3(Offset(x + 1, scale), heights[z + 1][x + 1], Offset(z + 1, scale));
    FirstTriangleTerm(topLeft, bottomLeft, topRight, scale);
    SecondTriangleTerm(topRight, bottomLeft, bottomRight, scale);
  }

  lemma FirstTriangleTerm(topLeft: Vec3, bottomLeft: Vec3, topRight: Vec3, s: real)
    requires bottomLeft.x == topLeft.x && bottomLeft.z == topLeft.z + s
    requires topRight.x == topLeft.x + s && topRight.z == topLeft.z
    ensures Cross(Sub(bottomLeft, topLeft), Sub(topRight, topLeft)).y == s * s
  {
  }

  lemma SecondTriangleTerm(topRight: Vec3, bottomLeft: Vec3, bottomRight: Vec3, s: real)
    requires bottomLeft.x == topRight.x - s && bottomLeft.z == topRight.z + s
    requires bottomRight.x == topRight.x && bottomRight.z == topRight.z + s
    ensures Cross(Sub(bottomLeft, topRight), Sub(bottomRight, topRight)).y == s * s
  {
  }

  /** The position of cell (x, z) in the order the cell loops visit cells: row by row, x fastest. */
  function CellSlot(n: int, x: int, z: int): (d: int)
    requires 0 <= x < n - 1 && 0 <= z < n - 1
    ensures 0 <= d < CellsPerSide(n) * CellsPerSide(n)
  {
    MulLe(z, n - 2, n - 1);
    MulLe(0, z, n - 1);
    z * (n - 1) + x
  }

  /** The cell visited in slot `d`; `CellOfSlot` shows it undoes `CellSlot`. */
  function Cell(n: int, d: int): (p: (int, int))
    requires 1 <= n && 0 <= d < CellsPerSide(n) * CellsPerSide(n)
    ensures 0 <= p.0 < n - 1 && 0 <= p.1 < n - 1
  {
    var m := n - 1;
    RowBelow(d, m);
    (d % m, d / m)
  }

  /** Every slot is some cell's: reading a slot's cell and numbering it again gives the slot back. */
  lemma SlotOfCell(n: int, d: int)
    requires 1 <= n && 0 <= d < CellsPerSide(n) * CellsPerSide(n)
    ensures CellSlot(n, Cell(n, d).0, Cell(n, d).1) == d
  {
  }

  /** Numbering a cell and reading the number back returns the cell. */
  lemma CellOfSlot(n: int, x: int, z: int)
    requires 0 <= x < n - 1 && 0 <= z < n - 1
    ensures Cell(n, CellSlot(n, x, z)) == (x, z)
  {
    DivModUnique(z * (n - 1) + x, n - 1, z, x);
  }

  /** The six indices the cell loops write in slot `d`. */
  function SlotIndices(n: int, d: int): (r: seq<int>)
    requires 1 <= n && 0 <= d < CellsPerSide(n) * CellsPerSide(n)
    ensures |r| == 6 && forall i :: 0 <= i < 6 ==> 0 <= r[i] < VertexCount(n)
  {
    var (x, z) := Cell(n, d);
    CellIndices(n, x, z)
  }

  /** The index array after the cell loops have visited the first `c` slots. */
  function IndicesUpTo(n: int, c: nat): seq<int>
    requires 1 <= n && c <= CellsPerSide(n) * CellsPerSide(n)
  {
    if c == 0 then [] else IndicesUpTo(n, c - 1) + SlotIndices(n, c - 1)
  }

  lemma {:induction false} IndicesUpToLength(n: int, c: nat)
    requires 1 <= n && c <= CellsPerSide(n) * CellsPerSide(n)
    ensures |IndicesUpTo(n, c)| == 6 * c
  {
    if c > 0 {
      IndicesUpToLength(n, c - 1);
    }
  }

  /** Slot `d`, once visited, holds that slot's six indices, however many slots follow it. */
  lemma {:induction false} IndicesUpToSlot(n: int, c: nat, d: nat)
    requires 1 <= n && d < c <= CellsPerSide(n) * CellsPerSide(n)
    ensures |IndicesUpTo(n, c)| == 6 * c
    ensures IndicesUpTo(n, c)[6 * d..6 * d + 6] == SlotIndices(n, d)
  {
    IndicesUpToLength(n, c);
    IndicesUpToLength(n, c - 1);
    var prefix := IndicesUpTo(n, c - 1);
    var last := SlotIndices(n, c - 1);
    assert IndicesUpTo(n, c) == prefix + last;
    if d < c - 1 {
      IndicesUpToSlot(n, c - 1, d);
      SlotOfAppend(prefix, last, d);
    } else {
      SlotOfAppend(prefix, last, d);
    }
  }

  /** Appending six entries to whole six-entry slots leaves the earlier slots alone and fills the next one. */
  lemma SlotOfAppend(prefix: seq<int>, last: seq<int>, d: nat)
    requires |last| == 6 && 6 * d <= |prefix|
    ensures 6 * d + 6 <= |prefix| ==> (prefix + last)[6 * d..6 * d + 6] == prefix[6 * d..6 * d + 6]
    ensures 6 * d == |prefix| ==> (prefix + last)[6 * d..6 * d + 6] == last
  {
  }

  /** Every index written by the first `c` slots names an existing vertex. */
  lemma {:induction false} IndicesUpToBounded(n: int, c: nat)
    requires 1 <= n && c <= CellsPerSide(n) * CellsPerSide(n)
    ensures |IndicesUpTo(n, c)| == 6 * c
    ensures forall i :: 0 <= i < 6 * c ==> 0 <= IndicesUpTo(n, c)[i] < VertexCount(n)
  {
    IndicesUpToLength(n, c);
    if c > 0 {
      IndicesUpToBounded(n, c - 1);
      var prefix := IndicesUpTo(n, c - 1);
      var last := SlotIndices(n, c - 1);
      assert IndicesUpTo(n, c) == prefix + last;
      forall i | 0 <= i < 6 * c
        ensures 0 <= (prefix + last)[i] < VertexCount(n)
      {
        if i < 6 * (c - 1) {
          assert (prefix + last)[i] == prefix[i];
        } else {
          assert (prefix + last)[i] == last[i - 6 * (c - 1)];
        }
      }
    }
  }

  /**
    The third loop nest of `generateTerrain`. The array is allocated with
    `IndexCount(n)` zeros and the cell loops fill it; for a grid of at least
    one point all of it is filled with indices of existing vertices. For
    gridSize 0 the allocation is (-1)^2 * 6 = 6 entries that no loop writes,
    so six zeros name a vertex that does not exist.
  */
  method BuildIndices(n: int) returns (indices: seq<int>)
    requires 0 <= n
    ensures |indices| == IndexCount(n)
    ensures forall x, z :: 0 <= x < n - 1 && 0 <= z < n - 1 ==>
      indices[6 * CellSlot(n, x, z)..6 * CellSlot(n, x, z) + 6] == CellIndices(n, x, z)
    ensures 1 <= n ==> forall i :: 0 <= i < |indices| ==> 0 <= indices[i] < VertexCount(n)
    ensures n == 0 ==> indices == [0, 0, 0, 0, 0, 0]
  {
    if n == 0 {
      return [0, 0, 0, 0, 0, 0];
    }
    indices := [];
    var cells := CellsPerSide(n) * CellsPerSide(n);
    var c := 0;
    while c < cells
      invariant 0 <= c <= cells
      invariant indices == IndicesUpTo(n, c)
    {
      var (x, z) := Cell(n, c);
      indices := indices + CellIndices(n, x, z);
      c := c + 1;
    }
    IndicesUpToBounded(n, cells);
    forall x, z | 0 <= x < n - 1 && 0 <= z < n - 1
      ensures indices[6 * CellSlot(n, x, z)..6 * CellSlot(n, x, z) + 6] == CellIndices(n, x, z)
    {
      CellOfSlot(n, x, z);
      IndicesUpToSlot(n, cells, CellSlot(n, x, z));
      assert SlotIndices(n, CellSlot(n, x, z)) == CellIndices(n, x, z);
    }
  }

  // ---------------------------------------------------------------------------
  // generateTerrain
  // ---------------------------------------------------------------------------

  /**
    The constructor: heights from the field, then every buffer (positions,
    UVs, unnormalised normals, per-cell index slots), and `vertexCount` set to
    the number of indices.
  */
  method GenerateTerrain(n: int, scale: real, heightScale: real, field: (real, real) -> real)
    returns (t: Terrain, mesh: Mesh)
    requires 0 <= n
    ensures t.gridSize == n && t.scale == scale && t.heightScale == heightScale && IsGrid(t.heights, n)
    ensures forall z, x :: 0 <= z < n && 0 <= x < n ==> t.heights[z][x] == SampleHeight(field, n, heightScale, x, z)
    ensures LaidOut(mesh.vertices, n, scale, t.heights)
    ensures |mesh.normals| == 3 * VertexCount(n) && |mesh.texCoords| == 2 * VertexCount(n)
    ensures forall x, z :: 0 <= x < n && 0 <= z < n ==>
      Position(mesh.normals, n, VertexIndex(n, x, z)) == NormalSum(mesh.vertices, n, x, z)
    ensures forall x, z :: 0 <= x < n && 0 <= z < n ==>
      mesh.texCoords[2 * VertexIndex(n, x, z)] == TexCoord(n, x) && mesh.texCoords[2 * VertexIndex(n, x, z) + 1] == TexCoord(n, z)
    ensures |mesh.indices| == IndexCount(n) && mesh.vertexCount == IndexCount(n)
    ensures forall x, z :: 0 <= x < n - 1 && 0 <= z < n - 1 ==>
      mesh.indices[6 * CellSlot(n, x, z)..6 * CellSlot(n, x, z) + 6] == CellIndices(n, x, z)
    ensures 1 <= n ==> forall i :: 0 <= i < |mesh.indices| ==> 0 <= mesh.indices[i] < VertexCount(n)
    ensures n == 0 ==> mesh.indices == [0, 0, 0, 0, 0, 0]
  {
    var heights := GenerateHeights(field, n, heightScale);
    var vertices, texCoords := LayOutVertices(n, scale, heights);
    var normals := CalculateNormals(vertices, n);
    var indices := BuildIndices(n);
    t := Terrain(n, scale, heightScale, heights);
    mesh := Mesh(vertices, normals, texCoords, indices, |indices|);
  }

  // ---------------------------------------------------------------------------
  // getHeightAt
  // ---------------------------------------------------------------------------

  /** A grid index `getHeightAt` accepts: a cell's top-left corner, 0 .. gridSize-2. */
  predicate InCellRange(t: Terrain, g: int)
  {
    0 <= g < t.gridSize - 1
  }

  /**
    `getHeightAt`: the `(int)` casts truncate toward zero, and an index
    outside 0 .. gridSize-2 on either axis gives the default 0. Inside, the
    stored height of the cell's corner is returned as is, with no
    interpolation.
  */
  function HeightAt(t: Terrain, x: real, z: real): (r: real)
    requires Valid(t)
    ensures !OnGrid(t, x, z) ==> r == 0.0
    ensures OnGrid(t, x, z) ==> StoredCornerHeight(t, r)
  {
    var gridX := DoubleToInt(x / t.scale);
    var gridZ := DoubleToInt(z / t.scale);
    if gridX < 0 || gridX >= t.gridSize - 1 || gridZ < 0 || gridZ >= t.gridSize - 1 then 0.0
    else t.heights[gridZ][gridX]
  }

  lemma QuotientAtLeast(c: real, s: real, lo: real)
    requires 0.0 < s && lo * s <= c
    ensures lo <= c / s
  {
    assert c / s - lo == (c - lo * s) / s;
  }

  lemma QuotientAbove(c: real, s: real, lo: real)
    requires 0.0 < s && lo * s < c
    ensures lo < c / s
  {
    assert c / s - lo == (c - lo * s) / s;
  }

  lemma QuotientAtMost(c: real, s: real, hi: real)
    requires 0.0 < s && c <= hi * s
    ensures c / s <= hi
  {
    assert hi - c / s == (hi * s - c) / s;
  }

  lemma QuotientBelow(c: real, s: real, hi: real)
    requires 0.0 < s && c < hi * s
    ensures c / s < hi
  {
    assert hi - c / s == (hi * s - c) / s;
  }

  /** Both truncated indices of (x, z) name a cell, so the query reads the height array. */
  predicate OnGrid(t: Terrain, x: real, z: real)
    requires t.scale != 0.0
  {
    InCellRange(t, DoubleToInt(x / t.scale)) && InCellRange(t, DoubleToInt(z / t.scale))
  }

  /** `h` is the stored height of some cell's top-left corner. */
  ghost predicate StoredCornerHeight(t: Terrain, h: real)
    requires Valid(t)
  {
    exists gx, gz :: InCellRange(t, gx) && InCellRange(t, gz) && t.heights[gz][gx] == h
  }

  /** The cell index of a coordinate in [g*scale, (g+1)*scale) is g when g >= 0. */
  lemma CellOfCoordinate(c: real, scale: real, g: int)
    requires 0.0 < scale && 0 <= g <= IntMax - 1
    requires g as real * scale <= c < (g + 1) as real * scale
    ensures DoubleToInt(c / scale) == g
  {
    QuotientAtLeast(c, scale, g as real);
    QuotientBelow(c, scale, (g + 1) as real);
  }

  /**
    Height queries are piecewise constant: every point of cell (gx, gz), for a
    positive cell size, reads the stored height of the cell's top-left corner.
  */
  lemma HeightConstantOnCell(t: Terrain, x: real, z: real, gx: int, gz: int)
    requires Valid(t) && 0.0 < t.scale
    requires InCellRange(t, gx) && InCellRange(t, gz)
    requires gx as real * t.scale <= x < (gx + 1) as real * t.scale
    requires gz as real * t.scale <= z < (gz + 1) as real * t.scale
    ensures HeightAt(t, x, z) == t.heights[gz][gx]
  {
    CellOfCoordinate(x, t.scale, gx);
    CellOfCoordinate(z, t.scale, gz);
  }

  /** Querying at a grid point that starts a cell returns exactly the height generated for it. */
  lemma HeightAtGridPoint(t: Terrain, x: int, z: int)
    requires Valid(t) && 0.0 < t.scale
    requires InCellRange(t, x) && InCellRange(t, z)
    ensures HeightAt(t, x as real * t.scale, z as real * t.scale) == t.heights[z][x]
  {
    HeightConstantOnCell(t, x as real * t.scale, z as real * t.scale, x, z);
  }

  /** A coordinate at or beyond the band [-scale, (gridSize-1)*scale) truncates to an index outside the cells. */
  lemma OutsideBand(t: Terrain, c: real)
    requires Valid(t) && 0.0 < t.scale
    requires c <= -t.scale || (t.gridSize - 1) as real * t.scale <= c
    ensures !InCellRange(t, DoubleToInt(c / t.scale))
  {
    if c <= -t.scale {
      QuotientAtMost(c, t.scale, -1.0);
    } else {
      QuotientAtLeast(c, t.scale, (t.gridSize - 1) as real);
    }
  }

  /**
    Outside the band [-scale, (gridSize-1)*scale) on either axis the query
    falls back to 0. Truncation toward zero makes the band reach one whole
    cell below 0: a coordinate in (-scale, 0) still reads index 0.
  */
  lemma HeightZeroOutside(t: Terrain, x: real, z: real)
    requires Valid(t) && 0.0 < t.scale
    requires x <= -t.scale || (t.gridSize - 1) as real * t.scale <= x
          || z <= -t.scale || (t.gridSize - 1) as real * t.scale <= z
    ensures HeightAt(t, x, z) == 0.0
  {
    if x <= -t.scale || (t.gridSize - 1) as real * t.scale <= x {
      OutsideBand(t, x);
    } else {
      OutsideBand(t, z);
    }
  }

  /** The truncation quirk: a coordinate just below 0 reads column 0, where `floor` would give -1 and the default. */
  lemma NegativeSliverReadsColumnZero(t: Terrain, x: real, z: real, gz: int)
    requires Valid(t) && 0.0 < t.scale && 2 <= t.gridSize
    requires -t.scale < x < 0.0
    requires InCellRange(t, gz) && gz as real * t.scale <= z < (gz + 1) as real * t.scale
    ensures HeightAt(t, x, z) == t.heights[gz][0]
    ensures (x / t.scale).Floor == -1
  {
    QuotientAbove(x, t.scale, -1.0);
    QuotientBelow(x, t.scale, 0.0);
    CellOfCoordinate(z, t.scale, gz);
  }
}
