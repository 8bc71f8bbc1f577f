/**
  Tree placement and the tree mesh. `generateTrees` draws candidate spots
  uniformly over a rectangle, keeps those whose terrain height is dry land
  below the snow line, and stops after `count` trees or `3 * count`
  attempts. `generateMesh` then emits, per tree, a tapered box trunk
  (8 vertices, 4 quads) and a four-sided cone of leaves (5 vertices,
  4 triangles) into flat position, colour and index buffers.

  `java.util.Random.nextFloat` is a supplied stream of draws in [0, 1), read
  in program order.
*/
module TreeSystem {
  import opened Geometry
  import opened Terrain

  /** Trees grow only below this height (the snow line). */
  const SnowLine: real := 20.0
  /** How far above the water a tree must stand. */
  const ShoreMargin: real := 0.5
  /** The attempt budget per requested tree. */
  const AttemptsPerTree: int := 3

  const TrunkVertexCount: int := 8
  const LeavesVertexCount: int := 5
  /** Vertices one tree adds to the mesh. */
  const VerticesPerTree: int := 13
  /** Indices one tree adds to the mesh: 24 for the trunk, 12 for the leaves. */
  const IndicesPerTree: int := 36

  datatype TreeInstance = TreeInstance(position: Vec3, height: real, width: real)

  /** The rectangle candidate positions are drawn from. */
  datatype Region = Region(minX: real, maxX: real, minZ: real, maxZ: real)

  /** A stream of `nextFloat` results. */
  type Draws = nat -> real

  ghost predicate UnitDraws(floats: Draws)
  {
    forall i: nat :: 0.0 <= floats(i) < 1.0
  }

  /** The placement test: strictly above the water plus margin and strictly below the snow line. */
  predicate Accepts(h: real, waterHeight: real)
  {
    waterHeight + ShoreMargin < h < SnowLine
  }

  /** `lo + f * (hi - lo)`: a draw `f` stretched over [lo, hi]. */
  function Stretch(lo: real, hi: real, f: real): real
  {
    lo + f * (hi - lo)
  }

  /** A draw in [0, 1] lands in [lo, hi]; a draw below 1 lands below hi when the range is not empty. */
  lemma StretchRange(lo: real, hi: real, f: real)
    ensures 0.0 <= f <= 1.0 && lo <= hi ==> lo <= Stretch(lo, hi, f) <= hi
    ensures 0.0 <= f < 1.0 && lo < hi ==> Stretch(lo, hi, f) < hi
  {
    var d := hi - lo;
    var p := f * d;
    assert p == f * (hi - lo);
    assert (1.0 - f) * d == d - p;
    if 0.0 <= f <= 1.0 && lo <= hi {
      NonNegativeProduct(f, d);
      NonNegativeProduct(1.0 - f, d);
    }
    if 0.0 <= f < 1.0 && lo < hi {
      PositiveProduct(1.0 - f, d);
    }
  }

  lemma NonNegativeProduct(a: real, b: real)
    requires 0.0 <= a && 0.0 <= b
    ensures 0.0 <= a * b
  {
  }

  lemma PositiveProduct(a: real, b: real)
    requires 0.0 < a && 0.0 < b
    ensures 0.0 < a * b
  {
  }

  // ---------------------------------------------------------------------------
  // generateTrees
  // ---------------------------------------------------------------------------

  /** The loop state of `generateTrees`: the trees so far, the attempts made, and the next unread draw. */
  datatype Sampler = Sampler(trees: seq<TreeInstance>, attempts: int, cursor: nat)

  /** The tree a successful attempt plants at (x, h, z), from the next two draws. */
  function Planted(x: real, h: real, z: real, floats: Draws, cursor: nat): TreeInstance
  {
    TreeInstance(Vec3(x, h, z), 3.0 + floats(cursor) * 4.0, 0.3 + floats(cursor + 1) * 0.4)
  }

  /**
    One pass of the loop body: two draws for the spot, and two more when the
    spot is accepted. One attempt is spent; a tree is added exactly when the
    drawn spot passes the test, and it stands at the height the terrain
    reports there.
  */
  function Attempt(region: Region, waterHeight: real, t: Terrain, floats: Draws, s: Sampler): (r: Sampler)
    requires Valid(t)
    ensures r.attempts == s.attempts + 1
    ensures |s.trees| <= |r.trees| <= |s.trees| + 1 && r.trees[..|s.trees|] == s.trees
    ensures var x := Stretch(region.minX, region.maxX, floats(s.cursor));
      var z := Stretch(region.minZ, region.maxZ, floats(s.cursor + 1));
      |r.trees| == |s.trees| + 1 <==> Accepts(HeightAt(t, x, z), waterHeight)
    ensures |r.trees| == |s.trees| ==> r.cursor == s.cursor + 2
    ensures |r.trees| == |s.trees| + 1 ==> r.cursor == s.cursor + 4
    ensures |r.trees| == |s.trees| + 1 ==>
      (var tree := r.trees[|s.trees|];
       Accepts(tree.position.y, waterHeight) && tree.position.y == HeightAt(t, tree.position.x, tree.position.z))
  {
    var x := Stretch(region.minX, region.maxX, floats(s.cursor));
    var z := Stretch(region.minZ, region.maxZ, floats(s.cursor + 1));
    var h := HeightAt(t, x, z);
    if Accepts(h, waterHeight) then
      Sampler(s.trees + [Planted(x, h, z, floats, s.cursor + 2)], s.attempts + 1, s.cursor + 4)
    else
      Sampler(s.trees, s.attempts + 1, s.cursor + 2)
  }

  function Budget(count: int): int
  {
    count * AttemptsPerTree
  }

  /**
    The loop as a recursive definition: attempt while fewer than `count`
    trees and attempts remain. It stops with `count` trees or the budget
    spent, keeps the trees it started with, adds at most one per attempt, and
    from a state inside the limits it stays inside them.
  */
  function Run(count: int, region: Region, waterHeight: real, t: Terrain, floats: Draws, s: Sampler): (r: Sampler)
    requires Valid(t)
    ensures count <= |r.trees| || Budget(count) <= r.attempts
    ensures s.attempts <= r.attempts && |s.trees| <= |r.trees| && r.trees[..|s.trees|] == s.trees
    ensures |r.trees| - |s.trees| <= r.attempts - s.attempts
    ensures |s.trees| <= count && s.attempts <= Budget(count) ==> |r.trees| <= count && r.attempts <= Budget(count)
    decreases Budget(count) - s.attempts
  {
    if |s.trees| < count && s.attempts < Budget(count) then
      var next := Attempt(region, waterHeight, t, floats, s);
      var r := Run(count, region, waterHeight, t, floats, next);
      PrefixOfPrefix(s.trees, next.trees, r.trees);
      r
    else s
  }

  lemma PrefixOfPrefix<T>(a: seq<T>, b: seq<T>, c: seq<T>)
    requires |a| <= |b| <= |c| && b[..|a|] == a && c[..|b|] == b
    ensures c[..|a|] == a
  {
    assert c[..|a|] == c[..|b|][..|a|];
  }

  /** Every tree stands on an accepted spot, at the height the terrain reports there, with sizes drawn from their ranges. */
  ghost predicate WellPlaced(trees: seq<TreeInstance>, region: Region, waterHeight: real, t: Terrain)
    requires Valid(t)
  {
    forall i :: 0 <= i < |trees| ==>
      var tree := trees[i];
      && Accepts(tree.position.y, waterHeight)
      && tree.position.y == HeightAt(t, tree.position.x, tree.position.z)
      && 3.0 <= tree.height < 7.0
      && 0.3 <= tree.width < 0.7
      && (region.minX <= region.maxX ==> region.minX <= tree.position.x <= region.maxX)
      && (region.minX < region.maxX ==> tree.position.x < region.maxX)
      && (region.minZ <= region.maxZ ==> region.minZ <= tree.position.z <= region.maxZ)
      && (region.minZ < region.maxZ ==> tree.position.z < region.maxZ)
  }

  lemma PlantedInRange(region: Region, waterHeight: real, t: Terrain, floats: Draws, s: Sampler)
    requires Valid(t) && UnitDraws(floats)
    requires WellPlaced(s.trees, region, waterHeight, t)
    ensures WellPlaced(Attempt(region, waterHeight, t, floats, s).trees, region, waterHeight, t)
  {
    var c := s.cursor;
    assert 0.0 <= floats(c) < 1.0 && 0.0 <= floats(c + 1) < 1.0;
    assert 0.0 <= floats(c + 2) < 1.0 && 0.0 <= floats(c + 3) < 1.0;
    StretchRange(region.minX, region.maxX, floats(c));
    StretchRange(region.minZ, region.maxZ, floats(c + 1));
  }

  /**
    `generateTrees`: the list is emptied, then the rejection loop runs. The
    result is what the recursive definition gives; there are never more than
    `count` trees, at most one per attempt; a short result means the attempt
    budget ran out, with nothing reported; and every tree passed the test at
    the height the terrain reports.
  */
  method GenerateTrees(count: int, region: Region, waterHeight: real, t: Terrain, floats: Draws)
    returns (trees: seq<TreeInstance>, attempts: int)
    requires Valid(t) && UnitDraws(floats)
    ensures var r := Run(count, region, waterHeight, t, floats, Sampler([], 0, 0)); trees == r.trees && attempts == r.attempts
    ensures count <= 0 ==> trees == [] && attempts == 0
    ensures 0 <= count ==> |trees| <= count && 0 <= attempts <= Budget(count)
    ensures |trees| <= attempts || attempts == 0
    ensures |trees| < count ==> attempts == Budget(count)
    ensures WellPlaced(trees, region, waterHeight, t)
  {
    var s := Sampler([], 0, 0);
    while |s.trees| < count && s.attempts < Budget(count)
      invariant 0 <= s.attempts && |s.trees| <= s.attempts
      invariant 0 <= count ==> |s.trees| <= count && s.attempts <= Budget(count)
      invariant WellPlaced(s.trees, region, waterHeight, t)
      invariant Run(count, region, waterHeight, t, floats, s) == Run(count, region, waterHeight, t, floats, Sampler([], 0, 0))
      decreases Budget(count) - s.attempts
    {
      PlantedInRange(region, waterHeight, t, floats, s);
      s := Attempt(region, waterHeight, t, floats, s);
    }
    trees, attempts := s.trees, s.attempts;
  }

  /**
    When the water is at or above -0.5, an accepted height is positive, so no
    tree stands where the height query falls back to 0: every tree is over a
    grid cell.
  */
  lemma TreesOnGrid(trees: seq<TreeInstance>, region: Region, waterHeight: real, t: Terrain)
    requires Valid(t) && WellPlaced(trees, region, waterHeight, t)
    requires 0.0 <= waterHeight + ShoreMargin
    ensures forall i :: 0 <= i < |trees| ==> OnGrid(t, trees[i].position.x, trees[i].position.z)
  {
    forall i | 0 <= i < |trees|
      ensures OnGrid(t, trees[i].position.x, trees[i].position.z)
    {
      assert HeightAt(t, trees[i].position.x, trees[i].position.z) == trees[i].position.y;
    }
  }

  // ---------------------------------------------------------------------------
  // Mesh emission
  // ---------------------------------------------------------------------------

  /** The three lists `generateMesh` fills: positions and colours (3 floats per vertex) and indices. */
  datatype TreeMesh = TreeMesh(vertices: seq<real>, colors: seq<real>, indices: seq<int>)

  /** A vertex read back from a flat three-floats-per-vertex list. */
  function VertexAt(buffer: seq<real>, k: int): Vec3
    requires 0 <= k && 3 * k + 3 <= |buffer|
  {
    Vec3(buffer[3 * k], buffer[3 * k + 1], buffer[3 * k + 2])
  }

  /** `c` repeated `n` times, as a flat colour list. */
  function Repeat(c: seq<real>, n: nat): (r: seq<real>)
    ensures |r| == n * |c|
  {
    if n == 0 then [] else c + Repeat(c, n - 1)
  }

  /** The trunk: a square ring of half-width w at ground level and one of 0.8 w at 60% of the height. */
  function TrunkVertices(tree: TreeInstance): (r: seq<real>)
    ensures |r| == 3 * TrunkVertexCount
  {
    var (x, y, z) := (tree.position.x, tree.position.y, tree.position.z);
    var w := tree.width;
    var h := tree.height * 0.6;
    var u := w * 0.8;
    [x - w, y, z - w,  x + w, y, z - w,  x + w, y, z + w,  x - w, y, z + w,
     x - u, y + h, z - u,  x + u, y + h, z - u,  x + u, y + h, z + u,  x - u, y + h, z + u]
  }

  /** Four side quads, each as two triangles: bottom i, bottom i+1, top i+1 and top i+1, top i, bottom i. */
  function TrunkIndices(offset: int): (r: seq<int>)
    ensures |r| == 24
    ensures forall i :: 0 <= i < |r| ==> offset <= r[i] < offset + TrunkVertexCount
  {
    var o := offset;
    [o + 0, o + 1, o + 5,  o + 5, o + 4, o + 0,
     o + 1, o + 2, o + 6,  o + 6, o + 5, o + 1,
     o + 2, o + 3, o + 7,  o + 7, o + 6, o + 2,
     o + 3, o + 0, o + 4,  o + 4, o + 7, o + 3]
  }

  /** The cone: an apex at the top of the tree over a square base of half-width 2.5 w at half the height. */
  function LeavesVertices(tree: TreeInstance): (r: seq<real>)
    ensures |r| == 3 * LeavesVertexCount
  {
    var (x, z) := (tree.position.x, tree.position.z);
    var y := tree.position.y + tree.height * 0.5;
    var w := tree.width * 2.5;
    var h := tree.height * 0.5;
    [x, y + h, z,  x - w, y, z - w,  x + w, y, z - w,  x + w, y, z + w,  x - w, y, z + w]
  }

  /** Four triangles, each from the apex to one side of the base. */
  function LeavesIndices(offset: int): (r: seq<int>)
    ensures |r| == 12
    ensures forall i :: 0 <= i < |r| ==> offset <= r[i] < offset + LeavesVertexCount
  {
    var o := offset;
    [o + 0, o + 1, o + 2,  o + 0, o + 2, o + 3,  o + 0, o + 3, o + 4,  o + 0, o + 4, o + 1]
  }

  const Bark: seq<real> := [0.4, 0.25, 0.1]
  const Foliage: seq<real> := [0.1, 0.6, 0.1]
  /** The apex is the foliage colour darkened to 80%. */
  const Apex: seq<real> := [0.1 * 0.8, 0.6 * 0.8, 0.1 * 0.8]

  /** `addTrunk`: eight brown vertices and 24 indices into them, appended; the lists' earlier contents stay. */
  function AddTrunk(m: TreeMesh, tree: TreeInstance, offset: int): (r: TreeMesh)
    ensures |r.vertices| == |m.vertices| + 24 && |r.colors| == |m.colors| + 24 && |r.indices| == |m.indices| + 24
    ensures r.vertices[..|m.vertices|] == m.vertices && r.colors[..|m.colors|] == m.colors
    ensures r.indices[..|m.indices|] == m.indices
    ensures forall i :: |m.indices| <= i < |r.indices| ==> offset <= r.indices[i] < offset + TrunkVertexCount
  {
    var r := TreeMesh(m.vertices + TrunkVertices(tree), m.colors + Repeat(Bark, 8), m.indices + TrunkIndices(offset));
    Appended(m.vertices, TrunkVertices(tree));
    Appended(m.colors, Repeat(Bark, 8));
    AppendedWithin(m.indices, TrunkIndices(offset), offset, offset + TrunkVertexCount);
    r
  }

  /** `addLeaves`: five green vertices and 12 indices into them, appended; the lists' earlier contents stay. */
  function AddLeaves(m: TreeMesh, tree: TreeInstance, offset: int): (r: TreeMesh)
    ensures |r.vertices| == |m.vertices| + 15 && |r.colors| == |m.colors| + 15 && |r.indices| == |m.indices| + 12
    ensures r.vertices[..|m.vertices|] == m.vertices && r.colors[..|m.colors|] == m.colors
    ensures r.indices[..|m.indices|] == m.indices
    ensures forall i :: |m.indices| <= i < |r.indices| ==> offset <= r.indices[i] < offset + LeavesVertexCount
  {
    var r := TreeMesh(m.vertices + LeavesVertices(tree), m.colors + (Apex + Repeat(Foliage, 4)), m.indices + LeavesIndices(offset));
    Appended(m.vertices, LeavesVertices(tree));
    Appended(m.colors, Apex + Repeat(Foliage, 4));
    AppendedWithin(m.indices, LeavesIndices(offset), offset, offset + LeavesVertexCount);
    r
  }

  lemma Appended<T>(a: seq<T>, b: seq<T>)
    ensures |a + b| == |a| + |b| && (a + b)[..|a|] == a
  {
  }

  /** Appending entries that lie in [lo, hi) puts only such entries after the old ones. */
  lemma AppendedWithin(a: seq<int>, b: seq<int>, lo: int, hi: int)
    requires forall i :: 0 <= i < |b| ==> lo <= b[i] < hi
    ensures (a + b)[..|a|] == a
    ensures forall i :: |a| <= i < |a + b| ==> lo <= (a + b)[i] < hi
  {
    forall i | |a| <= i < |a + b|
      ensures lo <= (a + b)[i] < hi
    {
      assert (a + b)[i] == b[i - |a|];
    }
  }

  /** Every trunk triangle has three distinct corners and every trunk vertex is used. */
  lemma TrunkTriangles(offset: int)
    ensures var r := TrunkIndices(offset);
      forall k :: 0 <= k < 8 ==> r[3 * k] != r[3 * k + 1] && r[3 * k + 1] != r[3 * k + 2] && r[3 * k] != r[3 * k + 2]
    ensures forall v :: offset <= v < offset + TrunkVertexCount ==> v in TrunkIndices(offset)
  {
    var r := TrunkIndices(offset);
    forall v | offset <= v < offset + TrunkVertexCount
      ensures v in r
    {
      var k := v - offset;
      assert r[if k < 4 then k * 6 else (k - 4) * 6 + 4] == v;
    }
  }

  /** Every leaf triangle contains the apex, has three distinct corners, and every leaf vertex is used. */
  lemma LeavesTriangles(offset: int)
    ensures var r := LeavesIndices(offset);
      forall k :: 0 <= k < 4 ==> r[3 * k] == offset && r[3 * k + 1] != r[3 * k + 2] && r[3 * k + 1] != offset && r[3 * k + 2] != offset
    ensures forall v :: offset <= v < offset + LeavesVertexCount ==> v in LeavesIndices(offset)
  {
    var r := LeavesIndices(offset);
    forall v | offset <= v < offset + LeavesVertexCount
      ensures v in r
    {
      assert r[if v == offset then 0 else 3 * (v - offset - 1) + 1] == v;
    }
  }

  /**
    Vertices k .. k+3 of a flat buffer are the corners of a horizontal square
    of half-width `half` centred over `centre`, at height `y`, in the order
    (-,-), (+,-), (+,+), (-,+) of x and z.
  */
  ghost predicate SquareRing(buffer: seq<real>, k: int, centre: Vec3, half: real, y: real)
    requires 0 <= k && 3 * (k + 4) <= |buffer|
  {
    && VertexAt(buffer, k) == Vec3(centre.x - half, y, centre.z - half)
    && VertexAt(buffer, k + 1) == Vec3(centre.x + half, y, centre.z - half)
    && VertexAt(buffer, k + 2) == Vec3(centre.x + half, y, centre.z + half)
    && VertexAt(buffer, k + 3) == Vec3(centre.x - half, y, centre.z + half)
  }

  /**
    Where a tree's vertices sit. The trunk is a square of half-width w on the
    ground under a square of half-width 0.8 w at 60% of the height; the cone
    is a square of half-width 2.5 w at half the height under an apex at the
    full height, all centred over the tree's position.
  */
  lemma TreeShape(tree: TreeInstance)
    ensures SquareRing(TrunkVertices(tree), 0, tree.position, tree.width, tree.position.y)
    ensures SquareRing(TrunkVertices(tree), 4, tree.position, 0.8 * tree.width, tree.position.y + 0.6 * tree.height)
    ensures VertexAt(LeavesVertices(tree), 0) == Vec3(tree.position.x, tree.position.y + tree.height, tree.position.z)
    ensures SquareRing(LeavesVertices(tree), 1, tree.position, 2.5 * tree.width, tree.position.y + 0.5 * tree.height)
  {
    TrunkBase(tree);
    TrunkTop(tree);
    LeavesBase(tree);
  }

  lemma TrunkBase(tree: TreeInstance)
    ensures SquareRing(TrunkVertices(tree), 0, tree.position, tree.width, tree.position.y)
  {
    var v := TrunkVertices(tree);
    assert v[..12] == [tree.position.x - tree.width, tree.position.y, tree.position.z - tree.width,
                       tree.position.x + tree.width, tree.position.y, tree.position.z - tree.width,
                       tree.position.x + tree.width, tree.position.y, tree.position.z + tree.width,
                       tree.position.x - tree.width, tree.position.y, tree.position.z + tree.width];
  }

  lemma TrunkTop(tree: TreeInstance)
    ensures SquareRing(TrunkVertices(tree), 4, tree.position, 0.8 * tree.width, tree.position.y + 0.6 * tree.height)
  {
    var v := TrunkVertices(tree);
    var (u, y) := (tree.width * 0.8, tree.position.y + tree.height * 0.6);
    assert v[12..] == [tree.position.x - u, y, tree.position.z - u,  tree.position.x + u, y, tree.position.z - u,
                       tree.position.x + u, y, tree.position.z + u,  tree.position.x - u, y, tree.position.z + u];
  }

  lemma LeavesBase(tree: TreeInstance)
    ensures SquareRing(LeavesVertices(tree), 1, tree.position, 2.5 * tree.width, tree.position.y + 0.5 * tree.height)
  {
  }

  /**
    One tree: its trunk at `offset`, then its leaves at `offset + 8`. It adds
    39 position floats, 39 colour floats and 36 indices, all into its own 13
    vertices, and keeps what was there.
  */
  function EmitTree(m: TreeMesh, tree: TreeInstance, offset: int): (r: TreeMesh)
    ensures |r.vertices| == |m.vertices| + 39 && |r.colors| == |m.colors| + 39
    ensures |r.indices| == |m.indices| + IndicesPerTree
    ensures r.vertices[..|m.vertices|] == m.vertices && r.colors[..|m.colors|] == m.colors
    ensures r.indices[..|m.indices|] == m.indices
    ensures forall j :: |m.indices| <= j < |r.indices| ==> offset <= r.indices[j] < offset + VerticesPerTree
  {
    var trunk := AddTrunk(m, tree, offset);
    var r := AddLeaves(trunk, tree, offset + TrunkVertexCount);
    PrefixOfPrefix(m.vertices, trunk.vertices, r.vertices);
    PrefixOfPrefix(m.colors, trunk.colors, r.colors);
    PrefixOfPrefix(m.indices, trunk.indices, r.indices);
    TrunkIndicesKept(m, trunk, r, offset);
    r
  }

  lemma PrefixAgrees<T>(a: seq<T>, c: seq<T>, j: int)
    requires |a| <= |c| && c[..|a|] == a && 0 <= j < |a|
    ensures c[j] == a[j]
  {
    assert c[j] == c[..|a|][j];
  }

  /** The trunk's indices stay in place, and in range, when the leaves are appended. */
  lemma TrunkIndicesKept(m: TreeMesh, trunk: TreeMesh, r: TreeMesh, offset: int)
    requires |m.indices| <= |trunk.indices| <= |r.indices| && r.indices[..|trunk.indices|] == trunk.indices
    requires forall j :: |m.indices| <= j < |trunk.indices| ==> offset <= trunk.indices[j] < offset + TrunkVertexCount
    ensures forall j :: |m.indices| <= j < |trunk.indices| ==> offset <= r.indices[j] < offset + VerticesPerTree
  {
    forall j | |m.indices| <= j < |trunk.indices|
      ensures offset <= r.indices[j] < offset + VerticesPerTree
    {
      PrefixAgrees(trunk.indices, r.indices, j);
    }
  }

  /** Tree i's 36 indices, in slots 36 i .. 36 i + 35, name only its own vertices 13 i .. 13 i + 12. */
  ghost predicate OwnBlock(indices: seq<int>, i: int)
    requires 0 <= i && IndicesPerTree * (i + 1) <= |indices|
  {
    forall j :: IndicesPerTree * i <= j < IndicesPerTree * (i + 1) ==>
      VerticesPerTree * i <= indices[j] < VerticesPerTree * (i + 1)
  }

  /** Appending to an index list keeps the blocks already in it. */
  lemma BlocksKept(before: seq<int>, after: seq<int>, n: nat)
    requires IndicesPerTree * n <= |before| <= |after| && after[..|before|] == before
    requires forall i :: 0 <= i < n ==> OwnBlock(before, i)
    ensures forall i :: 0 <= i < n ==> OwnBlock(after, i)
  {
    forall i | 0 <= i < n
      ensures OwnBlock(after, i)
    {
      assert OwnBlock(before, i);
      forall j | IndicesPerTree * i <= j < IndicesPerTree * (i + 1)
        ensures VerticesPerTree * i <= after[j] < VerticesPerTree * (i + 1)
      {
        PrefixAgrees(before, after, j);
      }
    }
  }

  /**
    The lists after the first `|trees|` trees, tree i's vertices starting at
    13 i: 39 position floats, 39 colour floats and 36 indices per tree, and
    every tree's indices point into that tree's own vertices.
  */
  function MeshOf(trees: seq<TreeInstance>): (m: TreeMesh)
    ensures |m.vertices| == 39 * |trees| && |m.colors| == 39 * |trees|
    ensures |m.indices| == IndicesPerTree * |trees|
    ensures forall i :: 0 <= i < |trees| ==> OwnBlock(m.indices, i)
  {
    if |trees| == 0 then TreeMesh([], [], [])
    else
      var n := |trees| - 1;
      var before := MeshOf(trees[..n]);
      var after := EmitTree(before, trees[n], VerticesPerTree * n);
      BlocksKept(before.indices, after.indices, n);
      after
  }

  /** The tree whose block of 36 index slots holds slot j. */
  function BlockOfSlot(j: int, n: nat): (i: nat)
    requires 0 <= j < IndicesPerTree * n
    ensures i < n && IndicesPerTree * i <= j < IndicesPerTree * (i + 1)
  {
    j / IndicesPerTree
  }

  /**
    `generateMesh`: one trunk and one cone per tree, the running vertex offset
    advancing by 8 and then 5, and `vertexCount` set to the number of indices.
  */
  method GenerateMesh(trees: seq<TreeInstance>) returns (mesh: TreeMesh, vertexCount: int)
    ensures mesh == MeshOf(trees)
    ensures |mesh.vertices| == |mesh.colors| == 3 * VerticesPerTree * |trees| == 39 * |trees|
    ensures |mesh.indices| == IndicesPerTree * |trees| && vertexCount == |mesh.indices|
    ensures forall j :: 0 <= j < |mesh.indices| ==> 0 <= mesh.indices[j] < VerticesPerTree * |trees|
    ensures forall i :: 0 <= i < |trees| ==> OwnBlock(mesh.indices, i)
  {
    mesh := TreeMesh([], [], []);
    var offset := 0;
    var i := 0;
    while i < |trees|
      invariant 0 <= i <= |trees|
      invariant offset == VerticesPerTree * i
      invariant mesh == MeshOf(trees[..i])
    {
      assert trees[..i + 1][..i] == trees[..i];
      // addTrunk at `offset`, then addLeaves at `offset + 8`
      mesh := EmitTree(mesh, trees[i], offset);
      offset := offset + TrunkVertexCount + LeavesVertexCount;
      i := i + 1;
    }
    assert trees[..i] == trees;
    vertexCount := |mesh.indices|;
    forall j | 0 <= j < |mesh.indices|
      ensures 0 <= mesh.indices[j] < VerticesPerTree * |trees|
    {
      var i := BlockOfSlot(j, |trees|);
      assert OwnBlock(mesh.indices, i);
    }
  }
}
