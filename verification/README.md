# Procedural terrain, trees and camera — a Dafny model

This project models the procedural-generation core of a small LWJGL terrain
viewer, written in Java. The core has four parts:

- **`PerlinNoise`**: a 256-entry permutation table built by swap-shuffling,
  then doubled to 512 entries. On top of it sit 2D gradient noise (`noise`)
  and its octave sum (`fractalNoise`).
- **`Terrain`**: an N×N heightmap sampled from fractal noise. From it the
  viewer builds row-major vertex, UV and index buffers, the unnormalised
  vertex normals, and a piecewise-constant height query (`getHeightAt`).
- **`TreeSystem`**: rejection sampling of tree positions over the terrain,
  then a fixed 13-vertex / 36-index mesh per tree.
- **`Camera`**: a pitch clamp and a terrain-collision step that keeps the eye
  at least 2 units above the ground.

Modelling choices:

- **Floats** are exact `real`s.
- **Double division** is `JavaNumeric.Divide`: a zero divisor gives
  `NonFinite`, which stands for NaN or an infinity.
- **`(int)` casts** are truncation toward zero, then saturation to 32 bits.
- **`& 255` on an int** keeps the low byte, which is the floor remainder
  modulo 256.
- **`java.util.Random`** is a supplied stream of draws:
  - `nextInt(256)` draws are a sequence of integers in [0, 256);
  - `nextFloat` draws are a function from the draw number to [0, 1).
- **The Terrain's noise source** is a supplied field `(x, z) -> real`. The
  program's field is `Terrain.NoiseField`: `fractalNoise(·, ·, 6, 0.5)` of the
  generator, which is `PerlinNoise.FractalField` over `PerlinNoise.NoiseOf`.
- **The camera's `sin`/`cos` of the yaw** are a supplied function from an
  angle in degrees to its (sine, cosine) pair.
- **Mutating methods** become functions from the old state to the new state.
- **Nested loops** over (z, x) are flattened to k = z·N + x, visiting the
  points in the same order.

`getHeightAt` truncates `x / scale` toward zero; it does not floor. So a
query at x in (−scale, 0) still reads column 0
(`Terrain.NegativeSliverReadsColumnZero`). The model follows the code here.

**Observation (not a defect claim).** On a flat or any laid-out grid, every
contribution to a vertex normal has vertical component −scale², so the
pre-normalised normals point down (`Terrain.NormalVertical`). The index
buffer's triangles, in the order they are written, have face normals with
vertical component +scale², pointing up (`Terrain.CellFacesUp`). Whether the
renderer depends on either orientation is outside this model.

## Model

| member | source | states |
|---|---|---|
| `JavaNumeric.Divide` | src/main/java/org/example/terrain/Terrain.java:70-71 | double division is finite exactly when the divisor is non-zero, and then the quotient times the divisor is the dividend |
| `JavaNumeric.Trunc` | src/main/java/org/example/terrain/Terrain.java:231-232 | rounding toward zero: for non-negative r the result is the largest integer not above r; for negative r, the smallest integer not below r |
| `JavaNumeric.Saturate` | src/main/java/org/example/terrain/Terrain.java:231-232 | the narrowing cast clamps to [−2^31, 2^31−1] and leaves in-range values alone |
| `JavaNumeric.DoubleToInt` | src/main/java/org/example/terrain/Terrain.java:231-232 | `(int) d` is always a 32-bit value, and inside the int range it is `d` truncated toward zero |
| `JavaNumeric.FloorToInt` | src/main/java/org/example/terrain/PerlinNoise.java:47-48 | `(int) Math.floor(d)` inside the int range is the integer n with n ≤ d < n + 1 |
| `JavaNumeric.LowByte` | src/main/java/org/example/terrain/PerlinNoise.java:47-48 | `n & 255` lies in [0, 255] and differs from n by a multiple of 256 |
| `JavaNumeric.FloorShift` | src/main/java/org/example/terrain/PerlinNoise.java:47-52 | floor moves by exactly k when its argument moves by the whole number k |
| `JavaNumeric.TruncVersusFloor` | src/main/java/org/example/terrain/Terrain.java:231-232 | truncation equals floor for non-negative values and is one above floor for negative non-integers |
| `Geometry.CrossOrthogonal` | src/main/java/org/example/terrain/Terrain.java:129-131 | the cross product of two edges is perpendicular to both |
| `PerlinNoise.Swap` | src/main/java/org/example/terrain/PerlinNoise.java:28-30 | exchanging entries i and j keeps the multiset of entries, moves each of the two entries to the other's place, and leaves every other entry alone |
| `PerlinNoise.Shuffled` | src/main/java/org/example/terrain/PerlinNoise.java:20-31 | after any number of swap steps with any draws in [0, 256) the table is still a permutation of 0..255 |
| `PerlinNoise.IdentityCounts` | src/main/java/org/example/terrain/PerlinNoise.java:21-23 | the initial table 0, 1, …, n−1 holds each of those values exactly once and nothing else |
| `PerlinNoise.PermutationFacts` | src/main/java/org/example/terrain/PerlinNoise.java:20-31 | a permutation's entries are all in [0, 255], pairwise distinct, and every value in [0, 255] occurs |
| `PerlinNoise.Shuffle` | src/main/java/org/example/terrain/PerlinNoise.java:25-31 | the shuffle loop, which draws j from the whole range rather than from [i, 256), yields a permutation, and it is the one the step-by-step definition gives |
| `PerlinNoise.DoubleTable` | src/main/java/org/example/terrain/PerlinNoise.java:33-36 | the doubled table has 512 entries, `p[i] == permutation[i % 256]`, so it is the permutation written twice |
| `PerlinNoise.NewNoise` | src/main/java/org/example/terrain/PerlinNoise.java:14-37 | the constructor's result is the shuffled permutation and its doubling; it satisfies the table invariant |
| `PerlinNoise.TableFacts` | src/main/java/org/example/terrain/PerlinNoise.java:33-36 | `p[i + 256] == p[i]`, and the first half of `p` contains every value in [0, 255] |
| `PerlinNoise.Fade` | src/main/java/org/example/terrain/PerlinNoise.java:101-104 | fade(0) = 0 and fade(1) = 1 |
| `PerlinNoise.FadeSymmetric` | src/main/java/org/example/terrain/PerlinNoise.java:101-104 | fade(1 − t) = 1 − fade(t) |
| `PerlinNoise.FadeBounds` | src/main/java/org/example/terrain/PerlinNoise.java:101-104 | fade maps [0, 1] into [0, 1] |
| `PerlinNoise.Lerp` | src/main/java/org/example/terrain/PerlinNoise.java:106-109 | lerp(0, a, b) = a and lerp(1, a, b) = b, and for t in [0, 1] the result lies between a and b |
| `PerlinNoise.Grad` | src/main/java/org/example/terrain/PerlinNoise.java:111-117 | only `hash & 3` matters: 0 gives x + z, 1 and 2 both give z − x, 3 gives −x − z |
| `PerlinNoise.CellCoordinate` | src/main/java/org/example/terrain/PerlinNoise.java:47-48 | the cell coordinate is in [0, 255] and, inside the int range, equals floor(c) mod 256, negative c included |
| `PerlinNoise.Hashes` | src/main/java/org/example/terrain/PerlinNoise.java:59-64 | `A` and `B` are at most 510, so `A + 1` and `B + 1` are at most 511; `AA`, `AB`, `BA`, `BB` are in [0, 255]; so every lookup is in bounds |
| `PerlinNoise.Frac` | src/main/java/org/example/terrain/PerlinNoise.java:51-52 | the offset inside the cell is in [0, 1) and removing it leaves a whole number |
| `PerlinNoise.CellNoise` | src/main/java/org/example/terrain/PerlinNoise.java:54-72 | with offsets in [0, 1) the blend of the four corner gradients lies in [−2, 2], and at zero offsets (the cell corner itself) it is 0 |
| `PerlinNoise.Noise2D` | src/main/java/org/example/terrain/PerlinNoise.java:45-73 | `noise` returns a value in [−2, 2] at every point |
| `PerlinNoise.NoiseVanishesOnLattice` | src/main/java/org/example/terrain/PerlinNoise.java:47-70 | `noise` is 0 at every integer lattice point |
| `PerlinNoise.NoisePeriodicX` | src/main/java/org/example/terrain/PerlinNoise.java:47-52 | `noise(x + 256, z) == noise(x, z)` while floor(x) + 256 stays in the int range |
| `PerlinNoise.NoisePeriodicZ` | src/main/java/org/example/terrain/PerlinNoise.java:47-52 | `noise(x, z + 256) == noise(x, z)` while floor(z) + 256 stays in the int range |
| `PerlinNoise.FractalSum` | src/main/java/org/example/terrain/PerlinNoise.java:83-98 | the octave loop computes the octave sum divided by the amplitude sum; 0 octaves give 0/0 (not finite); with octaves ≥ 1 and persistence ≥ 0 the result is finite |
| `PerlinNoise.OctaveSum` | src/main/java/org/example/terrain/PerlinNoise.java:89-95 | what the octaves add to `total`: with samples in [−2, 2] and non-negative weights it lies within ±2 times the weights' sum |
| `PerlinNoise.AmplitudeSum` | src/main/java/org/example/terrain/PerlinNoise.java:89-95 | what the octaves add to `maxValue`: with non-negative weights it is non-negative, and at least the first amplitude once one octave runs |
| `PerlinNoise.FractalNoise` | src/main/java/org/example/terrain/PerlinNoise.java:83-98 | `fractalNoise` is not finite for octaves ≤ 0; with octaves ≥ 1 and persistence ≥ 0 it is finite, in [−2, 2], and the value of `FractalField` at (x, z) |
| `PerlinNoise.NoiseOfBounded` | src/main/java/org/example/terrain/PerlinNoise.java:45-73 | every sample of the generator's `noise` lies in [−2, 2] |
| `PerlinNoise.FractalBounded` | src/main/java/org/example/terrain/PerlinNoise.java:83-98 | with at least one octave and persistence ≥ 0, maxValue ≥ 1 and the normalised sum stays in [−2, 2] |
| `PerlinNoise.FractalFieldBounded` | src/main/java/org/example/terrain/PerlinNoise.java:83-98 | for a fixed octave count ≥ 1 and persistence ≥ 0, every value of `fractalNoise` lies in [−2, 2] |
| `PerlinNoise.NormalizedBounded` | src/main/java/org/example/terrain/PerlinNoise.java:89-98 | for any sampling function bounded by 2, the octave sum normalised by maxValue is bounded by 2 |
| `PerlinNoise.AmplitudeSumGeometric` | src/main/java/org/example/terrain/PerlinNoise.java:86-93 | maxValue is the geometric sum: (1 − p)·maxValue = a·(1 − pⁿ) |
| `Terrain.VertexIndex` | src/main/java/org/example/terrain/Terrain.java:88-91 | the row-major index z·N + x of a grid point is a vertex number in [0, N²) |
| `Terrain.GridPoint` | src/main/java/org/example/terrain/Terrain.java:62-63 | every vertex number in [0, N²) is the row-major index of a grid point |
| `Terrain.GridPointOfVertex` | src/main/java/org/example/terrain/Terrain.java:62-67 | numbering a grid point and reading the number back gives the point: the layout is one-to-one |
| `Terrain.SampleHeight` | src/main/java/org/example/terrain/Terrain.java:41-46 | the height stored for (x, z) is the field at (x/N·5, z/N·5) times heightScale; a field within [−2, 2] and heightScale ≥ 0 give a height within ±2·heightScale |
| `Terrain.NoiseHeightsBounded` | src/main/java/org/example/terrain/Terrain.java:41-46 | with the program's field (`fractalNoise` with 6 octaves and persistence 0.5) every height lies in [−2·heightScale, 2·heightScale] for heightScale ≥ 0 |
| `Terrain.GenerateHeights` | src/main/java/org/example/terrain/Terrain.java:37-47 | `heights` is N×N and `heights[z][x]` is the field at (x/N·5, z/N·5) times heightScale |
| `Terrain.TexCoord` | src/main/java/org/example/terrain/Terrain.java:70-71 | for N ≥ 2 the UV coordinate is finite and in [0, 1], 0 at the first line and 1 at the last; for N = 1 it is 0/0 |
| `Terrain.OffsetIsProduct` | src/main/java/org/example/terrain/Terrain.java:65-67 | the position of grid line i is i·scale |
| `Terrain.LayOutVertices` | src/main/java/org/example/terrain/Terrain.java:51-76 | the position buffer holds 3N² floats with vertex z·N + x at (x·scale, heights[z][x], z·scale); the UV buffer holds 2N² entries with that vertex's UV pair at 2(z·N + x) |
| `Terrain.LeftTopCross` | src/main/java/org/example/terrain/Terrain.java:122-133 | the (left, top) cross product is perpendicular to both edges from the vertex to those neighbours |
| `Terrain.RightBottomCross` | src/main/java/org/example/terrain/Terrain.java:135-146 | the (right, bottom) cross product is perpendicular to both edges from the vertex to those neighbours |
| `Terrain.NormalSum` | src/main/java/org/example/terrain/Terrain.java:115-146 | the summed normal is the zero vector when no neighbour pair exists, and perpendicular to the contributing edges when exactly one pair does |
| `Terrain.CalculateNormals` | src/main/java/org/example/terrain/Terrain.java:111-156 | the normal buffer holds 3N² floats, and vertex (x, z)'s entry is its left/top cross product when x > 0 and z > 0, plus its right/bottom cross product when x < N−1 and z < N−1 |
| `Terrain.NormalVertical` | src/main/java/org/example/terrain/Terrain.java:122-146 | on the laid-out grid the summed normal's y is −2·scale² with both pairs, −scale² with one, and the zero vector with neither; so it points down whenever scale ≠ 0 and some pair contributes |
| `Terrain.LeftTopVertical` | src/main/java/org/example/terrain/Terrain.java:122-133 | the (left, top) cross product has vertical component −scale², whatever the heights |
| `Terrain.RightBottomVertical` | src/main/java/org/example/terrain/Terrain.java:135-146 | the (right, bottom) cross product has vertical component −scale², whatever the heights |
| `Terrain.UnlitVertices` | src/main/java/org/example/terrain/Terrain.java:122-149 | for N ≥ 2, a vertex gets no normal contribution exactly when it is (N−1, 0) or (0, N−1), the two corners normalised from a zero vector |
| `Terrain.CellIndices` | src/main/java/org/example/terrain/Terrain.java:88-101 | a cell writes six indices: top-left, bottom-left, top-right, top-right, bottom-left, bottom-right, all below N² |
| `Terrain.CellTriangles` | src/main/java/org/example/terrain/Terrain.java:93-101 | each of the cell's two triangles has three distinct corners, and the triangles share exactly the edge top-right/bottom-left |
| `Terrain.CellFacesUp` | src/main/java/org/example/terrain/Terrain.java:93-101 | in the order they are written, both triangles of a laid-out cell have face normals with vertical component +scale² |
| `Terrain.CellSlot` | src/main/java/org/example/terrain/Terrain.java:86-87 | the cell loops visit cell (x, z) at slot z·(N−1) + x, inside the (N−1)² slots |
| `Terrain.Cell` | src/main/java/org/example/terrain/Terrain.java:86-87 | each slot names a cell inside the grid |
| `Terrain.SlotOfCell` | src/main/java/org/example/terrain/Terrain.java:86-87 | every slot is the slot of its cell, so the cell loops visit every slot |
| `Terrain.CellOfSlot` | src/main/java/org/example/terrain/Terrain.java:86-87 | every cell is visited at its own slot, so no two cells share a slot |
| `Terrain.SlotIndices` | src/main/java/org/example/terrain/Terrain.java:88-101 | the six indices written at a slot all name existing vertices |
| `Terrain.IndicesUpToLength` | src/main/java/org/example/terrain/Terrain.java:84-103 | after c slots the index array has 6c entries written |
| `Terrain.IndicesUpToSlot` | src/main/java/org/example/terrain/Terrain.java:84-103 | once slot d is written, entries 6d..6d+5 are that slot's six indices, whatever is written later |
| `Terrain.IndicesUpToBounded` | src/main/java/org/example/terrain/Terrain.java:84-103 | every entry written by the first c slots is below N² |
| `Terrain.BuildIndices` | src/main/java/org/example/terrain/Terrain.java:82-103 | the index array has (N−1)²·6 entries; cell (x, z) fills slots 6(z(N−1)+x)..+5 with its two triangles; for N ≥ 1 every entry is below N²; for N = 0 six zeros remain |
| `Terrain.GenerateTerrain` | src/main/java/org/example/terrain/Terrain.java:35-105 | the constructor's heights are the sampled field; positions are laid out as in `LayOutVertices`; vertex (x, z)'s normal is its `NormalSum` and its UV pair is (x/(N−1), z/(N−1)); cell (x, z)'s six indices sit in its own slot, every index names a vertex for N ≥ 1 and N = 0 leaves six zeros; vertexCount equals the number of indices |
| `Terrain.HeightAt` | src/main/java/org/example/terrain/Terrain.java:229-239 | the height query gives 0 whenever either truncated index is outside [0, N−2], and otherwise a height stored for some cell's top-left corner |
| `Terrain.CellOfCoordinate` | src/main/java/org/example/terrain/Terrain.java:231-232 | for positive scale, a coordinate in [g·scale, (g+1)·scale) with g ≥ 0 truncates to index g |
| `Terrain.HeightConstantOnCell` | src/main/java/org/example/terrain/Terrain.java:229-238 | everywhere inside cell (gx, gz) the query returns exactly `heights[gz][gx]`, with no interpolation |
| `Terrain.HeightAtGridPoint` | src/main/java/org/example/terrain/Terrain.java:229-238 | at a grid point inside the cell range the query returns the stored height |
| `Terrain.OutsideBand` | src/main/java/org/example/terrain/Terrain.java:231-234 | a coordinate at or below −scale, or at or beyond (N−1)·scale, truncates to an index outside [0, N−2] |
| `Terrain.HeightZeroOutside` | src/main/java/org/example/terrain/Terrain.java:229-236 | outside the band (−scale, (N−1)·scale) along either axis, the query returns 0 |
| `Terrain.NegativeSliverReadsColumnZero` | src/main/java/org/example/terrain/Terrain.java:231-238 | for x in (−scale, 0), where floor would give −1, truncation gives 0 and the query reads column 0 |
| `TreeSystem.StretchRange` | src/main/java/org/example/graphics/TreeSystem.java:60-61 | a draw in [0, 1] puts the sample in [lo, hi]; a draw below 1 keeps it below hi when lo < hi |
| `TreeSystem.Attempt` | src/main/java/org/example/graphics/TreeSystem.java:59-76 | one pass spends one attempt; it adds a tree exactly when the drawn spot passes the height test, keeps the earlier trees, reads two draws when it rejects and four when it plants, and a planted tree stands at the terrain height of its spot |
| `TreeSystem.Run` | src/main/java/org/example/graphics/TreeSystem.java:59-77 | the loop stops with `count` trees or all 3·count attempts spent; it keeps the starting trees, adds at most one tree per attempt, and from a state inside those limits stays inside them |
| `TreeSystem.PlantedInRange` | src/main/java/org/example/graphics/TreeSystem.java:60-73 | one loop pass keeps every tree accepted, at the terrain height of its spot, with height in [3, 7), width in [0.3, 0.7) and x, z inside the region |
| `TreeSystem.GenerateTrees` | src/main/java/org/example/graphics/TreeSystem.java:52-77 | the list starts empty; at most `count` trees and at most 3·count attempts; at most one tree per attempt; a short result means all 3·count attempts ran; every tree is well placed |
| `TreeSystem.TreesOnGrid` | src/main/java/org/example/graphics/TreeSystem.java:64-68 | when waterHeight + 0.5 ≥ 0, no tree stands where the height query falls back to 0 |
| `TreeSystem.TrunkVertices` | src/main/java/org/example/graphics/TreeSystem.java:131-165 | the trunk has 8 vertices (24 floats); where they sit (footprint and heights) is stated by `TreeSystem.TreeShape` |
| `TreeSystem.TrunkIndices` | src/main/java/org/example/graphics/TreeSystem.java:167-182 | the trunk's 24 indices all lie in [offset, offset + 8) |
| `TreeSystem.LeavesVertices` | src/main/java/org/example/graphics/TreeSystem.java:199-214 | the leaves have 5 vertices (15 floats); where they sit (footprint and heights) is stated by `TreeSystem.TreeShape` |
| `TreeSystem.LeavesIndices` | src/main/java/org/example/graphics/TreeSystem.java:216-220 | the leaves' 12 indices all lie in [offset, offset + 5) |
| `TreeSystem.AddTrunk` | src/main/java/org/example/graphics/TreeSystem.java:129-183 | appends 24 position floats, 24 colour floats and 24 indices into the trunk's own 8 vertices, keeping the earlier contents |
| `TreeSystem.AddLeaves` | src/main/java/org/example/graphics/TreeSystem.java:188-221 | appends 15 position floats, 15 colour floats and 12 indices into the leaves' own 5 vertices, keeping the earlier contents |
| `TreeSystem.TrunkTriangles` | src/main/java/org/example/graphics/TreeSystem.java:167-182 | each of the trunk's 8 triangles has three distinct corners, and all 8 trunk vertices are used |
| `TreeSystem.LeavesTriangles` | src/main/java/org/example/graphics/TreeSystem.java:216-220 | every leaf triangle contains the apex and two distinct base vertices, and all 5 leaf vertices are used |
| `TreeSystem.TreeShape` | src/main/java/org/example/graphics/TreeSystem.java:131-214 | centred over the tree's position: the trunk base is the square (x ± w, z ± w) at ground height, the trunk top the square (x ± 0.8w, z ± 0.8w) at 60% of the tree height, the cone base the square (x ± 2.5w, z ± 2.5w) at half the height, and the apex is at the full height |
| `TreeSystem.EmitTree` | src/main/java/org/example/graphics/TreeSystem.java:94-101 | one tree adds 39 position floats, 39 colour floats and 36 indices, all into [offset, offset + 13), keeping everything before |
| `TreeSystem.BlocksKept` | src/main/java/org/example/graphics/TreeSystem.java:92-101 | appending to the index list keeps every earlier tree's indices inside that tree's vertices |
| `TreeSystem.MeshOf` | src/main/java/org/example/graphics/TreeSystem.java:92-102 | after T trees: 39T position and colour floats and 36T indices, and tree i's indices lie in [13i, 13i + 13) |
| `TreeSystem.GenerateMesh` | src/main/java/org/example/graphics/TreeSystem.java:87-120 | the mesh has 39T position and colour floats and 36T indices; vertexCount is 36T; every index is below 13T; each tree's indices point into its own 13 vertices |
| `Camera.NewCamera` | src/main/java/org/example/engine/Camera.java:11-20 | the default camera is at (0, 50, 0), unrotated, speed 20, sensitivity 0.12, with no terrain |
| `Camera.NewCameraAt` | src/main/java/org/example/engine/Camera.java:22-25 | the two-argument constructor keeps the given position and rotation, with default speeds and no terrain |
| `Camera.SetTerrain` | src/main/java/org/example/engine/Camera.java:27-29 | setting the terrain moves nothing |
| `Camera.Floor` | src/main/java/org/example/engine/Camera.java:75-76 | the lowest allowed eye height is 2 off the grid, and 2 above a stored corner height on it |
| `Camera.CheckTerrainCollision` | src/main/java/org/example/engine/Camera.java:73-82 | afterwards the camera is at least 2 above the terrain height at its (x, z); x, z, rotation and settings are unchanged; y never decreases and is either the old y or exactly the floor |
| `Camera.CollisionLiftsLeast` | src/main/java/org/example/engine/Camera.java:76-80 | the new y is no higher than any height that is both at least the old y and above ground, so y becomes max(old y, height + 2) |
| `Camera.CollisionKeepsAboveGround` | src/main/java/org/example/engine/Camera.java:78-80 | a camera already at or above the floor is unchanged |
| `Camera.CollisionWithoutTerrain` | src/main/java/org/example/engine/Camera.java:74 | with no terrain the collision step is a no-op |
| `Camera.CollisionIdempotent` | src/main/java/org/example/engine/Camera.java:73-82 | a second collision step changes nothing |
| `Camera.MoveUp` | src/main/java/org/example/engine/Camera.java:59-62 | moving up adds the distance to y and runs no collision check |
| `Camera.MoveDown` | src/main/java/org/example/engine/Camera.java:64-68 | moving down ends above ground at the same x and z, no lower than y − distance; rotation and settings are unchanged |
| `Camera.MoveDownLands` | src/main/java/org/example/engine/Camera.java:64-82 | with a terrain, moving down gives y − distance when that is above the floor, and the floor otherwise |
| `Camera.UpThenDown` | src/main/java/org/example/engine/Camera.java:59-68 | moving up and then down by the same distance amounts to the collision step alone |
| `Camera.Step` | src/main/java/org/example/engine/Camera.java:33-34 | the shift (sin·d, −cos·d) has length |d| whenever the supplied sine and cosine lie on the unit circle |
| `Camera.Glide` | src/main/java/org/example/engine/Camera.java:31-57 | a horizontal shift lands at (x + dx, z + dz), above ground, never lowers the camera, and keeps rotation and settings |
| `Camera.MoveForward` | src/main/java/org/example/engine/Camera.java:31-36 | x gains sin(yaw)·d and z loses cos(yaw)·d; the camera ends above ground at the new (x, z); y never decreases, and rotation and settings are unchanged |
| `Camera.MoveBackward` | src/main/java/org/example/engine/Camera.java:38-43 | x loses sin(yaw)·d and z gains cos(yaw)·d; the camera ends above ground at the new (x, z); y never decreases, and rotation and settings are unchanged |
| `Camera.MoveLeft` | src/main/java/org/example/engine/Camera.java:45-50 | the move follows heading yaw − 90; the camera ends above ground at the new (x, z); y never decreases, and rotation and settings are unchanged |
| `Camera.MoveRight` | src/main/java/org/example/engine/Camera.java:52-57 | the move follows heading yaw + 90; the camera ends above ground at the new (x, z); y never decreases, and rotation and settings are unchanged |
| `Camera.ForwardThenBack` | src/main/java/org/example/engine/Camera.java:31-43 | forward then backward by the same distance returns to the same x and z, possibly higher |
| `Camera.StrafePerpendicular` | src/main/java/org/example/engine/Camera.java:31-57 | given the quarter-turn identities of sine and cosine, left and right strafes are opposite, and both are perpendicular to the forward move |
| `Camera.ClampPitch` | src/main/java/org/example/engine/Camera.java:89-95 | the clamped pitch is in [−89, 89]; in-range pitches pass through; above 89 gives 89; below −89 gives −89 |
| `Camera.Rotate` | src/main/java/org/example/engine/Camera.java:84-96 | after `rotate` the pitch is in [−89, 89]; the yaw changes by exactly offsetX·sensitivity, unclamped; roll and position are untouched |
| `Camera.ClampIdempotent` | src/main/java/org/example/engine/Camera.java:89-95 | clamping twice is clamping once |
| `Camera.ClampMonotone` | src/main/java/org/example/engine/Camera.java:89-95 | clamping keeps the order of pitches |
| `Camera.RotateStill` | src/main/java/org/example/engine/Camera.java:84-96 | a zero mouse offset leaves a camera whose pitch is in range unchanged |
| `Camera.YawAdds` | src/main/java/org/example/engine/Camera.java:86-87 | two turns change the yaw as one turn by the summed horizontal offset |
| `Camera.PitchMonotone` | src/main/java/org/example/engine/Camera.java:86-95 | with non-negative sensitivity, a larger vertical offset never gives a smaller pitch |
| `Camera.SetMoveSpeed` | src/main/java/org/example/engine/Camera.java:124-126 | only the move speed changes |
| `Camera.SetMouseSensitivity` | src/main/java/org/example/engine/Camera.java:128-130 | only the mouse sensitivity changes |

## Left out

- GPU plumbing is not modelled because it consists of foreign OpenGL calls. This covers `uploadToGPU`, `render` and `cleanup` in `Terrain` and `TreeSystem`; the model keeps the buffers they would upload.
- `Camera.getViewMatrix` is not modelled: JOML matrix construction and trigonometry.
- The getters of all three classes are not modelled: they return fields unchanged.
- The console message after tree placement (`TreeSystem.java:79`) is left out as output only.
- The windowing, input, texture, shader, skybox and main-loop classes are not modelled: they are I/O and event plumbing.
- `ProceduralTexture` is not part of this model.
- IEEE rounding is left out: floats and doubles are exact reals. `(float)` casts are identities, and constants such as `0.12f` or `0.6f` are the decimal values written.
- `Terrain.CalculateNormals`: the final `normalize()` is left out, because it needs a square root. The model keeps the summed vector before normalisation. For the two corners whose sum is the zero vector (`Terrain.UnlitVertices`), JOML's `normalize()` would produce NaN components.
- `java.util.Random` internals are left out: the generator is a supplied stream of draws with the stated ranges.
- `Terrain.GenerateTerrain`: the noise source is a supplied field, so the generation contracts hold for any field. The program's instance is `Terrain.NoiseField`, and what it gives the heights is stated in `Terrain.NoiseHeightsBounded`.
- `Terrain.HeightAt`: the height query requires scale ≠ 0. With scale 0 the Java division gives NaN or an infinity, and `(int)` of NaN is 0, so a query at x = z = 0 would read `heights[0][0]`; this case is not modelled.
- `Terrain.VertexIndex`: indices and buffer sizes are unbounded integers, and Java's 32-bit wrap-around is not modelled. The index count `(gridSize-1) * (gridSize-1) * 6` overflows from gridSize 18920, `totalVertices * 3` from 26755, `totalVertices * 2` from 32768, and `z * gridSize + x` only from 46341. Past those sizes Java allocates from a wrapped size, which throws `NegativeArraySizeException` or gives an array of the wrong length, while `Terrain.IndexCount` and `Terrain.VertexCount` stay exact.
- `Terrain.GenerateTerrain`: requires gridSize ≥ 0. For a negative gridSize, `new float[gridSize][gridSize]` throws `NegativeArraySizeException`; that error path is not modelled.
- `TreeSystem.GenerateTrees`: the attempt budget 3·count is an unbounded integer. Java's `count * 3` wraps for count above 715827882; that is not modelled.
- `TreeSystem.GenerateMesh`: `indexOffset` is an unbounded integer. Java's int offset 13·i wraps beyond 165191049 trees; that is not modelled.
- `PerlinNoise.Noise2D`: the noise is proved to lie in [−2, 2]. The method's documentation promises [−1, 1], which is tighter and is not proved here.
- `PerlinNoise.CellNoise`: bounded in [−2, 2] for the same reason, not [−1, 1].
- `PerlinNoise.FractalNoise`: proved in [−2, 2] for the same reason, not [−1, 1].
- `PerlinNoise.FractalFieldBounded`: the program's fractal field is proved in [−2, 2], not [−1, 1].
- `Terrain.SampleHeight`: heights are bounded by ±2·heightScale, following the [−2, 2] noise bound.
- `Terrain.NoiseHeightsBounded`: the same ±2·heightScale bound.
- `PerlinNoise.NoisePeriodicX`: proved only while floor(x) + 256 stays inside the int range. Beyond it, the saturating cast breaks the period in the code as well.
- `PerlinNoise.NoisePeriodicZ`: the same limit along z.
- `Camera.MoveForward`, `Camera.MoveBackward`, `Camera.MoveLeft`, `Camera.MoveRight`: `sin` and `cos` of the yaw in degrees are a supplied function, so the contracts speak of its values rather than of trigonometry.
- `Camera.StrafePerpendicular`: holds only under the stated quarter-turn identities of that function.
