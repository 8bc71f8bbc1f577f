/**
  The first-person camera: a position, a rotation (pitch, yaw, roll in
  degrees), a movement speed and a mouse sensitivity, plus an optional
  terrain it must not sink into. Every method of the class mutates the
  camera in place; here each is a function from the old camera to the new.

  The horizontal moves need `sin` and `cos` of the yaw (in degrees); they
  are a supplied function `Trig` from an angle to its (sine, cosine) pair.
*/
module Camera {
  import opened Geometry
  import opened Terrain

  /** How far above the ground the collision step keeps the eye. */
  const MinHeightAboveTerrain: real := 2.0
  /** Pitch is held inside [-PitchLimit, PitchLimit] so the view never flips over. */
  const PitchLimit: real := 89.0
  const DefaultMoveSpeed: real := 20.0
  const DefaultMouseSensitivity: real := 0.12

  /** The terrain the camera collides with, if one was set. */
  datatype TerrainRef = NoTerrain | Attached(terrain: Terrain)

  /** `rotation` is (pitch, yaw, roll): x is pitch, y is yaw, z is roll. */
  datatype Camera = Camera(position: Vec3, rotation: Vec3, moveSpeed: real, mouseSensitivity: real, ground: TerrainRef)

  /** An attached terrain answers height queries. */
  ghost predicate WellFormed(c: Camera)
  {
    c.ground.Attached? ==> Valid(c.ground.terrain)
  }

  /** (sin a, cos a) for an angle a in degrees. */
  type Trig = real -> (real, real)

  // ---------------------------------------------------------------------------
  // Construction and setters
  // ---------------------------------------------------------------------------

  /** The no-argument constructor: 50 units up, looking straight ahead, no terrain. */
  function NewCamera(): (c: Camera)
    ensures c.position == Vec3(0.0, 50.0, 0.0) && c.rotation == Zero
    ensures c.moveSpeed == DefaultMoveSpeed && c.mouseSensitivity == DefaultMouseSensitivity
    ensures c.ground == NoTerrain && WellFormed(c)
  {
    Camera(Vec3(0.0, 50.0, 0.0), Zero, DefaultMoveSpeed, DefaultMouseSensitivity, NoTerrain)
  }

  /** The two-argument constructor: the given position and rotation, default speeds, no terrain. */
  function NewCameraAt(position: Vec3, rotation: Vec3): (c: Camera)
    ensures c.position == position && c.rotation == rotation
    ensures c.moveSpeed == DefaultMoveSpeed && c.mouseSensitivity == DefaultMouseSensitivity
    ensures c.ground == NoTerrain && WellFormed(c)
  {
    Camera(position, rotation, DefaultMoveSpeed, DefaultMouseSensitivity, NoTerrain)
  }

  /** `setTerrain`: later collision steps use this terrain; nothing moves now. */
  function SetTerrain(c: Camera, t: TerrainRef): (r: Camera)
    ensures r.ground == t
    ensures r.position == c.position && r.rotation == c.rotation
    ensures r.moveSpeed == c.moveSpeed && r.mouseSensitivity == c.mouseSensitivity
  {
    c.(ground := t)
  }

  // ---------------------------------------------------------------------------
  // checkTerrainCollision
  // ---------------------------------------------------------------------------

  /**
    The lowest eye height allowed over (x, z): the terrain height there plus
    the clearance. Off the grid that is the clearance over the default height
    0; on it, the clearance over a stored corner height.
  */
  function Floor(t: Terrain, x: real, z: real): (r: real)
    requires Valid(t)
    ensures !OnGrid(t, x, z) ==> r == MinHeightAboveTerrain
    ensures OnGrid(t, x, z) ==> StoredCornerHeight(t, r - MinHeightAboveTerrain)
  {
    HeightAt(t, x, z) + MinHeightAboveTerrain
  }

  /** The camera is at or above the clearance over the attached terrain (always, with none). */
  ghost predicate AboveGround(c: Camera)
    requires WellFormed(c)
  {
    c.ground.Attached? ==> Floor(c.ground.terrain, c.position.x, c.position.z) <= c.position.y
  }

  /**
    `checkTerrainCollision`: with a terrain, a camera below the floor at its
    (x, z) is lifted onto it; nothing else changes. The result is the lowest
    height that is both at least the old one and above ground.
  */
  function CheckTerrainCollision(c: Camera): (r: Camera)
    requires WellFormed(c)
    ensures WellFormed(r) && AboveGround(r)
    ensures r.position.x == c.position.x && r.position.z == c.position.z
    ensures r.rotation == c.rotation && r.ground == c.ground
    ensures r.moveSpeed == c.moveSpeed && r.mouseSensitivity == c.mouseSensitivity
    ensures c.position.y <= r.position.y
    ensures r.position.y == c.position.y || (c.ground.Attached? && r.position.y == Floor(c.ground.terrain, c.position.x, c.position.z))
  {
    match c.ground
    case NoTerrain => c
    case Attached(t) =>
      var minY := Floor(t, c.position.x, c.position.z);
      if c.position.y < minY then c.(position := c.position.(y := minY)) else c
  }

  /** The collision step lifts by as little as it can: any height at least the old one and above ground is at least the new one. */
  lemma CollisionLiftsLeast(c: Camera, y: real)
    requires WellFormed(c) && c.position.y <= y
    requires c.ground.Attached? ==> Floor(c.ground.terrain, c.position.x, c.position.z) <= y
    ensures CheckTerrainCollision(c).position.y <= y
  {
  }

  /** A camera already above ground is left exactly where it is. */
  lemma CollisionKeepsAboveGround(c: Camera)
    requires WellFormed(c) && AboveGround(c)
    ensures CheckTerrainCollision(c) == c
  {
  }

  /** Without a terrain the collision step does nothing. */
  lemma CollisionWithoutTerrain(c: Camera)
    requires c.ground == NoTerrain
    ensures CheckTerrainCollision(c) == c
  {
  }

  /** A second collision step changes nothing. */
  lemma CollisionIdempotent(c: Camera)
    requires WellFormed(c)
    ensures CheckTerrainCollision(CheckTerrainCollision(c)) == CheckTerrainCollision(c)
  {
    CollisionKeepsAboveGround(CheckTerrainCollision(c));
  }

  // ---------------------------------------------------------------------------
  // Vertical moves
  // ---------------------------------------------------------------------------

  /** `moveUp`: straight up by `distance`, with no collision step. */
  function MoveUp(c: Camera, distance: real): (r: Camera)
    ensures r.position == Vec3(c.position.x, c.position.y + distance, c.position.z)
    ensures r.rotation == c.rotation && r.ground == c.ground
    ensures r.moveSpeed == c.moveSpeed && r.mouseSensitivity == c.mouseSensitivity
  {
    c.(position := c.position.(y := c.position.y + distance))
  }

  /** `moveDown`: straight down by `distance`, then the collision step. */
  function MoveDown(c: Camera, distance: real): (r: Camera)
    requires WellFormed(c)
    ensures WellFormed(r) && AboveGround(r)
    ensures r.position.x == c.position.x && r.position.z == c.position.z
    ensures r.rotation == c.rotation && r.ground == c.ground
    ensures r.moveSpeed == c.moveSpeed && r.mouseSensitivity == c.mouseSensitivity
    ensures c.position.y - distance <= r.position.y
  {
    CheckTerrainCollision(c.(position := c.position.(y := c.position.y - distance)))
  }

  /**
    Moving down lands exactly `distance` lower when that is above ground, and
    on the floor otherwise: the new height is max(y - distance, floor).
  */
  lemma MoveDownLands(c: Camera, distance: real)
    requires WellFormed(c) && c.ground.Attached?
    ensures var r := MoveDown(c, distance);
      var floor := Floor(c.ground.terrain, c.position.x, c.position.z);
      && (floor <= c.position.y - distance ==> r.position.y == c.position.y - distance)
      && (c.position.y - distance < floor ==> r.position.y == floor)
  {
  }

  /** Up then down by the same distance is the collision step alone. */
  lemma UpThenDown(c: Camera, distance: real)
    requires WellFormed(c)
    ensures MoveDown(MoveUp(c, distance), distance) == CheckTerrainCollision(c)
  {
    assert MoveUp(c, distance).(position := MoveUp(c, distance).position.(y := c.position.y + distance - distance)) == c;
  }

  // ---------------------------------------------------------------------------
  // Horizontal moves
  // ---------------------------------------------------------------------------

  /**
    The shift of (x, z) by `distance` along heading `angle`: (sin a * d,
    -cos a * d). When the supplied pair is a point of the unit circle the
    shift has length |distance|.
  */
  function Step(trig: Trig, angle: real, distance: real): (r: (real, real))
    ensures var (s, k) := trig(angle);
      s * s + k * k == 1.0 ==> r.0 * r.0 + r.1 * r.1 == distance * distance
  {
    var (s, k) := trig(angle);
    StepLength(s, k, distance);
    (s * distance, -(k * distance))
  }

  lemma StepLength(s: real, k: real, d: real)
    ensures s * s + k * k == 1.0 ==> (s * d) * (s * d) + (k * d) * (k * d) == d * d
  {
    assert (s * d) * (s * d) + (k * d) * (k * d) == (s * s + k * k) * (d * d);
  }

  /** Shift (x, z) and then run the collision step: the common tail of the four horizontal moves. */
  function Glide(c: Camera, dx: real, dz: real): (r: Camera)
    requires WellFormed(c)
    ensures WellFormed(r) && AboveGround(r)
    ensures r.position.x == c.position.x + dx && r.position.z == c.position.z + dz
    ensures c.position.y <= r.position.y
    ensures r.rotation == c.rotation && r.ground == c.ground
    ensures r.moveSpeed == c.moveSpeed && r.mouseSensitivity == c.mouseSensitivity
  {
    CheckTerrainCollision(c.(position := Vec3(c.position.x + dx, c.position.y, c.position.z + dz)))
  }

  /** `moveForward`: along the yaw heading. */
  function MoveForward(c: Camera, distance: real, trig: Trig): (r: Camera)
    requires WellFormed(c)
    ensures WellFormed(r) && AboveGround(r) && r.rotation == c.rotation && r.ground == c.ground
    ensures r.moveSpeed == c.moveSpeed && r.mouseSensitivity == c.mouseSensitivity
    ensures c.position.y <= r.position.y
    ensures var (s, k) := trig(c.rotation.y);
      r.position.x == c.position.x + s * distance && r.position.z == c.position.z - k * distance
  {
    var (dx, dz) := Step(trig, c.rotation.y, distance);
    Glide(c, dx, dz)
  }

  /** `moveBackward`: against the yaw heading. */
  function MoveBackward(c: Camera, distance: real, trig: Trig): (r: Camera)
    requires WellFormed(c)
    ensures WellFormed(r) && AboveGround(r) && r.rotation == c.rotation && r.ground == c.ground
    ensures r.moveSpeed == c.moveSpeed && r.mouseSensitivity == c.mouseSensitivity
    ensures c.position.y <= r.position.y
    ensures var (s, k) := trig(c.rotation.y);
      r.position.x == c.position.x - s * distance && r.position.z == c.position.z + k * distance
  {
    var (dx, dz) := Step(trig, c.rotation.y, distance);
    Glide(c, -dx, -dz)
  }

  /** `moveLeft`: along the heading 90 degrees left of the yaw. */
  function MoveLeft(c: Camera, distance: real, trig: Trig): (r: Camera)
    requires WellFormed(c)
    ensures WellFormed(r) && AboveGround(r) && r.rotation == c.rotation && r.ground == c.ground
    ensures r.moveSpeed == c.moveSpeed && r.mouseSensitivity == c.mouseSensitivity
    ensures c.position.y <= r.position.y
    ensures var (s, k) := trig(c.rotation.y - 90.0);
      r.position.x == c.position.x + s * distance && r.position.z == c.position.z - k * distance
  {
    var (dx, dz) := Step(trig, c.rotation.y - 90.0, distance);
    Glide(c, dx, dz)
  }

  /** `moveRight`: along the heading 90 degrees right of the yaw. */
  function MoveRight(c: Camera, distance: real, trig: Trig): (r: Camera)
    requires WellFormed(c)
    ensures WellFormed(r) && AboveGround(r) && r.rotation == c.rotation && r.ground == c.ground
    ensures r.moveSpeed == c.moveSpeed && r.mouseSensitivity == c.mouseSensitivity
    ensures c.position.y <= r.position.y
    ensures var (s, k) := trig(c.rotation.y + 90.0);
      r.position.x == c.position.x + s * distance && r.position.z == c.position.z - k * distance
  {
    var (dx, dz) := Step(trig, c.rotation.y + 90.0, distance);
    Glide(c, dx, dz)
  }

  /** The quarter-turn identities of sine and cosine at angle `a`. */
  ghost predicate QuarterTurns(trig: Trig, a: real)
  {
    && trig(a - 90.0) == (-trig(a).1, trig(a).0)
    && trig(a + 90.0) == (trig(a).1, -trig(a).0)
  }

  /** Forward then backward by the same distance returns to the same (x, z); only the height may have been raised. */
  lemma ForwardThenBack(c: Camera, distance: real, trig: Trig)
    requires WellFormed(c)
    ensures var r := MoveBackward(MoveForward(c, distance, trig), distance, trig);
      r.position.x == c.position.x && r.position.z == c.position.z && c.position.y <= r.position.y
  {
  }

  /**
    With the quarter-turn identities, strafing left and right move in opposite
    directions, and both are perpendicular to moving forward.
  */
  lemma StrafePerpendicular(c: Camera, distance: real, trig: Trig)
    requires WellFormed(c) && QuarterTurns(trig, c.rotation.y)
    ensures var f := MoveForward(c, distance, trig);
      var l := MoveLeft(c, distance, trig);
      var r := MoveRight(c, distance, trig);
      var (fx, fz) := (f.position.x - c.position.x, f.position.z - c.position.z);
      var (lx, lz) := (l.position.x - c.position.x, l.position.z - c.position.z);
      && lx == -(r.position.x - c.position.x) && lz == -(r.position.z - c.position.z)
      && fx * lx + fz * lz == 0.0
  {
    var (s, k) := trig(c.rotation.y);
    assert trig(c.rotation.y - 90.0) == (-k, s);
    assert trig(c.rotation.y + 90.0) == (k, -s);
    assert (s * distance) * (-k * distance) + (-(k * distance)) * (-(s * distance)) == 0.0;
  }

  // ---------------------------------------------------------------------------
  // rotate
  // ---------------------------------------------------------------------------

  /** Pitch held inside [-89, 89]: the two `if`s of `rotate`. */
  function ClampPitch(p: real): (r: real)
    ensures -PitchLimit <= r <= PitchLimit
    ensures -PitchLimit <= p <= PitchLimit ==> r == p
    ensures PitchLimit < p ==> r == PitchLimit
    ensures p < -PitchLimit ==> r == -PitchLimit
  {
    var r := if p > PitchLimit then PitchLimit else p;
    if r < -PitchLimit then -PitchLimit else r
  }

  /**
    `rotate`: the mouse's vertical offset turns the pitch and its horizontal
    offset the yaw, both scaled by the sensitivity; the pitch is then clamped,
    the yaw is not, and the roll and position do not change.
  */
  function Rotate(c: Camera, offsetX: real, offsetY: real): (r: Camera)
    ensures -PitchLimit <= r.rotation.x <= PitchLimit
    ensures r.rotation.x == ClampPitch(c.rotation.x + offsetY * c.mouseSensitivity)
    ensures r.rotation.y == c.rotation.y + offsetX * c.mouseSensitivity
    ensures r.rotation.z == c.rotation.z
    ensures r.position == c.position && r.ground == c.ground
    ensures r.moveSpeed == c.moveSpeed && r.mouseSensitivity == c.mouseSensitivity
  {
    var pitch := ClampPitch(c.rotation.x + offsetY * c.mouseSensitivity);
    var yaw := c.rotation.y + offsetX * c.mouseSensitivity;
    c.(rotation := Vec3(pitch, yaw, c.rotation.z))
  }

  /** Clamping is idempotent, and a pitch already inside the limits passes through. */
  lemma ClampIdempotent(p: real)
    ensures ClampPitch(ClampPitch(p)) == ClampPitch(p)
  {
  }

  /** Clamping keeps order: a larger raw pitch never gives a smaller clamped one. */
  lemma ClampMonotone(p: real, q: real)
    requires p <= q
    ensures ClampPitch(p) <= ClampPitch(q)
  {
  }

  /** A still mouse leaves a camera whose pitch is in range exactly as it was. */
  lemma RotateStill(c: Camera)
    requires -PitchLimit <= c.rotation.x <= PitchLimit
    ensures Rotate(c, 0.0, 0.0) == c
  {
  }

  /** Yaw turns add up: two turns are one turn by the summed offset, whatever the pitch does. */
  lemma YawAdds(c: Camera, x1: real, y1: real, x2: real, y2: real)
    ensures Rotate(Rotate(c, x1, y1), x2, y2).rotation.y == Rotate(c, x1 + x2, 0.0).rotation.y
  {
    var s := c.mouseSensitivity;
    assert x1 * s + x2 * s == (x1 + x2) * s;
  }

  /** With non-negative sensitivity, moving the mouse further up never lowers the resulting pitch. */
  lemma PitchMonotone(c: Camera, offsetX: real, y1: real, y2: real)
    requires 0.0 <= c.mouseSensitivity && y1 <= y2
    ensures Rotate(c, offsetX, y1).rotation.x <= Rotate(c, offsetX, y2).rotation.x
  {
    assert y1 * c.mouseSensitivity <= y2 * c.mouseSensitivity;
    ClampMonotone(c.rotation.x + y1 * c.mouseSensitivity, c.rotation.x + y2 * c.mouseSensitivity);
  }

  // ---------------------------------------------------------------------------
  // Setters
  // ---------------------------------------------------------------------------

  function SetMoveSpeed(c: Camera, speed: real): (r: Camera)
    ensures r.moveSpeed == speed && r.position == c.position && r.rotation == c.rotation
    ensures r.mouseSensitivity == c.mouseSensitivity && r.ground == c.ground
  {
    c.(moveSpeed := speed)
  }

  function SetMouseSensitivity(c: Camera, sensitivity: real): (r: Camera)
    ensures r.mouseSensitivity == sensitivity && r.position == c.position && r.rotation == c.rotation
    ensures r.moveSpeed == c.moveSpeed && r.ground == c.ground
  {
    c.(mouseSensitivity := sensitivity)
  }
}
