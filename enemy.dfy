/**
 * A flying enemy (Enemy): each frame it turns toward the player with some
 * wander, drifts toward a height above the player, is pushed apart from
 * close neighbours and moves, stepping sideways when its box collides.
 */
module Enemies {
  import opened Geometry

  /** Neighbours closer than this push the enemy away. */
  const AvoidanceRadius := 2.0
  /** Half the edge of the enemy's 1.5-unit collision cube. */
  const HalfSize := 0.75

  /** The side the enemy prefers when it steps around an obstacle. */
  type Sign = s: real | s == -1.0 || s == 1.0 witness 1.0

  /** The enemy's collision cube centred on `c`. */
  function CubeAt(c: Vec3): Box
  {
    Box(Sub(c, Vec3(HalfSize, HalfSize, HalfSize)), Add(c, Vec3(HalfSize, HalfSize, HalfSize)))
  }

  /** The wander amplitude per unit of time: 100 per unit of distance, kept within [60, 350]. */
  function NoiseScale(distance: real): (r: real)
    ensures 60.0 <= r <= 350.0
    ensures 0.6 <= distance <= 3.5 ==> r == distance * 100.0
    ensures distance <= 0.6 ==> r == 60.0
    ensures distance >= 3.5 ==> r == 350.0
  {
    Min(Max(distance * 100.0, 60.0), 350.0)
  }

  /**
   * getRandomOffset: the noise vector (sin(t)·1.5, 0, cos(1.3t)·1.5), whose
   * random phase is an input here, scaled by the clamped wander amplitude.
   */
  function RandomOffset(offsetX: real, offsetZ: real, distance: real, delta: real): Vec3
  {
    Scale(Vec3(offsetX, 0.0, offsetZ), NoiseScale(distance) * delta)
  }

  /**
   * The height the enemy aims for: between 10 and 20 units away from the
   * player it rises linearly from minY to minY + 5, where minY is the player's
   * height but at least 2.6.
   */
  function TargetHeight(playerY: real, distance: real): (r: real)
    ensures Max(2.6, playerY) <= r <= Max(2.6, playerY) + 5.0
    ensures distance <= 10.0 ==> r == Max(2.6, playerY)
    ensures distance >= 20.0 ==> r == Max(2.6, playerY) + 5.0
  {
    var minY := Max(2.6, playerY);
    MapLinear(Clamp(distance, 10.0, 20.0), 10.0, 20.0, minY, minY + 5.0)
  }

  /** The committed height moves one hundredth of the way to the target, whatever the frame time. */
  function EasedHeight(y: real, target: real): (r: real)
    ensures r - y == (target - y) / 100.0
    ensures y <= target ==> y <= r <= target
    ensures target <= y ==> target <= r <= y
  {
    LerpScalar(y, target, 0.01)
  }

  /** The heading before avoidance: the last heading turned toward the wandering direction to the player. */
  function Heading(enemyPos: Vec3, playerPos: Vec3, lastDirection: Vec3, offset: Vec3,
                   turnSpeed: real, delta: real, len: Vec3 -> real): Vec3
  {
    var toPlayer := Direction(Sub(playerPos, enemyPos), len);
    var target := Direction(Add(toPlayer, offset), len);
    Direction(Lerp(lastDirection, target, turnSpeed * delta), len)
  }

  /** Repulsion is damped a hundredfold while the player is below the enemy. */
  function Damping(dirY: real): (r: real)
    ensures dirY < 0.0 ==> r == 0.01
    ensures dirY >= 0.0 ==> r == 1.0
  {
    if dirY < 0.0 then 0.01 else 1.0
  }

  /** The push from one neighbour at `other`, nothing outside the avoidance radius. */
  function RepulsionTerm(me: Vec3, other: Vec3, damping: real, len: Vec3 -> real): (r: Vec3)
    ensures len(Sub(me, other)) >= AvoidanceRadius ==> r == Zero
  {
    var diff := Sub(me, other);
    var dist := len(diff);
    if dist < AvoidanceRadius then
      Scale(Normalize(diff, dist), (AvoidanceRadius - dist) * damping)
    else
      Zero
  }

  /**
   * Inside the radius the push points away from the neighbour: it is a
   * non-negative multiple of `me - other`, of length (2 - dist) * damping.
   */
  lemma RepulsionWeight(me: Vec3, other: Vec3, damping: real, len: Vec3 -> real)
    requires IsLengthOf(len(Sub(me, other)), Sub(me, other))
    requires 0.0 < len(Sub(me, other)) < AvoidanceRadius && damping >= 0.0
    ensures var dist := len(Sub(me, other));
      var c := (AvoidanceRadius - dist) * damping / dist;
      c >= 0.0 && RepulsionTerm(me, other, damping, len) == Scale(Sub(me, other), c)
    ensures IsLengthOf((AvoidanceRadius - len(Sub(me, other))) * damping, RepulsionTerm(me, other, damping, len))
  {
    var diff := Sub(me, other);
    var dist := len(diff);
    var w := (AvoidanceRadius - dist) * damping;
    MulNonnegative(AvoidanceRadius - dist, damping);
    RepulsionAlong(me, other, damping, len);
    ScaleToLength(diff, dist, w);
  }

  /** Inside the radius the push is `me - other` scaled by (2 - dist) * damping / dist. */
  lemma RepulsionAlong(me: Vec3, other: Vec3, damping: real, len: Vec3 -> real)
    requires 0.0 < len(Sub(me, other)) < AvoidanceRadius
    ensures var dist := len(Sub(me, other));
      RepulsionTerm(me, other, damping, len) == Scale(Sub(me, other), (AvoidanceRadius - dist) * damping / dist)
  {
    var diff := Sub(me, other);
    var dist := len(diff);
    var w := (AvoidanceRadius - dist) * damping;
    assert RepulsionTerm(me, other, damping, len) == Scale(Normalize(diff, dist), w);
    NormalizedScale(diff, dist, w);
  }

  /** Normalising by a non-zero `n` and scaling by `w` is scaling by `w / n`. */
  lemma NormalizedScale(v: Vec3, n: real, w: real)
    requires n != 0.0
    ensures Scale(Normalize(v, n), w) == Scale(v, w / n)
  {
    ScaleTwice(v, 1.0 / n, w);
    DivMul(1.0, w, n);
  }

  /** Scaling twice is scaling once by the product. */
  lemma ScaleTwice(v: Vec3, a: real, b: real)
    ensures Scale(Scale(v, a), b) == Scale(v, a * b)
  {
    assert v.x * a * b == v.x * (a * b);
    assert v.y * a * b == v.y * (a * b);
    assert v.z * a * b == v.z * (a * b);
  }

  /** The summed push on the enemy at `me` from every roster member but itself. */
  function Repulsion(self: Enemy, others: seq<Enemy>, me: Vec3, damping: real, len: Vec3 -> real): Vec3
    reads others`position
    decreases |others|
  {
    if others == [] then Zero
    else
      var rest := Repulsion(self, others[..|others| - 1], me, damping, len);
      var other := others[|others| - 1];
      if other == self then rest else Add(rest, RepulsionTerm(me, other.position, damping, len))
  }

  /** Neighbours all at least the avoidance radius away exert no push at all. */
  lemma {:induction false} FarNeighbours(self: Enemy, others: seq<Enemy>, me: Vec3, damping: real, len: Vec3 -> real)
    requires forall k :: 0 <= k < |others| && others[k] != self ==>
      len(Sub(me, others[k].position)) >= AvoidanceRadius
    ensures Repulsion(self, others, me, damping, len) == Zero
    decreases |others|
  {
    if others != [] {
      FarNeighbours(self, others[..|others| - 1], me, damping, len);
    }
  }

  /** The enemy itself never pushes itself, wherever it is listed. */
  lemma {:induction false} SelfExcluded(self: Enemy, before: seq<Enemy>, after: seq<Enemy>,
                                        me: Vec3, damping: real, len: Vec3 -> real)
    ensures Repulsion(self, before + [self] + after, me, damping, len) ==
            Repulsion(self, before + after, me, damping, len)
    decreases |after|
  {
    var listed := before + [self] + after;
    if after == [] {
      assert listed[..|listed| - 1] == before && before + after == before;
    } else {
      var init := after[..|after| - 1];
      SelfExcluded(self, before, init, me, damping, len);
      assert listed[..|listed| - 1] == before + [self] + init;
      assert (before + after)[..|before + after| - 1] == before + init;
      assert listed[|listed| - 1] == (before + after)[|before + after| - 1];
    }
  }

  /**
   * Heading after avoidance: when the push is longer than 0.1 the heading is
   * blended 30% toward the push direction and normalised again; otherwise it
   * is kept.
   */
  function AvoidanceBlend(heading: Vec3, avoidance: Vec3, len: Vec3 -> real): (r: Vec3)
    ensures len(avoidance) <= 0.1 ==> r == heading
    ensures len(avoidance) > 0.1 ==>
      var blended := Lerp(heading, Direction(avoidance, len), 0.3);
      len(blended) > 0.0 ==> 1.0 / len(blended) > 0.0 && r == Scale(blended, 1.0 / len(blended))
    ensures len(avoidance) > 0.1 ==>
      var blended := Lerp(heading, Direction(avoidance, len), 0.3);
      IsLengthOf(len(blended), blended) && len(blended) > 0.0 ==> IsLengthOf(1.0, r)
  {
    if len(avoidance) > 0.1 then
      Direction(Lerp(heading, Direction(avoidance, len), 0.3), len)
    else
      heading
  }

  /** The straight move: forward along the heading in the ground plane, at height `y`. */
  function ForwardStep(pos: Vec3, dir: Vec3, moveSpeed: real, y: real): Vec3
  {
    Vec3(pos.x + dir.x * moveSpeed, y, pos.z + dir.z * moveSpeed)
  }

  /** The side step: 80% of the move along (dir.z, 0, -dir.x) times `side`. */
  function SideStep(pos: Vec3, dir: Vec3, moveSpeed: real, side: real, y: real): Vec3
  {
    Vec3(pos.x + side * dir.z * moveSpeed * 0.8, y, pos.z + side * -dir.x * moveSpeed * 0.8)
  }

  /**
   * The three-step collision fallback: forward unless that is blocked, else
   * the preferred side unless that is blocked too, else the other side,
   * which is taken without asking again.
   */
  function ResolveMove(pos: Vec3, dir: Vec3, moveSpeed: real, avoidDir: Sign, y: real,
                       forwardBlocked: bool, sideBlocked: bool): (r: Vec3)
    ensures r.y == y
    ensures !forwardBlocked ==> r == ForwardStep(pos, dir, moveSpeed, y)
    ensures forwardBlocked && !sideBlocked ==> r == SideStep(pos, dir, moveSpeed, avoidDir, y)
    ensures forwardBlocked && sideBlocked ==> r == SideStep(pos, dir, moveSpeed, -(avoidDir as real), y)
  {
    if !forwardBlocked then ForwardStep(pos, dir, moveSpeed, y)
    else if !sideBlocked then SideStep(pos, dir, moveSpeed, avoidDir, y)
    else SideStep(pos, dir, moveSpeed, -(avoidDir as real), y)
  }

  /**
   * The enemy never holds its ground: with a positive move and a heading
   * that is not vertical, every outcome of the fallback moves it in the plane.
   */
  lemma NeverHolds(pos: Vec3, dir: Vec3, moveSpeed: real, avoidDir: Sign, y: real,
                   forwardBlocked: bool, sideBlocked: bool)
    requires moveSpeed > 0.0 && (dir.x != 0.0 || dir.z != 0.0)
    ensures var r := ResolveMove(pos, dir, moveSpeed, avoidDir, y, forwardBlocked, sideBlocked);
      r.x != pos.x || r.z != pos.z
  {
    var side: real := if !sideBlocked then avoidDir else -(avoidDir as real);
    if dir.x != 0.0 {
      MulNonzero(dir.x, moveSpeed);
      MulNonzero(side, -dir.x);
      MulNonzero(side * -dir.x, moveSpeed);
      MulNonzero(side * -dir.x * moveSpeed, 0.8);
    } else {
      MulNonzero(dir.z, moveSpeed);
      MulNonzero(side, dir.z);
      MulNonzero(side * dir.z, moveSpeed);
      MulNonzero(side * dir.z * moveSpeed, 0.8);
    }
  }

  /** The two side steps are mirror images about the enemy's position. */
  lemma SideStepsMirror(pos: Vec3, dir: Vec3, moveSpeed: real, avoidDir: Sign, y: real)
    ensures var a := SideStep(pos, dir, moveSpeed, avoidDir, y);
      var b := SideStep(pos, dir, moveSpeed, -(avoidDir as real), y);
      a.x - pos.x == pos.x - b.x && a.z - pos.z == pos.z - b.z
  {
  }

  /** Where an enemy is and where it is heading (`mesh.position`, `lastDirection`). */
  datatype Pose = Pose(position: Vec3, heading: Vec3)

  function PoseOf(e: Enemy): Pose
    reads e`position, e`lastDirection
  {
    Pose(e.position, e.lastDirection)
  }

  /**
   * One frame of steering from `start` for an enemy with the given turn
   * speed, speed and preferred side: the wander-turned heading blended with
   * the neighbours' push `avoidance`, and the fallback's position at the eased
   * height when the collision test answers `blocked`.
   */
  function Steer(start: Pose, avoidance: Vec3, blocked: bool, turnSpeed: real, enemySpeed: real,
                 avoidDir: Sign, delta: real, playerPos: Vec3, offsetX: real, offsetZ: real,
                 len: Vec3 -> real): Pose
  {
    var distance := len(Sub(playerPos, start.position));
    var heading := AvoidanceBlend(Heading(start.position, playerPos, start.heading,
                                          RandomOffset(offsetX, offsetZ, distance, delta), turnSpeed, delta, len),
                                  avoidance, len);
    Pose(ResolveMove(start.position, heading, enemySpeed * delta, avoidDir,
                     EasedHeight(start.position.y, TargetHeight(playerPos.y, distance)), blocked, blocked),
         heading)
  }

  /** `e` has taken one frame of steering from `start`, with push `avoidance` and collision answer `blocked`. */
  ghost predicate Steered(e: Enemy, start: Pose, avoidance: Vec3, blocked: bool, delta: real,
                          playerPos: Vec3, offsetX: real, offsetZ: real, len: Vec3 -> real)
    reads e`position, e`lastDirection
  {
    PoseOf(e) == Steer(start, avoidance, blocked, e.turnSpeed, e.enemySpeed, e.avoidDir,
                       delta, playerPos, offsetX, offsetZ, len)
  }

  /** A JavaScript array shared by reference: the enemy roster. */
  class Roster {
    var elems: seq<Enemy>

    constructor (elems0: seq<Enemy>)
      ensures elems == elems0
    {
      elems := elems0;
    }
  }

  class Enemy {
    /** The roster array this enemy was given when it was created. */
    const enemies: Roster
    const platforms: seq<Box>
    const enemySpeed: real
    const turnSpeed: real
    const avoidDir: Sign
    /** mesh.position. */
    var position: Vec3
    var lastDirection: Vec3
    /**
     * The collision cube under mesh.matrixWorld, which only the renderer
     * refreshes: it lags behind writes to `position`.
     */
    var worldBox: Box
    /** Whether the mesh is part of the scene. */
    var inScene: bool

    constructor (spawnPosition: Vec3, enemySpeed0: real, turnSpeed0: real,
                 roster: Roster, platforms0: seq<Box>, side: Sign)
      ensures position == spawnPosition && lastDirection == Zero && inScene
      ensures enemies == roster && platforms == platforms0 && avoidDir == side
      ensures enemySpeed == enemySpeed0 && turnSpeed == turnSpeed0
      ensures worldBox == CubeAt(Zero)
    {
      enemies := roster;
      platforms := platforms0;
      enemySpeed := enemySpeed0;
      turnSpeed := turnSpeed0;
      avoidDir := side;
      position := spawnPosition;
      lastDirection := Zero;
      worldBox := CubeAt(Zero);
      inScene := true;
    }

    /**
     * The collision question of `checkCollisions`: the enemy's cube under its
     * world matrix meets another roster member's cube or a platform.
     */
    ghost predicate Collides()
      reads this, enemies, enemies.elems
    {
      || (exists k :: 0 <= k < |enemies.elems| && enemies.elems[k] != this &&
            Intersects(worldBox, enemies.elems[k].worldBox))
      || (exists k :: 0 <= k < |platforms| && Intersects(worldBox, platforms[k]))
    }

    /**
     * Tests a proposed position: the position is written, the cube is taken
     * under the world matrix (not recomputed, so the answer does not depend on
     * `pos`) and the old position is put back on every path.
     */
    method CheckCollisions(pos: Vec3) returns (hit: bool)
      modifies this`position
      ensures position == old(position)
      ensures hit == Collides()
    {
      var originalPos := position;
      position := pos;
      var bbox := worldBox;
      var others := enemies.elems;
      for k := 0 to |others|
        invariant position == pos
        invariant forall j :: 0 <= j < k && others[j] != this ==> !Intersects(bbox, others[j].worldBox)
      {
        var other := others[k];
        if other != this && Intersects(bbox, other.worldBox) {
          position := originalPos;
          return true;
        }
      }
      for k := 0 to |platforms|
        invariant position == pos
        invariant forall j :: 0 <= j < k ==> !Intersects(bbox, platforms[j])
      {
        if Intersects(bbox, platforms[k]) {
          position := originalPos;
          return true;
        }
      }
      position := originalPos;
      return false;
    }

    /** The avoidance loop of `update`: pushes from every other roster member, summed in order. */
    method AvoidanceVector(damping: real, len: Vec3 -> real) returns (avoidance: Vec3)
      ensures avoidance == Repulsion(this, enemies.elems, position, damping, len)
    {
      var others := enemies.elems;
      avoidance := Zero;
      for k := 0 to |others|
        invariant avoidance == Repulsion(this, others[..k], position, damping, len)
      {
        assert others[..k + 1][..k] == others[..k];
        var other := others[k];
        if other != this {
          avoidance := Add(avoidance, RepulsionTerm(position, other.position, damping, len));
        }
      }
      assert others[..|others|] == others;
    }

    /**
     * One frame. The wander phase (`offsetX`, `offsetZ`) comes from the
     * random source and the clock; vector lengths come from `len`.
     */
    method Update(delta: real, playerPos: Vec3, offsetX: real, offsetZ: real, len: Vec3 -> real)
      modifies this`position, this`lastDirection
      ensures Steered(this, old(PoseOf(this)),
                      old(Repulsion(this, enemies.elems, position, Damping(playerPos.y - position.y), len)),
                      Collides(), delta, playerPos, offsetX, offsetZ, len)
    {
      var enemyPos := position;
      var toPlayer := Sub(playerPos, enemyPos);
      var distance := len(toPlayer);
      var randomOffset := RandomOffset(offsetX, offsetZ, distance, delta);
      var newDir := Heading(enemyPos, playerPos, lastDirection, randomOffset, turnSpeed, delta, len);
      var dirY := playerPos.y - enemyPos.y;
      var adjustedY := EasedHeight(enemyPos.y, TargetHeight(playerPos.y, distance));

      var avoidance := AvoidanceVector(Damping(dirY), len);
      newDir := AvoidanceBlend(newDir, avoidance, len);

      var moveSpeed := enemySpeed * delta;
      var proposedPos := ForwardStep(enemyPos, newDir, moveSpeed, adjustedY);
      var forwardBlocked := CheckCollisions(proposedPos);
      var sideBlocked := false;
      if forwardBlocked {
        proposedPos := SideStep(enemyPos, newDir, moveSpeed, avoidDir, adjustedY);
        sideBlocked := CheckCollisions(proposedPos);
        if sideBlocked {
          proposedPos := SideStep(enemyPos, newDir, moveSpeed, -(avoidDir as real), adjustedY);
        }
      }
      position := proposedPos;
      lastDirection := newDir;
    }

    /** Takes the mesh out of the scene. */
    method Dispose()
      modifies this`inScene
      ensures !inScene
    {
      inScene := false;
    }
  }

  /**
   * Because the world matrix is stale, both collision questions of one frame
   * get the same answer: a blocked forward move always ends in the opposite
   * side step, and the preferred side step is never taken.
   */
  lemma StaleMatrixFallback(pos: Vec3, dir: Vec3, moveSpeed: real, avoidDir: Sign, y: real, blocked: bool)
    ensures ResolveMove(pos, dir, moveSpeed, avoidDir, y, blocked, blocked) ==
      if blocked then SideStep(pos, dir, moveSpeed, -(avoidDir as real), y) else ForwardStep(pos, dir, moveSpeed, y)
  {
  }
}
