/**
 * The enemy roster and difficulty curve (EnemyManager): a timer-and-cap gate
 * spawns enemies, every fifth kill steps the difficulty up, enemies that fall
 * below the world are dropped without credit and killed ones with credit.
 */
module EnemyManagement {
  import opened Geometry
  import opened Collections
  import opened Enemies

  /** Height at which new enemies appear. */
  const SpawnHeight := 150.0
  /** Enemies below this height have fallen out of the world. */
  const FallLimit := -1.0
  /** A rocket closer than this to an enemy hits it. */
  const HitRadius := 1.5

  /** The tunable spawn and speed parameters together with the milestone last stepped at. */
  datatype Difficulty = Difficulty(
    spawnInterval: int, maxEnemies: int, enemySpeed: real, enemyTurnSpeed: real, level: int)

  const InitialDifficulty := Difficulty(5, 1, 10.0, 2.0, 1)

  /** A kill count at which the difficulty steps up, unless it already did at that count. */
  predicate Milestone(d: Difficulty, killed: int)
  {
    killed % 5 == 0 && d.level != killed
  }

  /**
   * The difficulty step of a spawn: at a new multiple of five kills the spawn
   * interval shrinks (down to 1) and the cap grows (up to 100); at a multiple
   * of ten the speed (up to 20) and turn speed (up to 5) grow too.
   */
  function StepDifficulty(d: Difficulty, killed: int): (r: Difficulty)
    ensures !Milestone(d, killed) ==> r == d
    ensures Milestone(d, killed) ==> r.level == killed
    ensures r.spawnInterval == d.spawnInterval - 1 <==> Milestone(d, killed) && d.spawnInterval > 1
    ensures r.maxEnemies == d.maxEnemies + 1 <==> Milestone(d, killed) && d.maxEnemies < 100
    ensures r.enemySpeed == d.enemySpeed + 1.0 <==>
      Milestone(d, killed) && killed % 10 == 0 && d.enemySpeed < 20.0
    ensures r.enemyTurnSpeed == d.enemyTurnSpeed + 0.2 <==>
      Milestone(d, killed) && killed % 10 == 0 && d.enemyTurnSpeed < 5.0
    ensures r.spawnInterval == d.spawnInterval || r.spawnInterval == d.spawnInterval - 1
    ensures r.maxEnemies == d.maxEnemies || r.maxEnemies == d.maxEnemies + 1
    ensures r.enemySpeed == d.enemySpeed || r.enemySpeed == d.enemySpeed + 1.0
    ensures r.enemyTurnSpeed == d.enemyTurnSpeed || r.enemyTurnSpeed == d.enemyTurnSpeed + 0.2
  {
    if Milestone(d, killed) then
      var interval := if d.spawnInterval > 1 then d.spawnInterval - 1 else d.spawnInterval;
      var cap := if d.maxEnemies < 100 then d.maxEnemies + 1 else d.maxEnemies;
      var speed := if killed % 10 == 0 && d.enemySpeed < 20.0 then d.enemySpeed + 1.0 else d.enemySpeed;
      var turn := if killed % 10 == 0 && d.enemyTurnSpeed < 5.0 then d.enemyTurnSpeed + 0.2 else d.enemyTurnSpeed;
      Difficulty(interval, cap, speed, turn, killed)
    else
      d
  }

  /** The ceilings the curve respects once it starts inside them. */
  predicate Bounded(d: Difficulty)
  {
    && d.spawnInterval >= 1
    && d.maxEnemies <= 100
    && d.enemySpeed < 21.0
    && d.enemyTurnSpeed < 5.2
  }

  /** Each milestone steps the curve at most once: a second spawn at the same kill count changes nothing. */
  lemma StepOncePerMilestone(d: Difficulty, killed: int)
    ensures StepDifficulty(StepDifficulty(d, killed), killed) == StepDifficulty(d, killed)
  {
    if Milestone(d, killed) {
      assert !Milestone(StepDifficulty(d, killed), killed);
    }
  }

  /** No sequence of steps pushes the curve past its ceilings. */
  lemma StepKeepsBounds(d: Difficulty, killed: int)
    requires Bounded(d)
    ensures Bounded(StepDifficulty(d, killed))
  {
    var r := StepDifficulty(d, killed);
    if Milestone(d, killed) {
      assert r.spawnInterval >= 1;
      assert r.enemyTurnSpeed < 5.2;
    }
  }

  /** The first two milestones from the initial curve: the fifth and the tenth kill. */
  lemma FirstMilestones()
    ensures StepDifficulty(InitialDifficulty, 4) == InitialDifficulty
    ensures StepDifficulty(InitialDifficulty, 5) == Difficulty(4, 2, 10.0, 2.0, 5)
    ensures StepDifficulty(Difficulty(4, 2, 10.0, 2.0, 5), 5) == Difficulty(4, 2, 10.0, 2.0, 5)
    ensures StepDifficulty(Difficulty(4, 2, 10.0, 2.0, 5), 10) == Difficulty(3, 3, 11.0, 2.2, 10)
  {
    assert 4 % 5 != 0 && 5 % 5 == 0 && 5 % 10 != 0 && 10 % 10 == 0;
  }

  /** The roster members still standing: not below the fall limit, in roster order. */
  function Standing(s: seq<Enemy>): seq<Enemy>
    reads s`position
    decreases |s|
  {
    if s == [] then []
    else if s[0].position.y < FallLimit then Standing(s[1..])
    else [s[0]] + Standing(s[1..])
  }

  /** The filter keeps exactly the standing enemies and no object twice when the roster had none twice. */
  lemma {:induction false} StandingExactly(s: seq<Enemy>)
    ensures forall k :: 0 <= k < |Standing(s)| ==>
      Standing(s)[k] in s && Standing(s)[k].position.y >= FallLimit
    ensures forall k :: 0 <= k < |s| && s[k].position.y >= FallLimit ==> s[k] in Standing(s)
    ensures Distinct(s) ==> Distinct(Standing(s))
    decreases |s|
  {
    if s != [] {
      StandingExactly(s[1..]);
      assert forall k :: 1 <= k < |s| ==> s[k] == s[1..][k - 1];
      if Distinct(s) {
        assert s[0] !in s[1..];
      }
    }
  }

  /** Once every enemy has settled, the standing ones are distinct and all still in the scene. */
  lemma StandingLive(s: seq<Enemy>)
    requires Distinct(s) && forall k :: 0 <= k < |s| ==> Settled(s[k])
    ensures Distinct(Standing(s)) && forall k :: 0 <= k < |Standing(s)| ==> Standing(s)[k].inScene
  {
    StandingExactly(s);
  }

  /** Filtering a suffix peels off its first element. */
  lemma StandingFront(s: seq<Enemy>, i: int)
    requires 0 <= i < |s|
    ensures var r := s[..i + 1] + Standing(s[i + 1..]);
      s[..i] + Standing(s[i..]) == if s[i].position.y < FallLimit then r[..i] + r[i + 1..] else r
  {
    assert s[i..][1..] == s[i + 1..];
    var r := s[..i + 1] + Standing(s[i + 1..]);
    assert r[..i] == s[..i] && r[i + 1..] == Standing(s[i + 1..]);
    assert s[..i + 1] == s[..i] + [s[i]];
  }

  /** Where a new enemy appears for the random draws `rx` and `rz`: (150·rx − 75, 150, 150·rz − 75). */
  function SpawnPoint(rx: real, rz: real): Vec3
  {
    Vec3(rx * 150.0 - 75.0, SpawnHeight, rz * 150.0 - 75.0)
  }

  /** The pose of each enemy of `s`. */
  function Poses(s: seq<Enemy>): (r: seq<Pose>)
    reads s`position, s`lastDirection
    ensures |r| == |s| && forall k :: 0 <= k < |s| ==> r[k] == PoseOf(s[k])
    decreases |s|
  {
    if s == [] then [] else [PoseOf(s[0])] + Poses(s[1..])
  }

  /** The enemies of `orig` before `i` still wait for their turn at their starting pose. */
  ghost predicate Waiting(orig: seq<Enemy>, starts: seq<Pose>, i: int)
    reads orig`position, orig`lastDirection
  {
    && 0 <= i <= |orig| == |starts|
    && forall k :: 0 <= k < i ==> PoseOf(orig[k]) == starts[k]
  }

  /**
   * The enemies of `orig` from `i` on have each been steered from its
   * starting pose by its recorded push and collision answer.
   */
  ghost predicate SteeredFrom(orig: seq<Enemy>, starts: seq<Pose>, pushes: seq<Vec3>, blocked: seq<bool>,
                              i: int, delta: real, playerPos: Vec3, offsets: seq<Vec3>, len: Vec3 -> real)
    reads orig`position, orig`lastDirection
  {
    && 0 <= i <= |orig| == |starts| == |pushes| == |blocked| == |offsets|
    && forall k {:trigger Steered(orig[k], starts[k], pushes[k], blocked[k], delta, playerPos, offsets[k].x, offsets[k].z, len)}
         :: i <= k < |orig| ==>
         Steered(orig[k], starts[k], pushes[k], blocked[k], delta, playerPos, offsets[k].x, offsets[k].z, len)
  }

  /** An enemy after its frame update: out of the scene exactly when it fell. */
  ghost predicate Settled(e: Enemy)
    reads e
  {
    e.inScene <==> e.position.y >= FallLimit
  }

  /** The enemies within hit range of a rocket at `p`, in roster order. */
  function NearRocket(s: seq<Enemy>, p: Vec3, len: Vec3 -> real): seq<Enemy>
    reads s`position
    decreases |s|
  {
    if s == [] then []
    else
      var rest := NearRocket(s[..|s| - 1], p, len);
      var e := s[|s| - 1];
      if len(Sub(e.position, p)) < HitRadius then rest + [e] else rest
  }

  /** The hit query returns exactly the roster members within range, each as often as listed. */
  lemma {:induction false} NearRocketExactly(s: seq<Enemy>, p: Vec3, len: Vec3 -> real)
    ensures forall k :: 0 <= k < |NearRocket(s, p, len)| ==>
      NearRocket(s, p, len)[k] in s && len(Sub(NearRocket(s, p, len)[k].position, p)) < HitRadius
    ensures forall k :: 0 <= k < |s| && len(Sub(s[k].position, p)) < HitRadius ==>
      s[k] in NearRocket(s, p, len)
    ensures |NearRocket(s, p, len)| <= |s|
    ensures Distinct(s) ==> Distinct(NearRocket(s, p, len))
    decreases |s|
  {
    if s != [] {
      var init := s[..|s| - 1];
      NearRocketExactly(init, p, len);
      assert forall k :: 0 <= k < |init| ==> s[k] == init[k];
      if Distinct(s) {
        assert s[|s| - 1] !in init;
      }
    }
  }

  /** `s` with every occurrence of `x` removed, the rest in order. */
  function Without(s: seq<Enemy>, x: Enemy): seq<Enemy>
    decreases |s|
  {
    if s == [] then []
    else if s[0] == x then Without(s[1..], x)
    else [s[0]] + Without(s[1..], x)
  }

  /** Removing by identity drops every copy of `x` and keeps every other element with its count. */
  lemma {:induction false} WithoutCounts(s: seq<Enemy>, x: Enemy)
    ensures multiset(Without(s, x)) == multiset(s)[x := 0]
    decreases |s|
  {
    if s != [] {
      WithoutCounts(s[1..], x);
      assert s == [s[0]] + s[1..];
    }
  }

  /** Removing `x` keeps exactly the other elements and keeps a roster free of duplicates. */
  lemma {:induction false} WithoutExactly(s: seq<Enemy>, x: Enemy)
    ensures forall k :: 0 <= k < |Without(s, x)| ==> Without(s, x)[k] in s && Without(s, x)[k] != x
    ensures forall k :: 0 <= k < |s| && s[k] != x ==> s[k] in Without(s, x)
    ensures Distinct(s) ==> Distinct(Without(s, x))
    decreases |s|
  {
    if s != [] {
      WithoutExactly(s[1..], x);
      assert forall k :: 1 <= k < |s| ==> s[k] == s[1..][k - 1];
      if Distinct(s) {
        assert s[0] !in s[1..];
      }
    }
  }

  class EnemyManager {
    var enemies: Roster
    var spawnInterval: int
    var lastSpawnTime: real
    var maxEnemies: int
    var enemySpeed: real
    var enemyTurnSpeed: real
    var enemiesKilled: int
    var level: int
    /** `this.skullMesh` has been set by the loader. */
    var skullLoaded: bool

    /** The difficulty parameters as one value. */
    function Curve(): Difficulty
      reads this`spawnInterval, this`maxEnemies, this`enemySpeed, this`enemyTurnSpeed, this`level
    {
      Difficulty(spawnInterval, maxEnemies, enemySpeed, enemyTurnSpeed, level)
    }

    /** Every roster member is a distinct enemy in the scene, and kills are counted from 1. */
    ghost predicate Valid()
      reads this`enemies, this`enemiesKilled, enemies`elems, enemies.elems`inScene
    {
      && Distinct(enemies.elems)
      && (forall k :: 0 <= k < |enemies.elems| ==> enemies.elems[k].inScene)
      && enemiesKilled >= 1
    }

    constructor ()
      ensures Valid() && fresh(enemies) && enemies.elems == []
      ensures Curve() == InitialDifficulty && Bounded(Curve())
      ensures lastSpawnTime == 0.0 && enemiesKilled == 1 && !skullLoaded
    {
      enemies := new Roster([]);
      spawnInterval := 5;
      lastSpawnTime := 0.0;
      maxEnemies := 1;
      enemySpeed := 10.0;
      enemyTurnSpeed := 2.0;
      enemiesKilled := 1;
      level := 1;
      skullLoaded := false;
    }

    /** The continuation of the asynchronous skull load. */
    method OnSkullLoaded()
      modifies this`skullLoaded
      ensures skullLoaded
    {
      skullLoaded := true;
    }

    /** The spawn gate: the interval has passed and the roster is below its cap. */
    predicate SpawnDue(elapsedTime: real)
      reads this, enemies
    {
      elapsedTime - lastSpawnTime > spawnInterval as real && |enemies.elems| < maxEnemies
    }

    /**
     * Creates an enemy at (150·rx − 75, 150, 150·rz − 75), where `rx` and `rz`
     * are draws of the random source, and appends it to the shared roster it
     * is handed.
     */
    method SpawnEnemy(rx: real, rz: real, side: Sign) returns (e: Enemy)
      requires skullLoaded && Valid()
      requires 0.0 <= rx < 1.0 && 0.0 <= rz < 1.0
      modifies enemies`elems
      ensures Valid() && fresh(e)
      ensures enemies.elems == old(enemies.elems) + [e]
      ensures e.enemies == enemies && e.platforms == []
      ensures e.enemySpeed == enemySpeed && e.turnSpeed == enemyTurnSpeed && e.avoidDir == side
      ensures e.position == SpawnPoint(rx, rz) && e.lastDirection == Zero
      ensures -75.0 <= e.position.x < 75.0 && -75.0 <= e.position.z < 75.0
    {
      var spawnPosition := SpawnPoint(rx, rz);
      e := new Enemy(spawnPosition, enemySpeed, enemyTurnSpeed, enemies, [], side);
      enemies.elems := enemies.elems + [e];
    }

    /**
     * One frame: maybe step the difficulty and spawn, then update every enemy
     * from the back of the roster and drop the ones that fell. The random
     * draws for a spawn, the per-enemy wander phases (`wander(i)` for index
     * `i`) and vector lengths are inputs. `pushes` and `blocked` record the
     * neighbours' push and the collision answer each enemy steered by.
     */
    method Update(delta: real, elapsedTime: real, playerPos: Vec3,
                  rx: real, rz: real, side: Sign, wander: int -> Vec3, len: Vec3 -> real)
      returns (ghost spawned: seq<Enemy>, ghost pushes: seq<Vec3>, ghost blocked: seq<bool>)
      requires Valid() && Bounded(Curve()) && 0.0 <= rx < 1.0 && 0.0 <= rz < 1.0
      requires SpawnDue(elapsedTime) ==> skullLoaded
      modifies this`spawnInterval, this`maxEnemies, this`enemySpeed, this`enemyTurnSpeed, this`level
      modifies this`lastSpawnTime, enemies`elems, enemies.elems
      ensures Valid() && Bounded(Curve()) && enemies == old(enemies) && enemiesKilled == old(enemiesKilled)
      ensures |pushes| == |blocked| == |spawned|
      ensures old(SpawnDue(elapsedTime)) ==>
        && Curve() == StepDifficulty(old(Curve()), enemiesKilled)
        && lastSpawnTime == elapsedTime
        && |spawned| == |old(enemies.elems)| + 1 && spawned[..|old(enemies.elems)|] == old(enemies.elems)
        && fresh(spawned[|old(enemies.elems)|])
        && Steered(spawned[|old(enemies.elems)|], Pose(SpawnPoint(rx, rz), Zero),
                   pushes[|old(enemies.elems)|], blocked[|old(enemies.elems)|],
                   delta, playerPos, wander(|old(enemies.elems)|).x, wander(|old(enemies.elems)|).z, len)
      ensures !old(SpawnDue(elapsedTime)) ==>
        Curve() == old(Curve()) && lastSpawnTime == old(lastSpawnTime) && spawned == old(enemies.elems)
      ensures forall k {:trigger pushes[k]} :: 0 <= k < |old(enemies.elems)| ==>
        Steered(spawned[k], old(PoseOf(enemies.elems[k])), pushes[k], blocked[k],
                delta, playerPos, wander(k).x, wander(k).z, len)
      ensures enemies.elems == Standing(spawned)
      ensures forall k :: 0 <= k < |spawned| ==> Settled(spawned[k])
      ensures skullLoaded == old(skullLoaded)
    {
      var _ := SpawnIfDue(elapsedTime, rx, rz, side);
      spawned := enemies.elems;
      pushes, blocked := UpdateEnemies(spawned, delta, playerPos, wander, len);
    }

    /**
     * The spawn gate of `update`: when the interval has passed and the roster
     * is below its cap, step the difficulty, spawn one enemy at the drawn
     * point and restart the timer; otherwise change nothing.
     */
    method SpawnIfDue(elapsedTime: real, rx: real, rz: real, side: Sign) returns (due: bool)
      requires Valid() && Bounded(Curve()) && 0.0 <= rx < 1.0 && 0.0 <= rz < 1.0
      requires SpawnDue(elapsedTime) ==> skullLoaded
      modifies this`spawnInterval, this`maxEnemies, this`enemySpeed, this`enemyTurnSpeed, this`level
      modifies this`lastSpawnTime, enemies`elems
      ensures due == old(SpawnDue(elapsedTime))
      ensures Valid() && Bounded(Curve()) && enemies == old(enemies) && enemiesKilled == old(enemiesKilled)
      ensures skullLoaded == old(skullLoaded)
      ensures due ==>
        && Curve() == StepDifficulty(old(Curve()), enemiesKilled)
        && lastSpawnTime == elapsedTime
        && |enemies.elems| == |old(enemies.elems)| + 1
        && enemies.elems[..|old(enemies.elems)|] == old(enemies.elems)
        && fresh(enemies.elems[|old(enemies.elems)|])
        && PoseOf(enemies.elems[|old(enemies.elems)|]) == Pose(SpawnPoint(rx, rz), Zero)
      ensures !due ==>
        Curve() == old(Curve()) && lastSpawnTime == old(lastSpawnTime) && enemies.elems == old(enemies.elems)
    {
      due := elapsedTime - lastSpawnTime > spawnInterval as real && |enemies.elems| < maxEnemies;
      if due {
        StepKeepsBounds(Curve(), enemiesKilled);
        StepCurve();
        var e := SpawnEnemy(rx, rz, side);
        lastSpawnTime := elapsedTime;
      }
    }

    /** The difficulty step `update` takes before a spawn. */
    method StepCurve()
      modifies this`spawnInterval, this`maxEnemies, this`enemySpeed, this`enemyTurnSpeed, this`level
      ensures Curve() == StepDifficulty(old(Curve()), enemiesKilled)
    {
      if enemiesKilled % 5 == 0 && level != enemiesKilled {
        level := enemiesKilled;
        if spawnInterval > 1 {
          spawnInterval := spawnInterval - 1;
        }
        if maxEnemies < 100 {
          maxEnemies := maxEnemies + 1;
        }
        if enemiesKilled % 10 == 0 {
          if enemySpeed < 20.0 {
            enemySpeed := enemySpeed + 1.0;
          }
          if enemyTurnSpeed < 5.0 {
            enemyTurnSpeed := enemyTurnSpeed + 0.2;
          }
        }
      }
    }

    /**
     * The fall loop of `update`: each enemy is updated once, from the last to
     * the first, steering by the push and collision answer recorded in
     * `pushes` and `blocked`, and dropped if it fell.
     */
    method UpdateEnemies(ghost orig: seq<Enemy>, delta: real, playerPos: Vec3,
                         wander: int -> Vec3, len: Vec3 -> real)
      returns (ghost pushes: seq<Vec3>, ghost blocked: seq<bool>)
      requires enemies.elems == orig && Distinct(orig)
      requires forall k :: 0 <= k < |orig| ==> orig[k].inScene
      requires enemiesKilled >= 1
      modifies enemies`elems, orig`position, orig`lastDirection, orig`inScene
      ensures enemies.elems == Standing(orig) && Valid()
      ensures forall k :: 0 <= k < |orig| ==> Settled(orig[k])
      ensures |pushes| == |blocked| == |orig|
      ensures forall k {:trigger pushes[k]} :: 0 <= k < |orig| ==>
        Steered(orig[k], old(PoseOf(orig[k])), pushes[k], blocked[k],
                delta, playerPos, wander(k).x, wander(k).z, len)
    {
      var offsets := seq(|enemies.elems|, k => wander(k));
      ghost var starts := Poses(orig);
      pushes, blocked := FallLoop(orig, starts, delta, playerPos, offsets, len);
      StandingLive(orig);
      forall k | 0 <= k < |orig|
        ensures Steered(orig[k], old(PoseOf(orig[k])), pushes[k], blocked[k],
                        delta, playerPos, wander(k).x, wander(k).z, len)
      {
        assert starts[k] == old(PoseOf(orig[k])) && offsets[k] == wander(k);
        assert Steered(orig[k], starts[k], pushes[k], blocked[k], delta, playerPos, offsets[k].x, offsets[k].z, len);
      }
    }

    /** The loop of `update` over the roster, from the back: each enemy steers once, then leaves if it fell. */
    method FallLoop(ghost orig: seq<Enemy>, ghost starts: seq<Pose>, delta: real, playerPos: Vec3,
                    offsets: seq<Vec3>, len: Vec3 -> real)
      returns (ghost pushes: seq<Vec3>, ghost blocked: seq<bool>)
      requires enemies.elems == orig && Distinct(orig) && |offsets| == |orig|
      requires Waiting(orig, starts, |orig|) && forall k :: 0 <= k < |orig| ==> orig[k].inScene
      modifies enemies`elems, orig`position, orig`lastDirection, orig`inScene
      ensures enemies.elems == Standing(orig)
      ensures forall k :: 0 <= k < |orig| ==> Settled(orig[k])
      ensures SteeredFrom(orig, starts, pushes, blocked, 0, delta, playerPos, offsets, len)
    {
      pushes := seq(|orig|, _ => Zero);
      blocked := seq(|orig|, _ => false);
      var i := |enemies.elems|;
      while i > 0
        invariant 0 <= i <= |orig|
        invariant enemies.elems == orig[..i] + Standing(orig[i..])
        invariant Waiting(orig, starts, i) && forall k :: 0 <= k < i ==> orig[k].inScene
        invariant forall k :: i <= k < |orig| ==> Settled(orig[k])
        invariant SteeredFrom(orig, starts, pushes, blocked, i, delta, playerPos, offsets, len)
      {
        i := i - 1;
        var push, hit := UpdateEnemyAt(i, orig, starts, pushes, blocked, delta, playerPos, offsets, len);
        pushes := pushes[i := push];
        blocked := blocked[i := hit];
      }
      assert orig[0..] == orig;
    }

    /** One iteration of the fall loop. */
    method UpdateEnemyAt(i: int, ghost orig: seq<Enemy>, ghost starts: seq<Pose>,
                         ghost pushes: seq<Vec3>, ghost blocked: seq<bool>,
                         delta: real, playerPos: Vec3, offsets: seq<Vec3>, len: Vec3 -> real)
      returns (ghost push: Vec3, ghost hit: bool)
      requires 0 <= i < |orig| && Distinct(orig)
      requires enemies.elems == orig[..i + 1] + Standing(orig[i + 1..])
      requires Waiting(orig, starts, i + 1) && forall k :: 0 <= k <= i ==> orig[k].inScene
      requires forall k :: i < k < |orig| ==> Settled(orig[k])
      requires SteeredFrom(orig, starts, pushes, blocked, i + 1, delta, playerPos, offsets, len)
      modifies enemies`elems, {orig[i]}`position, {orig[i]}`lastDirection, {orig[i]}`inScene
      ensures enemies.elems == orig[..i] + Standing(orig[i..])
      ensures Waiting(orig, starts, i) && forall k :: 0 <= k < i ==> orig[k].inScene
      ensures forall k :: i <= k < |orig| ==> Settled(orig[k])
      ensures SteeredFrom(orig, starts, pushes[i := push], blocked[i := hit], i, delta, playerPos, offsets, len)
    {
      var enemy := enemies.elems[i];
      assert enemy == orig[i];
      push, hit := StepEnemy(enemy, i, orig, starts, pushes, blocked, delta, playerPos, offsets, len);
      DropIfFallen(i, orig);
    }

    /** The fall check on the enemy at `i`, which has just moved: below the floor it leaves the roster. */
    method DropIfFallen(i: int, ghost orig: seq<Enemy>)
      requires 0 <= i < |orig| && Distinct(orig)
      requires enemies.elems == orig[..i + 1] + Standing(orig[i + 1..])
      requires forall k :: 0 <= k <= i ==> orig[k].inScene
      requires forall k :: i < k < |orig| ==> Settled(orig[k])
      modifies enemies`elems, {orig[i]}`inScene
      ensures enemies.elems == orig[..i] + Standing(orig[i..])
      ensures forall k :: 0 <= k < i ==> orig[k].inScene
      ensures forall k :: i <= k < |orig| ==> Settled(orig[k])
    {
      var enemy := enemies.elems[i];
      assert enemy == orig[i];
      assert forall k :: 0 <= k < |orig| && k != i ==> orig[k] != enemy;
      StandingFront(orig, i);
      if enemy.position.y < FallLimit {
        RemoveEnemyIndex(i);
      }
    }

    /**
     * `Enemy.update` on the enemy at `i`: it steers by the push of its
     * roster's members as they stand now and by its collision answer, and no
     * other enemy moves.
     */
    static method StepEnemy(enemy: Enemy, i: int, ghost orig: seq<Enemy>, ghost starts: seq<Pose>,
                            ghost pushes: seq<Vec3>, ghost blocked: seq<bool>, delta: real,
                            playerPos: Vec3, offsets: seq<Vec3>, len: Vec3 -> real)
      returns (ghost push: Vec3, ghost hit: bool)
      requires 0 <= i < |orig| && Distinct(orig) && enemy == orig[i]
      requires Waiting(orig, starts, i + 1)
      requires forall k :: i < k < |orig| ==> Settled(orig[k])
      requires SteeredFrom(orig, starts, pushes, blocked, i + 1, delta, playerPos, offsets, len)
      modifies enemy`position, enemy`lastDirection
      ensures push == old(Repulsion(enemy, enemy.enemies.elems, enemy.position,
                                    Damping(playerPos.y - enemy.position.y), len))
      ensures hit == enemy.Collides()
      ensures Steered(enemy, starts[i], push, hit, delta, playerPos, offsets[i].x, offsets[i].z, len)
      ensures Waiting(orig, starts, i)
      ensures SteeredFrom(orig, starts, pushes[i := push], blocked[i := hit], i, delta, playerPos, offsets, len)
      ensures forall k :: i < k < |orig| ==> Settled(orig[k])
      ensures Standing(orig[i + 1..]) == old(Standing(orig[i + 1..]))
    {
      assert forall k :: 0 <= k < |orig| && k != i ==> orig[k] != enemy;
      assert enemy !in orig[i + 1..];
      push := Repulsion(enemy, enemy.enemies.elems, enemy.position, Damping(playerPos.y - enemy.position.y), len);
      enemy.Update(delta, playerPos, offsets[i].x, offsets[i].z, len);
      hit := enemy.Collides();
    }

    /** Disposes the enemy at `index` and splices it out of the shared roster. */
    method RemoveEnemyIndex(index: int)
      requires 0 <= index < |enemies.elems|
      modifies enemies`elems, {enemies.elems[index]}`inScene
      ensures old(enemies.elems[index]).position == old(enemies.elems[index].position)
      ensures enemies.elems == old(enemies.elems[..index] + enemies.elems[index + 1..])
      ensures !old(enemies.elems[index]).inScene
    {
      var enemy := enemies.elems[index];
      enemy.Dispose();
      enemies.elems := enemies.elems[..index] + enemies.elems[index + 1..];
    }

    /** The enemies a rocket at `rocketPosition` hits; nothing changes. */
    method CheckCollisionsWithRocket(rocketPosition: Vec3, len: Vec3 -> real) returns (hits: seq<Enemy>)
      ensures hits == NearRocket(enemies.elems, rocketPosition, len)
    {
      var roster := enemies.elems;
      hits := [];
      for k := 0 to |roster|
        invariant hits == NearRocket(roster[..k], rocketPosition, len)
      {
        assert roster[..k + 1][..k] == roster[..k];
        var enemy := roster[k];
        var distance := len(Sub(enemy.position, rocketPosition));
        if distance < HitRadius {
          hits := hits + [enemy];
        }
      }
      assert roster[..|roster|] == roster;
    }

    /**
     * A kill: the manager's roster is replaced by a new array without the
     * enemy (enemies holding the old array keep it), the enemy is disposed and
     * the kill is counted.
     */
    method RemoveEnemy(enemy: Enemy)
      requires Valid()
      modifies this`enemies, this`enemiesKilled, enemy`inScene
      ensures Valid() && fresh(enemies)
      ensures enemies.elems == Without(old(enemies.elems), enemy)
      ensures multiset(enemies.elems) == multiset(old(enemies.elems))[enemy := 0]
      ensures old(enemies).elems == old(enemies.elems)
      ensures !enemy.inScene && enemiesKilled == old(enemiesKilled) + 1
    {
      var remaining := Without(enemies.elems, enemy);
      WithoutCounts(enemies.elems, enemy);
      WithoutExactly(enemies.elems, enemy);
      enemies := new Roster(remaining);
      enemy.Dispose();
      enemiesKilled := enemiesKilled + 1;
    }

    /** Disposes every enemy and starts a new, empty roster array. */
    method ClearEnemies()
      requires Valid()
      modifies this`enemies, enemies.elems
      ensures Valid() && fresh(enemies) && enemies.elems == []
      ensures forall e :: e in old(enemies.elems) ==> !e.inScene
      ensures old(enemies).elems == old(enemies.elems)
    {
      var roster := enemies.elems;
      for k := 0 to |roster|
        invariant forall j :: 0 <= j < k ==> !roster[j].inScene
      {
        roster[k].Dispose();
      }
      enemies := new Roster([]);
    }
  }
}
