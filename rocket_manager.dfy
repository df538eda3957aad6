/**
 * Rockets (RocketManager): firing along the camera, the direct-hit pass that
 * kills enemies near each rocket, the contact pass over the physics world's
 * manifolds with its blast impulses on the player, and the cleanup of spent
 * rockets together with their entries in the user-index table.
 *
 * The physics world is outside the model: each tick it supplies the origin of
 * every rocket body's world transform (`bodyOrigin`, by user index) and the
 * list of contact manifolds. Impulses are returned rather than applied.
 */
module Rockets {
  import opened Optional
  import opened Collections
  import opened Geometry
  import opened Input
  import opened Enemies
  import opened EnemyManagement
  import opened PlayerMovement

  /** Blasts push the player only within this distance of the contact point. */
  const ExplosionRadius := 15.0
  /** Impulse magnitude at the centre of a blast. */
  const ExplosionForce := 200.0
  /** Speed given to a new rocket's body. */
  const LaunchSpeed := 150.0
  /** New rockets appear this far ahead of the player. */
  const SpawnDistance := 2.0
  /** Rocket bodies below this height are removed. */
  const CleanupDepth := -50.0

  /** A live rocket: the user index of its body, its mesh position and the velocity it was launched with. */
  datatype Rocket = Rocket(userIndex: int, position: Vec3, launchVelocity: Vec3)

  /** The record `rigidBodyDataMap` holds for a user index. */
  datatype RocketData = RocketData(isRocket: bool, toRemove: bool)

  /** A contact point of a manifold: signed separation and the world position on body A. */
  datatype Contact = Contact(distance: real, pointOnA: Vec3)

  /** A contact manifold between the bodies with user indices `index0` and `index1`. */
  datatype Manifold = Manifold(index0: int, index1: int, contacts: seq<Contact>)

  // ---------------------------------------------------------------- firing

  /** The rocket with id `id` fired from `playerPos` along the camera direction `look`. */
  function Launch(id: int, playerPos: Vec3, look: Vec3, len: Vec3 -> real): Rocket
  {
    var forward := Direction(look, len);
    Rocket(id, Add(playerPos, Scale(forward, SpawnDistance)), Scale(forward, LaunchSpeed))
  }

  /**
   * For a camera direction of positive length, the rocket appears 2 units
   * from the player and flies away from the player at speed 150.
   */
  lemma LaunchGeometry(id: int, playerPos: Vec3, look: Vec3, len: Vec3 -> real)
    requires IsLengthOf(len(look), look) && len(look) > 0.0
    ensures Launch(id, playerPos, look, len).userIndex == id
    ensures IsLengthOf(SpawnDistance, Sub(Launch(id, playerPos, look, len).position, playerPos))
    ensures IsLengthOf(LaunchSpeed, Launch(id, playerPos, look, len).launchVelocity)
    ensures Launch(id, playerPos, look, len).launchVelocity ==
      Scale(Sub(Launch(id, playerPos, look, len).position, playerPos), LaunchSpeed / SpawnDistance)
  {
    var forward := Direction(look, len);
    ScaleLength(forward, 1.0, SpawnDistance);
    ScaleLength(forward, 1.0, LaunchSpeed);
    assert Sub(Add(playerPos, Scale(forward, SpawnDistance)), playerPos) == Scale(forward, SpawnDistance);
  }

  // ------------------------------------------------------------- explosions

  /** The blast at `point` divides by the player's distance from it only when that distance is non-zero. */
  predicate BlastDefined(point: Vec3, playerPos: Vec3, len: Vec3 -> real)
  {
    len(Sub(playerPos, point)) < ExplosionRadius ==> len(Sub(playerPos, point)) != 0.0
  }

  /** The impulse a blast at `point` gives the player at `playerPos` (`triggerExplosion`), if any. */
  function Blast(point: Vec3, playerPos: Vec3, len: Vec3 -> real): (r: Option<Vec3>)
    requires BlastDefined(point, playerPos, len)
    ensures r.Some? <==> len(Sub(playerPos, point)) < ExplosionRadius
  {
    var delta := Sub(playerPos, point);
    var distance := len(delta);
    if distance < ExplosionRadius then
      var factor := (ExplosionRadius - distance) / ExplosionRadius;
      var force := ExplosionForce * factor;
      Some(Vec3(delta.x / distance * force, delta.y / distance * force, delta.z / distance * force))
    else
      None
  }

  /**
   * Within the radius the impulse points from the blast towards the player
   * with magnitude 200 * (15 - d) / 15: 100 at half the radius, close to 200
   * next to the blast.
   */
  lemma BlastMagnitude(point: Vec3, playerPos: Vec3, len: Vec3 -> real)
    requires IsLengthOf(len(Sub(playerPos, point)), Sub(playerPos, point))
    requires 0.0 < len(Sub(playerPos, point)) < ExplosionRadius
    ensures Blast(point, playerPos, len).Some?
    ensures IsLengthOf(ExplosionForce * (ExplosionRadius - len(Sub(playerPos, point))) / ExplosionRadius,
                       Blast(point, playerPos, len).value)
    ensures Blast(point, playerPos, len).value ==
      Scale(Sub(playerPos, point), ExplosionForce * ((ExplosionRadius - len(Sub(playerPos, point))) / ExplosionRadius) / len(Sub(playerPos, point)))
    ensures len(Sub(playerPos, point)) == 7.5 ==> IsLengthOf(100.0, Blast(point, playerPos, len).value)
  {
    var delta := Sub(playerPos, point);
    var d := len(delta);
    var force := ExplosionForce * ((ExplosionRadius - d) / ExplosionRadius);
    var k := force / d;
    DivMul(delta.x, force, d);
    DivMul(delta.y, force, d);
    DivMul(delta.z, force, d);
    assert Blast(point, playerPos, len).value == Scale(delta, k);
    assert k > 0.0 by { MulPositive(ExplosionForce, (ExplosionRadius - d) / ExplosionRadius); }
    ScaleLength(delta, d, k);
    assert k * d == force;
  }

  /** The impulses one blast contributes: one if the player is within the radius, none otherwise. */
  function BlastImpulses(point: Vec3, playerPos: Vec3, len: Vec3 -> real): seq<Vec3>
    requires BlastDefined(point, playerPos, len)
  {
    match Blast(point, playerPos, len)
    case Some(v) => [v]
    case None => []
  }

  // ---------------------------------------------------------- contact pass

  /** `userData?.isRocket === true`: the index maps to an entry marked as a rocket. */
  predicate IsRocketIndex(m: map<int, RocketData>, index: int)
  {
    index in m && m[index].isRocket
  }

  /** The position of the first contact with negative distance, if any. */
  function FirstPenetration(cs: seq<Contact>): (r: Option<nat>)
    ensures r.Some? ==> r.value < |cs| && cs[r.value].distance < 0.0
    ensures r.Some? ==> forall j :: 0 <= j < r.value ==> cs[j].distance >= 0.0
    ensures r.None? ==> forall j :: 0 <= j < |cs| ==> cs[j].distance >= 0.0
    decreases |cs|
  {
    if cs == [] then None
    else if cs[0].distance < 0.0 then Some(0)
    else
      match FirstPenetration(cs[1..])
      case None => None
      case Some(j) => Some(j + 1)
  }

  /** The blast a manifold can cause is well defined for the player at `playerPos`. */
  predicate ManifoldBlastDefined(mf: Manifold, playerPos: Vec3, len: Vec3 -> real)
  {
    match FirstPenetration(mf.contacts)
    case Some(j) => BlastDefined(mf.contacts[j].pointOnA, playerPos, len)
    case None => true
  }

  /** `m` with the entry for `index` flagged for removal. */
  function Flag(m: map<int, RocketData>, index: int): (r: map<int, RocketData>)
    requires index in m
    ensures r.Keys == m.Keys && r[index] == RocketData(m[index].isRocket, true)
    ensures forall id :: id in m && id != index ==> r[id] == m[id]
  {
    m[index := m[index].(toRemove := true)]
  }

  /** The number of the manifold's two bodies that are rockets. */
  function RocketBodies(m: map<int, RocketData>, mf: Manifold): nat
  {
    (if IsRocketIndex(m, mf.index0) then 1 else 0) + (if IsRocketIndex(m, mf.index1) then 1 else 0)
  }

  /** The manifold hits the rocket with user index `id`: it is one of the two bodies and the bodies penetrate. */
  predicate Struck(m: map<int, RocketData>, mf: Manifold, id: int)
  {
    IsRocketIndex(m, id) && (id == mf.index0 || id == mf.index1) && FirstPenetration(mf.contacts).Some?
  }

  /** One manifold's effect on the data table, and the impulses its blasts give the player. */
  function ManifoldEffect(m: map<int, RocketData>, mf: Manifold, playerPos: Vec3, len: Vec3 -> real)
    : (r: (map<int, RocketData>, seq<Vec3>))
    requires ManifoldBlastDefined(mf, playerPos, len)
    ensures r.0.Keys == m.Keys
    ensures forall id :: id in m ==> r.0[id].isRocket == m[id].isRocket
    ensures forall id :: id in m ==> (r.0[id].toRemove <==> m[id].toRemove || Struck(m, mf, id))
    ensures RocketBodies(m, mf) == 0 ==> r == (m, [])
    ensures FirstPenetration(mf.contacts).None? ==> r.1 == []
    ensures FirstPenetration(mf.contacts).Some? ==>
      var point := mf.contacts[FirstPenetration(mf.contacts).value].pointOnA;
      && (forall k :: 0 <= k < |r.1| ==> Blast(point, playerPos, len) == Some(r.1[k]))
      && |r.1| == (if Blast(point, playerPos, len).Some? then RocketBodies(m, mf) else 0)
  {
    var isRocket0 := IsRocketIndex(m, mf.index0);
    var isRocket1 := IsRocketIndex(m, mf.index1);
    if !isRocket0 && !isRocket1 then (m, [])
    else
      match FirstPenetration(mf.contacts)
      case None => (m, [])
      case Some(j) =>
        var point := mf.contacts[j].pointOnA;
        var m0 := if isRocket0 then Flag(m, mf.index0) else m;
        var i0 := if isRocket0 then BlastImpulses(point, playerPos, len) else [];
        var m1 := if isRocket1 then Flag(m0, mf.index1) else m0;
        var i1 := if isRocket1 then BlastImpulses(point, playerPos, len) else [];
        (m1, i0 + i1)
  }

  /** The contact pass over the manifolds in order: the final data table and all impulses, in order. */
  function Scan(m: map<int, RocketData>, ms: seq<Manifold>, playerPos: Vec3, len: Vec3 -> real)
    : (r: (map<int, RocketData>, seq<Vec3>))
    requires forall k :: 0 <= k < |ms| ==> ManifoldBlastDefined(ms[k], playerPos, len)
    ensures r.0.Keys == m.Keys
    ensures forall id :: id in m ==> r.0[id].isRocket == m[id].isRocket
    ensures forall id :: id in m ==>
      (r.0[id].toRemove <==> m[id].toRemove || exists k :: 0 <= k < |ms| && Struck(m, ms[k], id))
    decreases |ms|
  {
    if ms == [] then (m, [])
    else
      var prev := Scan(m, ms[..|ms| - 1], playerPos, len);
      var last := ManifoldEffect(prev.0, ms[|ms| - 1], playerPos, len);
      assert forall k :: 0 <= k < |ms| - 1 ==> ms[..|ms| - 1][k] == ms[k];
      (last.0, prev.1 + last.1)
  }

  /** A manifold between two bodies neither of which is a rocket changes nothing and yields no impulse. */
  lemma {:induction false} StrangersIgnored(m: map<int, RocketData>, ms: seq<Manifold>, mf: Manifold,
                                             playerPos: Vec3, len: Vec3 -> real)
    requires forall k :: 0 <= k < |ms| ==> ManifoldBlastDefined(ms[k], playerPos, len)
    requires ManifoldBlastDefined(mf, playerPos, len)
    requires !IsRocketIndex(m, mf.index0) && !IsRocketIndex(m, mf.index1)
    ensures Scan(m, ms + [mf], playerPos, len) == Scan(m, ms, playerPos, len)
  {
    var prev := Scan(m, ms, playerPos, len);
    assert (ms + [mf])[..|ms|] == ms;
    assert !IsRocketIndex(prev.0, mf.index0) && !IsRocketIndex(prev.0, mf.index1);
    assert prev.1 + [] == prev.1;
  }

  // ------------------------------------------------------ direct-hit pass

  /** The mesh positions of `rs`, in order. */
  function RocketPositions(rs: seq<Rocket>): (r: seq<Vec3>)
    ensures |r| == |rs| && forall k :: 0 <= k < |rs| ==> r[k] == rs[k].position
    decreases |rs|
  {
    if rs == [] then [] else RocketPositions(rs[..|rs| - 1]) + [rs[|rs| - 1].position]
  }

  /** Some rocket position in `ps` is within hit range of `q`. */
  predicate NearAny(q: Vec3, ps: seq<Vec3>, len: Vec3 -> real)
  {
    exists k :: 0 <= k < |ps| && len(Sub(q, ps[k])) < HitRadius
  }

  lemma NearAnyAppend(q: Vec3, ps: seq<Vec3>, p: Vec3, len: Vec3 -> real)
    ensures NearAny(q, ps + [p], len) <==> NearAny(q, ps, len) || len(Sub(q, p)) < HitRadius
  {
    if NearAny(q, ps + [p], len) {
      var k :| 0 <= k < |ps + [p]| && len(Sub(q, (ps + [p])[k])) < HitRadius;
      if k < |ps| {
        assert (ps + [p])[k] == ps[k];
      }
    }
    if NearAny(q, ps, len) {
      var k :| 0 <= k < |ps| && len(Sub(q, ps[k])) < HitRadius;
      assert (ps + [p])[k] == ps[k];
    }
    if len(Sub(q, p)) < HitRadius {
      assert (ps + [p])[|ps|] == p;
    }
  }

  /**
   * The enemies of `s` out of hit range of every rocket position in `ps`, in
   * roster order; `qs` lists the enemies' positions.
   */
  function Survivors(s: seq<Enemy>, qs: seq<Vec3>, ps: seq<Vec3>, len: Vec3 -> real): seq<Enemy>
    requires |qs| == |s|
    decreases |s|
  {
    if s == [] then []
    else (if NearAny(qs[0], ps, len) then [] else [s[0]]) + Survivors(s[1..], qs[1..], ps, len)
  }

  /**
   * The survivors are roster members; a member survives if no rocket position
   * is near it and, in a roster without duplicates, only then.
   */
  lemma SurvivorsExactly(s: seq<Enemy>, qs: seq<Vec3>, ps: seq<Vec3>, len: Vec3 -> real)
    requires |qs| == |s|
    ensures forall k :: 0 <= k < |Survivors(s, qs, ps, len)| ==> Survivors(s, qs, ps, len)[k] in s
    ensures forall k :: 0 <= k < |s| && !NearAny(qs[k], ps, len) ==> s[k] in Survivors(s, qs, ps, len)
    ensures Distinct(s) ==> forall k :: 0 <= k < |s| && s[k] in Survivors(s, qs, ps, len) ==> !NearAny(qs[k], ps, len)
    ensures Survivors(s, qs, [], len) == s
  {
    SurvivorsMembers(s, qs, ps, len);
    SurvivorsKeep(s, qs, ps, len);
    if Distinct(s) {
      SurvivorsOnly(s, qs, ps, len);
    }
    SurvivorsNone(s, qs, len);
  }

  lemma {:induction false} SurvivorsMembers(s: seq<Enemy>, qs: seq<Vec3>, ps: seq<Vec3>, len: Vec3 -> real)
    requires |qs| == |s|
    ensures forall k :: 0 <= k < |Survivors(s, qs, ps, len)| ==> Survivors(s, qs, ps, len)[k] in s
    decreases |s|
  {
    if s != [] {
      var all := Survivors(s, qs, ps, len);
      var head := if NearAny(qs[0], ps, len) then [] else [s[0]];
      var rest := Survivors(s[1..], qs[1..], ps, len);
      SurvivorsMembers(s[1..], qs[1..], ps, len);
      assert all == head + rest;
      forall k | 0 <= k < |all|
        ensures all[k] in s
      {
        if k >= |head| {
          var i :| 0 <= i < |s[1..]| && s[1..][i] == rest[k - |head|];
          assert s[i + 1] == all[k];
        }
      }
    }
  }

  lemma {:induction false} SurvivorsKeep(s: seq<Enemy>, qs: seq<Vec3>, ps: seq<Vec3>, len: Vec3 -> real)
    requires |qs| == |s|
    ensures forall k :: 0 <= k < |s| && !NearAny(qs[k], ps, len) ==> s[k] in Survivors(s, qs, ps, len)
    decreases |s|
  {
    if s != [] {
      var all := Survivors(s, qs, ps, len);
      var head := if NearAny(qs[0], ps, len) then [] else [s[0]];
      var rest := Survivors(s[1..], qs[1..], ps, len);
      SurvivorsKeep(s[1..], qs[1..], ps, len);
      assert all == head + rest;
      forall k | 0 <= k < |s| && !NearAny(qs[k], ps, len)
        ensures s[k] in all
      {
        if k > 0 {
          assert s[k] == s[1..][k - 1] && qs[k] == qs[1..][k - 1];
          var i :| 0 <= i < |rest| && rest[i] == s[k];
          assert all[|head| + i] == s[k];
        }
      }
    }
  }

  lemma {:induction false} SurvivorsOnly(s: seq<Enemy>, qs: seq<Vec3>, ps: seq<Vec3>, len: Vec3 -> real)
    requires |qs| == |s| && Distinct(s)
    ensures forall k :: 0 <= k < |s| && s[k] in Survivors(s, qs, ps, len) ==> !NearAny(qs[k], ps, len)
    decreases |s|
  {
    if s != [] {
      var all := Survivors(s, qs, ps, len);
      var head := if NearAny(qs[0], ps, len) then [] else [s[0]];
      var rest := Survivors(s[1..], qs[1..], ps, len);
      assert Distinct(s[1..]) by {
        forall i, j | 0 <= i < j < |s[1..]| ensures s[1..][i] != s[1..][j] {
          assert s[1..][i] == s[i + 1] && s[1..][j] == s[j + 1];
        }
      }
      SurvivorsOnly(s[1..], qs[1..], ps, len);
      SurvivorsMembers(s[1..], qs[1..], ps, len);
      assert all == head + rest;
      assert s[0] !in s[1..];
      forall k | 0 <= k < |s| && s[k] in all
        ensures !NearAny(qs[k], ps, len)
      {
        var i :| 0 <= i < |all| && all[i] == s[k];
        if k == 0 {
          if i >= |head| {
            assert false;
          }
        } else {
          assert s[k] == s[1..][k - 1] && qs[k] == qs[1..][k - 1];
          if i < |head| {
            assert false;
          }
          assert rest[i - |head|] == s[k];
        }
      }
    }
  }

  lemma {:induction false} SurvivorsNone(s: seq<Enemy>, qs: seq<Vec3>, len: Vec3 -> real)
    requires |qs| == |s|
    ensures Survivors(s, qs, [], len) == s
    decreases |s|
  {
    if s != [] {
      SurvivorsNone(s[1..], qs[1..], len);
      assert s == [s[0]] + s[1..];
    }
  }

  /** `s` without the members of `xs`, in order. */
  function Drop(s: seq<Enemy>, xs: seq<Enemy>): seq<Enemy>
    decreases |s|
  {
    if s == [] then [] else (if s[0] in xs then [] else [s[0]]) + Drop(s[1..], xs)
  }

  /** Removing one more enemy from a dropped roster drops it together with the others. */
  lemma {:induction false} DropStep(s: seq<Enemy>, xs: seq<Enemy>, x: Enemy)
    ensures Without(Drop(s, xs), x) == Drop(s, xs + [x])
    decreases |s|
  {
    if s != [] {
      DropStep(s[1..], xs, x);
      var head := if s[0] in xs then [] else [s[0]];
      var rest := Drop(s[1..], xs);
      if head != [] {
        assert (head + rest)[0] == s[0] && (head + rest)[1..] == rest;
      } else {
        assert head + rest == rest;
      }
    }
  }

  /** A roster member that is not dropped stays. */
  lemma {:induction false} DropKeeps(s: seq<Enemy>, xs: seq<Enemy>, x: Enemy)
    requires x in s && x !in xs
    ensures x in Drop(s, xs)
    decreases |s|
  {
    if s[0] != x {
      assert x in s[1..];
      DropKeeps(s[1..], xs, x);
    }
  }

  /** Removing a member of a duplicate-free roster shortens it by one. */
  lemma {:induction false} WithoutLength(s: seq<Enemy>, x: Enemy)
    requires Distinct(s) && x in s
    ensures |Without(s, x)| == |s| - 1
    decreases |s|
  {
    if s[0] == x {
      assert x !in s[1..];
      WithoutAbsent(s[1..], x);
    } else {
      assert x in s[1..];
      WithoutLength(s[1..], x);
    }
  }

  lemma {:induction false} WithoutAbsent(s: seq<Enemy>, x: Enemy)
    requires x !in s
    ensures Without(s, x) == s
    decreases |s|
  {
    if s != [] {
      WithoutAbsent(s[1..], x);
      assert s == [s[0]] + s[1..];
    }
  }

  /**
   * Dropping from the survivors of `ps` exactly the survivors near `p`
   * leaves the survivors of `ps` followed by `p`.
   */
  lemma {:induction false} SurvivorsStep(s: seq<Enemy>, qs: seq<Vec3>, ps: seq<Vec3>, p: Vec3, hits: seq<Enemy>,
                                         len: Vec3 -> real)
    requires |qs| == |s|
    requires forall k :: 0 <= k < |s| && !NearAny(qs[k], ps, len) ==>
      (s[k] in hits <==> len(Sub(qs[k], p)) < HitRadius)
    ensures Drop(Survivors(s, qs, ps, len), hits) == Survivors(s, qs, ps + [p], len)
    decreases |s|
  {
    if s != [] {
      assert forall k :: 1 <= k < |s| ==> s[k] == s[1..][k - 1] && qs[k] == qs[1..][k - 1];
      SurvivorsStep(s[1..], qs[1..], ps, p, hits, len);
      NearAnyAppend(qs[0], ps, p, len);
      var rest := Survivors(s[1..], qs[1..], ps, len);
      if !NearAny(qs[0], ps, len) {
        assert ([s[0]] + rest)[0] == s[0] && ([s[0]] + rest)[1..] == rest;
      } else {
        assert [] + rest == rest;
      }
    }
  }

  /** The rocket `r` with its mesh moved to its body's world position. */
  function MoveTo(r: Rocket, bodyOrigin: int -> Vec3): Rocket
  {
    r.(position := bodyOrigin(r.userIndex))
  }

  /** Every rocket's mesh moved to its body's world position. */
  function Moved(rs: seq<Rocket>, bodyOrigin: int -> Vec3): (r: seq<Rocket>)
    ensures |r| == |rs|
  {
    seq(|rs|, k requires 0 <= k < |rs| => MoveTo(rs[k], bodyOrigin))
  }

  /**
   * Moving the mesh of rocket `i` extends the moved prefix by one; `rs[i]`
   * is the first rocket not yet moved.
   */
  lemma MovedStep(rs: seq<Rocket>, i: int, bodyOrigin: int -> Vec3)
    requires 0 <= i <= |rs|
    ensures |Moved(rs[..i], bodyOrigin) + rs[i..]| == |rs|
    ensures i < |rs| ==> (Moved(rs[..i], bodyOrigin) + rs[i..])[i] == rs[i]
    ensures i < |rs| ==>
      (Moved(rs[..i], bodyOrigin) + rs[i..])[i := MoveTo(rs[i], bodyOrigin)] == Moved(rs[..i + 1], bodyOrigin) + rs[i + 1..]
    ensures i == |rs| ==> Moved(rs[..i], bodyOrigin) + rs[i..] == Moved(rs, bodyOrigin)
    ensures i == 0 ==> Moved(rs[..i], bodyOrigin) + rs[i..] == rs
  {
    if i < |rs| {
      var a := (Moved(rs[..i], bodyOrigin) + rs[i..])[i := MoveTo(rs[i], bodyOrigin)];
      var b := Moved(rs[..i + 1], bodyOrigin) + rs[i + 1..];
      assert forall k :: 0 <= k < |rs| ==> a[k] == b[k];
    }
    if i == |rs| {
      assert rs[..i] == rs && rs[i..] == [];
    }
    if i == 0 {
      assert Moved(rs[..0], bodyOrigin) == [];
    }
  }

  /** The positions of the enemies of `s`, in roster order. */
  function EnemyPositions(s: seq<Enemy>): (r: seq<Vec3>)
    reads s`position
    ensures |r| == |s| && forall k :: 0 <= k < |s| ==> r[k] == s[k].position
    decreases |s|
  {
    if s == [] then [] else EnemyPositions(s[..|s| - 1]) + [s[|s| - 1].position]
  }

  /** Some enemy position in `qs` out of range of every position in `ps` is within hit range of `p`. */
  predicate Hits(qs: seq<Vec3>, ps: seq<Vec3>, p: Vec3, len: Vec3 -> real)
  {
    exists j :: 0 <= j < |qs| && !NearAny(qs[j], ps, len) && len(Sub(qs[j], p)) < HitRadius
  }

  /** The hit query against the survivors of `ps` finds something exactly when `Hits` holds. */
  lemma HitsExactly(roster: seq<Enemy>, ps: seq<Vec3>, p: Vec3, len: Vec3 -> real)
    requires Distinct(roster)
    ensures var qs := EnemyPositions(roster);
      NearRocket(Survivors(roster, qs, ps, len), p, len) != [] <==> Hits(qs, ps, p, len)
  {
    var qs := EnemyPositions(roster);
    var alive := Survivors(roster, qs, ps, len);
    var hits := NearRocket(alive, p, len);
    if hits != [] {
      var e := hits[0];
      assert e in alive && len(Sub(e.position, p)) < HitRadius by {
        NearRocketExactly(alive, p, len);
      }
      var i :| 0 <= i < |alive| && alive[i] == e;
      assert e in roster by {
        SurvivorsMembers(roster, qs, ps, len);
      }
      var j :| 0 <= j < |roster| && roster[j] == e;
      assert !NearAny(qs[j], ps, len) by {
        SurvivorsOnly(roster, qs, ps, len);
      }
      assert qs[j] == e.position;
    }
    if Hits(qs, ps, p, len) {
      var j :| 0 <= j < |qs| && !NearAny(qs[j], ps, len) && len(Sub(qs[j], p)) < HitRadius;
      assert roster[j] in alive by {
        SurvivorsKeep(roster, qs, ps, len);
      }
      var i :| 0 <= i < |alive| && alive[i] == roster[j];
      assert qs[j] == alive[i].position;
      assert hits != [] by {
        NearRocketExactly(alive, p, len);
      }
    }
  }

  /** The data table after the direct-hit pass: each rocket that struck an enemy is flagged. */
  function FlagHits(m: map<int, RocketData>, rs: seq<Rocket>, qs: seq<Vec3>, len: Vec3 -> real)
    : (r: map<int, RocketData>)
    requires forall k :: 0 <= k < |rs| ==> rs[k].userIndex in m
    ensures r.Keys == m.Keys
    ensures forall id :: id in m ==> r[id].isRocket == m[id].isRocket
    decreases |rs|
  {
    if rs == [] then m
    else
      var init := rs[..|rs| - 1];
      var r := rs[|rs| - 1];
      var prev := FlagHits(m, init, qs, len);
      if Hits(qs, RocketPositions(init), r.position, len) then Flag(prev, r.userIndex) else prev
  }

  /**
   * A rocket's entry ends up flagged exactly when it was flagged before or
   * the rocket found an enemy not already killed by an earlier rocket.
   */
  lemma {:induction false} FlagHitsExactly(m: map<int, RocketData>, rs: seq<Rocket>, qs: seq<Vec3>,
                                           len: Vec3 -> real)
    requires forall k :: 0 <= k < |rs| ==> rs[k].userIndex in m
    ensures forall id :: id in m ==>
      (FlagHits(m, rs, qs, len)[id].toRemove <==>
       m[id].toRemove ||
       exists k :: 0 <= k < |rs| && rs[k].userIndex == id && Hits(qs, RocketPositions(rs[..k]), rs[k].position, len))
    decreases |rs|
  {
    if rs != [] {
      var init := rs[..|rs| - 1];
      FlagHitsExactly(m, init, qs, len);
      assert forall k :: 0 <= k < |init| ==> init[k] == rs[k] && init[..k] == rs[..k];
    }
  }

  /** One more rocket in the direct-hit pass: the positions and the flags each take one step. */
  lemma DirectHitStep(m: map<int, RocketData>, rs: seq<Rocket>, i: int, qs: seq<Vec3>, len: Vec3 -> real)
    requires 0 <= i < |rs|
    requires forall k :: 0 <= k < |rs| ==> rs[k].userIndex in m
    ensures RocketPositions(rs[..i + 1]) == RocketPositions(rs[..i]) + [rs[i].position]
    ensures FlagHits(m, rs[..i + 1], qs, len) ==
      if Hits(qs, RocketPositions(rs[..i]), rs[i].position, len)
      then Flag(FlagHits(m, rs[..i], qs, len), rs[i].userIndex)
      else FlagHits(m, rs[..i], qs, len)
  {
    assert rs[..i + 1][..i] == rs[..i];
  }

  // --------------------------------------------------------------- cleanup

  /** A rocket is removed if its body fell below the depth limit or its table entry is flagged. */
  predicate Doomed(r: Rocket, m: map<int, RocketData>, bodyOrigin: int -> Vec3)
  {
    bodyOrigin(r.userIndex).y < CleanupDepth || (r.userIndex in m && m[r.userIndex].toRemove)
  }

  /** The rockets that survive cleanup, in their order. */
  function Kept(rs: seq<Rocket>, m: map<int, RocketData>, bodyOrigin: int -> Vec3): seq<Rocket>
    decreases |rs|
  {
    if rs == [] then []
    else (if Doomed(rs[0], m, bodyOrigin) then [] else [rs[0]]) + Kept(rs[1..], m, bodyOrigin)
  }

  /** Cleanup keeps exactly the rockets that are not doomed, and keeps user indices ascending. */
  lemma {:induction false} KeptExactly(rs: seq<Rocket>, m: map<int, RocketData>, bodyOrigin: int -> Vec3)
    ensures forall k :: 0 <= k < |Kept(rs, m, bodyOrigin)| ==>
      Kept(rs, m, bodyOrigin)[k] in rs && !Doomed(Kept(rs, m, bodyOrigin)[k], m, bodyOrigin)
    ensures forall k :: 0 <= k < |rs| && !Doomed(rs[k], m, bodyOrigin) ==> rs[k] in Kept(rs, m, bodyOrigin)
    ensures Ascending(rs) ==> Ascending(Kept(rs, m, bodyOrigin))
    decreases |rs|
  {
    if rs != [] {
      KeptExactly(rs[1..], m, bodyOrigin);
      assert forall k :: 1 <= k < |rs| ==> rs[k] == rs[1..][k - 1];
      var rest := Kept(rs[1..], m, bodyOrigin);
      if !Doomed(rs[0], m, bodyOrigin) {
        assert forall k :: 1 <= k < |[rs[0]] + rest| ==> ([rs[0]] + rest)[k] == rest[k - 1];
      }
    }
  }

  /** The user indices of the rockets cleanup removes. */
  function DoomedIds(rs: seq<Rocket>, m: map<int, RocketData>, bodyOrigin: int -> Vec3): set<int>
    decreases |rs|
  {
    if rs == [] then {}
    else (if Doomed(rs[0], m, bodyOrigin) then {rs[0].userIndex} else {}) + DoomedIds(rs[1..], m, bodyOrigin)
  }

  /** The deleted ids are exactly those of the doomed rockets. */
  lemma {:induction false} DoomedIdsExactly(rs: seq<Rocket>, m: map<int, RocketData>, bodyOrigin: int -> Vec3)
    ensures forall id :: id in DoomedIds(rs, m, bodyOrigin) ==>
      exists k :: 0 <= k < |rs| && rs[k].userIndex == id && Doomed(rs[k], m, bodyOrigin)
    ensures forall k :: 0 <= k < |rs| && Doomed(rs[k], m, bodyOrigin) ==> rs[k].userIndex in DoomedIds(rs, m, bodyOrigin)
    decreases |rs|
  {
    if rs != [] {
      DoomedIdsExactly(rs[1..], m, bodyOrigin);
      assert forall k :: 1 <= k < |rs| ==> rs[k] == rs[1..][k - 1];
      forall id | id in DoomedIds(rs, m, bodyOrigin)
        ensures exists k :: 0 <= k < |rs| && rs[k].userIndex == id && Doomed(rs[k], m, bodyOrigin)
      {
        if id in DoomedIds(rs[1..], m, bodyOrigin) {
          var k :| 0 <= k < |rs[1..]| && rs[1..][k].userIndex == id && Doomed(rs[1..][k], m, bodyOrigin);
          assert rs[k + 1] == rs[1..][k];
        }
      }
    }
  }

  /** User indices strictly increase along the list. */
  predicate Ascending(rs: seq<Rocket>)
  {
    forall i, j :: 0 <= i < j < |rs| ==> rs[i].userIndex < rs[j].userIndex
  }

  /**
   * The manager's bookkeeping: user indices are handed out from 1 upwards,
   * the live rockets are in launch order and each has its table entry, and
   * every table entry is a rocket record under an index already handed out.
   */
  predicate Consistent(rs: seq<Rocket>, m: map<int, RocketData>, last: int)
  {
    && last >= 0
    && Ascending(rs)
    && (forall k :: 0 <= k < |rs| ==> 1 <= rs[k].userIndex <= last && rs[k].userIndex in m)
    && (forall id :: id in m ==> 1 <= id <= last && m[id].isRocket)
  }

  /** The direct-hit pass keeps the bookkeeping: it moves meshes and sets flags only. */
  lemma DirectPassConsistent(rs: seq<Rocket>, m: map<int, RocketData>, last: int, qs: seq<Vec3>,
                             bodyOrigin: int -> Vec3, len: Vec3 -> real)
    requires Consistent(rs, m, last)
    ensures Consistent(Moved(rs, bodyOrigin), FlagHits(m, rs, qs, len), last)
  {
  }

  // ---------------------------------------------------------------- manager

  class RocketManager {
    const input: InputHandler
    const player: Player
    const enemyManager: EnemyManager

    var rockets: seq<Rocket>
    /** `rigidBodyDataMap`: user index to rocket record. */
    var rigidBodyData: map<int, RocketData>
    var lastUserIndex: int

    /**
     * Ids are handed out from 1 upwards and ascend along the list; every live
     * rocket has its table entry and every entry is a rocket record.
     */
    predicate Valid()
      reads this`rockets, this`rigidBodyData, this`lastUserIndex
    {
      Consistent(rockets, rigidBodyData, lastUserIndex)
    }

    constructor (input0: InputHandler, player0: Player, enemyManager0: EnemyManager)
      ensures Valid() && rockets == [] && rigidBodyData == map[] && lastUserIndex == 0
      ensures input == input0 && player == player0 && enemyManager == enemyManager0
    {
      input := input0;
      player := player0;
      enemyManager := enemyManager0;
      rockets := [];
      rigidBodyData := map[];
      lastUserIndex := 0;
    }

    /**
     * One tick: fire if the shoot action is held (and release it), then the
     * direct-hit pass, the contact pass and the cleanup, in that order.
     */
    method Update(bodyOrigin: int -> Vec3, manifolds: seq<Manifold>, look: Vec3, len: Vec3 -> real)
      returns (impulses: seq<Vec3>, fired: bool, ghost roster: seq<Enemy>, ghost qs: seq<Vec3>,
               ghost shot: seq<Rocket>, ghost hitFlags: map<int, RocketData>, ghost flagged: map<int, RocketData>)
      requires Valid() && enemyManager.Valid()
      requires forall k :: 0 <= k < |manifolds| ==> ManifoldBlastDefined(manifolds[k], player.position, len)
      modifies this`rockets, this`rigidBodyData, this`lastUserIndex, input
      modifies enemyManager`enemies, enemyManager`enemiesKilled, enemyManager.enemies.elems`inScene
      ensures Valid() && enemyManager.Valid()
      ensures roster == old(enemyManager.enemies.elems) && qs == old(EnemyPositions(enemyManager.enemies.elems))
      ensures fired == old(input.actions.shootRocket)
      ensures input.actions == if fired then old(input.actions).Set(Action.ShootRocket, false) else old(input.actions)
      ensures lastUserIndex == old(lastUserIndex) + if fired then 1 else 0
      ensures shot == old(rockets) + if fired then [Launch(lastUserIndex, player.position, look, len)] else []
      ensures hitFlags == FlagHits(
        if fired then old(rigidBodyData)[lastUserIndex := RocketData(true, false)] else old(rigidBodyData), shot, qs, len)
      ensures enemyManager.enemies.elems == Survivors(roster, qs, RocketPositions(shot), len)
      ensures enemyManager.enemiesKilled + |enemyManager.enemies.elems| == old(enemyManager.enemiesKilled) + |roster|
      ensures (flagged, impulses) == Scan(hitFlags, manifolds, player.position, len)
      ensures rockets == Kept(Moved(shot, bodyOrigin), flagged, bodyOrigin)
      ensures rigidBodyData == flagged - DoomedIds(Moved(shot, bodyOrigin), flagged, bodyOrigin)
    {
      roster := enemyManager.enemies.elems;
      qs := EnemyPositions(roster);
      fired := Fire(look, len);
      assert enemyManager.enemies.elems == roster && EnemyPositions(roster) == qs;
      shot := rockets;
      impulses, hitFlags, flagged := Advance(bodyOrigin, manifolds, len);
    }

    /** The passes of a tick after firing: direct hits, contacts, cleanup. */
    method Advance(bodyOrigin: int -> Vec3, manifolds: seq<Manifold>, len: Vec3 -> real)
      returns (impulses: seq<Vec3>, ghost hitFlags: map<int, RocketData>, ghost flagged: map<int, RocketData>)
      requires Valid() && enemyManager.Valid()
      requires forall k :: 0 <= k < |manifolds| ==> ManifoldBlastDefined(manifolds[k], player.position, len)
      modifies this`rockets, this`rigidBodyData
      modifies enemyManager`enemies, enemyManager`enemiesKilled, enemyManager.enemies.elems`inScene
      ensures Valid() && enemyManager.Valid()
      ensures hitFlags == old(FlagHits(rigidBodyData, rockets, EnemyPositions(enemyManager.enemies.elems), len))
      ensures enemyManager.enemies.elems ==
              old(Survivors(enemyManager.enemies.elems, EnemyPositions(enemyManager.enemies.elems), RocketPositions(rockets), len))
      ensures enemyManager.enemiesKilled + |enemyManager.enemies.elems| ==
              old(enemyManager.enemiesKilled + |enemyManager.enemies.elems|)
      ensures (flagged, impulses) == Scan(hitFlags, manifolds, player.position, len)
      ensures rockets == Kept(Moved(old(rockets), bodyOrigin), flagged, bodyOrigin)
      ensures rigidBodyData == flagged - DoomedIds(Moved(old(rockets), bodyOrigin), flagged, bodyOrigin)
    {
      UpdateRockets(bodyOrigin, len);
      hitFlags := rigidBodyData;
      impulses := CheckCollisions(manifolds, len);
      flagged := rigidBodyData;
      CleanupRockets(bodyOrigin);
    }

    /** The firing step of a tick: a held shoot action fires one rocket and is released. */
    method Fire(look: Vec3, len: Vec3 -> real) returns (fired: bool)
      requires Valid()
      modifies this`rockets, this`rigidBodyData, this`lastUserIndex, input
      ensures Valid()
      ensures fired == old(input.actions.shootRocket)
      ensures input.actions == if fired then old(input.actions).Set(Action.ShootRocket, false) else old(input.actions)
      ensures lastUserIndex == old(lastUserIndex) + if fired then 1 else 0
      ensures rockets == old(rockets) + if fired then [Launch(lastUserIndex, player.position, look, len)] else []
      ensures rigidBodyData == if fired then old(rigidBodyData)[lastUserIndex := RocketData(true, false)] else old(rigidBodyData)
    {
      NameRoundTrip(Action.ShootRocket);
      fired := input.IsKeyDown("shootRocket");
      if fired {
        ShootRocket(look, len);
        input.ClearShoot();
      }
    }

    /** Fires one rocket along the camera direction under the next user index, with a fresh table entry. */
    method ShootRocket(look: Vec3, len: Vec3 -> real)
      requires Valid()
      modifies this`rockets, this`rigidBodyData, this`lastUserIndex
      ensures Valid()
      ensures lastUserIndex == old(lastUserIndex) + 1 && lastUserIndex !in old(rigidBodyData)
      ensures rockets == old(rockets) + [Launch(lastUserIndex, player.position, look, len)]
      ensures rigidBodyData == old(rigidBodyData)[lastUserIndex := RocketData(true, false)]
    {
      var rocket := Launch(lastUserIndex + 1, player.position, look, len);
      rockets := rockets + [rocket];
      lastUserIndex := lastUserIndex + 1;
      rigidBodyData := rigidBodyData[lastUserIndex := RocketData(true, false)];
    }

    /**
     * The direct-hit pass: each rocket in turn kills every enemy still in the
     * roster within hit range of its mesh, and is flagged if it killed any;
     * then its mesh follows its body.
     */
    method UpdateRockets(bodyOrigin: int -> Vec3, len: Vec3 -> real)
      requires Valid() && enemyManager.Valid()
      modifies this`rockets, this`rigidBodyData
      modifies enemyManager`enemies, enemyManager`enemiesKilled, enemyManager.enemies.elems`inScene
      ensures Valid() && enemyManager.Valid() && lastUserIndex == old(lastUserIndex)
      ensures rockets == Moved(old(rockets), bodyOrigin)
      ensures rigidBodyData == old(FlagHits(rigidBodyData, rockets, EnemyPositions(enemyManager.enemies.elems), len))
      ensures enemyManager.enemies.elems ==
              old(Survivors(enemyManager.enemies.elems, EnemyPositions(enemyManager.enemies.elems), RocketPositions(rockets), len))
      ensures enemyManager.enemiesKilled + |enemyManager.enemies.elems| ==
              old(enemyManager.enemiesKilled + |enemyManager.enemies.elems|)
      ensures forall e :: e in old(enemyManager.enemies.elems) && e !in enemyManager.enemies.elems ==> !e.inScene
    {
      ghost var orig := enemyManager.enemies.elems;
      ghost var qs := EnemyPositions(orig);
      ghost var rs0 := rockets;
      ghost var m0 := rigidBodyData;
      ghost var total := enemyManager.enemiesKilled + |orig|;
      DirectPassConsistent(rockets, rigidBodyData, lastUserIndex, qs, bodyOrigin, len);
      PassedNone(rs0, m0, orig, qs, len);
      RunDirectPass(rs0, m0, orig, qs, total, bodyOrigin, len);
      PassedAll(rs0, m0, orig, qs, total, len);
    }

    /** Before the direct-hit pass, nothing has been flagged or killed yet. */
    lemma PassedNone(rs0: seq<Rocket>, m0: map<int, RocketData>, orig: seq<Enemy>, qs: seq<Vec3>, len: Vec3 -> real)
      requires Valid() && enemyManager.Valid() && rockets == rs0 && rigidBodyData == m0
      requires orig == enemyManager.enemies.elems && qs == EnemyPositions(orig)
      ensures PassedUpTo(0, rs0, m0, orig, qs, enemyManager.enemiesKilled + |orig|, len)
    {
      SurvivorsNone(orig, qs, len);
      assert rs0[..0] == [];
    }

    /** After the direct-hit pass over all of `rs0`, the state is the one the pass promises. */
    lemma PassedAll(rs0: seq<Rocket>, m0: map<int, RocketData>, orig: seq<Enemy>, qs: seq<Vec3>, total: int,
                    len: Vec3 -> real)
      requires PassedUpTo(|rs0|, rs0, m0, orig, qs, total, len)
      ensures rigidBodyData == FlagHits(m0, rs0, qs, len) && enemyManager.Valid()
      ensures enemyManager.enemies.elems == Survivors(orig, qs, RocketPositions(rs0), len)
      ensures enemyManager.enemiesKilled + |enemyManager.enemies.elems| == total
      ensures forall e :: e in orig && e !in enemyManager.enemies.elems ==> !e.inScene
    {
      assert rs0[..|rs0|] == rs0;
      forall e | e in orig && e !in enemyManager.enemies.elems
        ensures !e.inScene
      {
        var k :| 0 <= k < |orig| && orig[k] == e;
      }
    }

    /**
     * The state of the direct-hit pass after its first `i` rockets, from the
     * table `m0` and the roster `orig` with positions `qs`: those rockets have
     * been flagged if they hit, the roster holds the survivors of their
     * positions, every kill is counted and every killed enemy has left the
     * scene.
     */
    ghost predicate PassedUpTo(i: int, rs0: seq<Rocket>, m0: map<int, RocketData>, orig: seq<Enemy>,
                               qs: seq<Vec3>, total: int, len: Vec3 -> real)
      reads this`rigidBodyData, enemyManager`enemies, enemyManager`enemiesKilled
      reads enemyManager.enemies`elems, enemyManager.enemies.elems`inScene, orig`position, orig`inScene
    {
      && 0 <= i <= |rs0| && (forall k :: 0 <= k < |rs0| ==> rs0[k].userIndex in m0)
      && rigidBodyData == FlagHits(m0, rs0[..i], qs, len)
      && |qs| == |orig| && (forall k :: 0 <= k < |orig| ==> qs[k] == orig[k].position) && Distinct(orig)
      && enemyManager.Valid() && enemyManager.enemies.elems == Survivors(orig, qs, RocketPositions(rs0[..i]), len)
      && enemyManager.enemiesKilled + |enemyManager.enemies.elems| == total
      && (forall k :: 0 <= k < |orig| && orig[k] !in enemyManager.enemies.elems ==> !orig[k].inScene)
    }

    /** The loop of the direct-hit pass, over the rockets `rs0` it starts from. */
    method RunDirectPass(ghost rs0: seq<Rocket>, ghost m0: map<int, RocketData>, ghost orig: seq<Enemy>,
                         ghost qs: seq<Vec3>, ghost total: int, bodyOrigin: int -> Vec3, len: Vec3 -> real)
      requires rockets == rs0 && PassedUpTo(0, rs0, m0, orig, qs, total, len)
      modifies this`rockets, this`rigidBodyData, enemyManager`enemies, enemyManager`enemiesKilled, orig`inScene
      ensures rockets == Moved(rs0, bodyOrigin) && PassedUpTo(|rs0|, rs0, m0, orig, qs, total, len)
    {
      var i := 0;
      MovedStep(rs0, 0, bodyOrigin);
      while i < |rockets|
        invariant 0 <= i <= |rs0| && rockets == Moved(rs0[..i], bodyOrigin) + rs0[i..]
        invariant PassedUpTo(i, rs0, m0, orig, qs, total, len)
      {
        MovedStep(rs0, i, bodyOrigin);
        var rocket := rockets[i];
        // the hit test below uses the mesh position read before the move
        rockets := rockets[i := MoveTo(rocket, bodyOrigin)];
        Strike(i, rs0, m0, orig, qs, total, rocket, len);
        i := i + 1;
      }
      MovedStep(rs0, i, bodyOrigin);
    }

    /** One step of the direct-hit pass: the rocket `rs0[i]` kills what it hits and is flagged if it hit. */
    method Strike(i: int, ghost rs0: seq<Rocket>, ghost m0: map<int, RocketData>, ghost orig: seq<Enemy>,
                  ghost qs: seq<Vec3>, ghost total: int, rocket: Rocket, len: Vec3 -> real)
      requires 0 <= i < |rs0| && rocket == rs0[i] && PassedUpTo(i, rs0, m0, orig, qs, total, len)
      modifies this`rigidBodyData, enemyManager`enemies, enemyManager`enemiesKilled, orig`inScene
      ensures PassedUpTo(i + 1, rs0, m0, orig, qs, total, len)
    {
      DirectHitStep(m0, rs0, i, qs, len);
      assert qs == EnemyPositions(orig);
      var hit := KillNear(rocket.position, RocketPositions(rs0[..i]), orig, qs, total, len);
      if hit {
        rigidBodyData := Flag(rigidBodyData, rocket.userIndex);
      }
    }

    /**
     * The enemy side of one rocket's direct hit: every enemy still in the
     * roster within hit range of `p` is killed; `hit` says whether there was one.
     */
    method KillNear(p: Vec3, ghost ps: seq<Vec3>, ghost orig: seq<Enemy>, ghost qs: seq<Vec3>, ghost total: int,
                    len: Vec3 -> real)
      returns (hit: bool)
      requires qs == EnemyPositions(orig) && Distinct(orig)
      requires enemyManager.Valid() && enemyManager.enemies.elems == Survivors(orig, qs, ps, len)
      requires enemyManager.enemiesKilled + |enemyManager.enemies.elems| == total
      requires forall k :: 0 <= k < |orig| && orig[k] !in enemyManager.enemies.elems ==> !orig[k].inScene
      modifies enemyManager`enemies, enemyManager`enemiesKilled, orig`inScene
      ensures hit <==> Hits(qs, ps, p, len)
      ensures enemyManager.Valid() && enemyManager.enemies.elems == Survivors(orig, qs, ps + [p], len)
      ensures enemyManager.enemiesKilled + |enemyManager.enemies.elems| == total
      ensures forall k :: 0 <= k < |orig| && orig[k] !in enemyManager.enemies.elems ==> !orig[k].inScene
    {
      ghost var roster := enemyManager.enemies.elems;
      var hits := enemyManager.CheckCollisionsWithRocket(p, len);
      KillFacts(orig, qs, ps, p, len);
      hit := |hits| > 0;
      RemoveHits(hits, roster, orig);
    }

    /** Kills every enemy of `hits`, all of them in the roster, in order. */
    method RemoveHits(hits: seq<Enemy>, ghost roster: seq<Enemy>, ghost orig: seq<Enemy>)
      requires enemyManager.Valid() && enemyManager.enemies.elems == roster
      requires Distinct(hits) && forall k :: 0 <= k < |hits| ==> hits[k] in roster
      requires forall k :: 0 <= k < |roster| ==> roster[k] in orig
      requires forall k :: 0 <= k < |orig| && orig[k] !in roster ==> !orig[k].inScene
      modifies enemyManager`enemies, enemyManager`enemiesKilled, orig`inScene
      ensures enemyManager.Valid() && enemyManager.enemies.elems == Drop(roster, hits)
      ensures enemyManager.enemiesKilled + |enemyManager.enemies.elems| ==
              old(enemyManager.enemiesKilled) + |roster|
      ensures forall k :: 0 <= k < |orig| && orig[k] !in enemyManager.enemies.elems ==> !orig[k].inScene
    {
      DropNothing(roster);
      for j := 0 to |hits|
        invariant enemyManager.Valid() && enemyManager.enemies.elems == Drop(roster, hits[..j])
        invariant enemyManager.enemiesKilled + |enemyManager.enemies.elems| ==
                  old(enemyManager.enemiesKilled) + |roster|
        invariant forall k :: 0 <= k < |orig| && orig[k] !in enemyManager.enemies.elems ==> !orig[k].inScene
      {
        var enemy := hits[j];
        ghost var before := enemyManager.enemies.elems;
        KillStep(roster, hits, j);
        WithoutLength(before, enemy);
        assert enemy in orig;
        enemyManager.RemoveEnemy(enemy);
        forall k | 0 <= k < |orig| && orig[k] !in enemyManager.enemies.elems
          ensures !orig[k].inScene
        {
          if orig[k] != enemy && orig[k] in before {
            var i :| 0 <= i < |before| && before[i] == orig[k];
            WithoutExactly(before, enemy);
            assert false;
          }
        }
      }
      assert hits[..|hits|] == hits;
    }

    /**
     * The contact pass: in each manifold involving a rocket, the first
     * penetrating contact flags every rocket body of the pair and sets off one
     * blast per rocket body at that point.
     */
    method CheckCollisions(manifolds: seq<Manifold>, len: Vec3 -> real) returns (impulses: seq<Vec3>)
      requires forall k :: 0 <= k < |manifolds| ==> ManifoldBlastDefined(manifolds[k], player.position, len)
      modifies this`rigidBodyData
      ensures (rigidBodyData, impulses) == Scan(old(rigidBodyData), manifolds, player.position, len)
    {
      ghost var m0 := rigidBodyData;
      var playerPos := player.position;
      impulses := [];
      for i := 0 to |manifolds|
        invariant (rigidBodyData, impulses) == Scan(m0, manifolds[..i], playerPos, len)
      {
        assert manifolds[..i + 1][..i] == manifolds[..i];
        var blasts := CheckManifold(manifolds[i], playerPos, len);
        impulses := impulses + blasts;
      }
      assert manifolds[..|manifolds|] == manifolds;
    }

    /** The contact pass for one manifold. */
    method CheckManifold(mf: Manifold, playerPos: Vec3, len: Vec3 -> real) returns (blasts: seq<Vec3>)
      requires ManifoldBlastDefined(mf, playerPos, len)
      modifies this`rigidBodyData
      ensures (rigidBodyData, blasts) == ManifoldEffect(old(rigidBodyData), mf, playerPos, len)
    {
      blasts := [];
      var isRocket0 := mf.index0 in rigidBodyData && rigidBodyData[mf.index0].isRocket;
      var isRocket1 := mf.index1 in rigidBodyData && rigidBodyData[mf.index1].isRocket;
      if !isRocket0 && !isRocket1 {
        return;
      }
      var j := 0;
      while j < |mf.contacts|
        invariant 0 <= j <= |mf.contacts|
        invariant forall k :: 0 <= k < j ==> mf.contacts[k].distance >= 0.0
        invariant rigidBodyData == old(rigidBodyData) && blasts == []
      {
        if mf.contacts[j].distance < 0.0 {
          var point := mf.contacts[j].pointOnA;
          assert FirstPenetration(mf.contacts) == Some(j);
          if isRocket0 {
            rigidBodyData := Flag(rigidBodyData, mf.index0);
            blasts := blasts + BlastImpulses(point, playerPos, len);
          }
          if isRocket1 {
            rigidBodyData := Flag(rigidBodyData, mf.index1);
            blasts := blasts + BlastImpulses(point, playerPos, len);
          }
          assert blasts == (if isRocket0 then BlastImpulses(point, playerPos, len) else []) +
                           (if isRocket1 then BlastImpulses(point, playerPos, len) else []);
          return;
        }
        j := j + 1;
      }
    }

    /**
     * Removes, from the back of the list, every rocket whose body fell below
     * the depth limit or whose entry is flagged, deleting its entry.
     */
    method CleanupRockets(bodyOrigin: int -> Vec3)
      requires Valid()
      modifies this`rockets, this`rigidBodyData
      ensures Valid()
      ensures rockets == Kept(old(rockets), old(rigidBodyData), bodyOrigin)
      ensures rigidBodyData == old(rigidBodyData) - DoomedIds(old(rockets), old(rigidBodyData), bodyOrigin)
    {
      ghost var rs0 := rockets;
      ghost var m0 := rigidBodyData;
      var i := |rockets|;
      while i > 0
        invariant 0 <= i <= |rs0|
        invariant rockets == rs0[..i] + Kept(rs0[i..], m0, bodyOrigin)
        invariant rigidBodyData == m0 - DoomedIds(rs0[i..], m0, bodyOrigin)
      {
        i := i - 1;
        KeptStep(rs0, i, m0, bodyOrigin);
        var rocket := rockets[i];
        assert rocket == rs0[i];
        var data := if rocket.userIndex in rigidBodyData then Some(rigidBodyData[rocket.userIndex]) else None;
        var fallen := bodyOrigin(rocket.userIndex).y < CleanupDepth;
        if fallen || (data.Some? && data.value.toRemove) {
          assert Doomed(rocket, m0, bodyOrigin);
          assert rockets[..i] == rs0[..i];
          assert rockets[i + 1..] == Kept(rs0[i + 1..], m0, bodyOrigin);
          rockets := rockets[..i] + rockets[i + 1..];
          rigidBodyData := rigidBodyData - {rocket.userIndex};
        } else {
          assert !Doomed(rocket, m0, bodyOrigin);
          assert rs0[..i + 1] == rs0[..i] + [rocket];
        }
      }
      CleanupConsistent(rs0, m0, lastUserIndex, bodyOrigin);
    }
  }

  /**
   * What one rocket's hit query returns against the survivors of the
   * earlier rockets: distinct roster members, found exactly when `Hits`
   * holds.
   */
  lemma KillFacts(orig: seq<Enemy>, qs: seq<Vec3>, ps: seq<Vec3>, p: Vec3, len: Vec3 -> real)
    requires qs == EnemyPositions(orig) && Distinct(orig)
    ensures var roster := Survivors(orig, qs, ps, len);
      var hits := NearRocket(roster, p, len);
      && (hits != [] <==> Hits(qs, ps, p, len))
      && (Distinct(roster) ==> Distinct(hits))
      && (forall k :: 0 <= k < |hits| ==> hits[k] in roster)
      && (forall k :: 0 <= k < |roster| ==> roster[k] in orig)
      && Drop(roster, hits) == Survivors(orig, qs, ps + [p], len)
  {
    var roster := Survivors(orig, qs, ps, len);
    SurvivorsMembers(orig, qs, ps, len);
    HitsExactly(orig, ps, p, len);
    NearRocketExactly(roster, p, len);
    KillDrops(orig, qs, ps, p, len);
  }

  /** Removing what one rocket's hit query returns leaves the survivors of that rocket too. */
  lemma KillDrops(orig: seq<Enemy>, qs: seq<Vec3>, ps: seq<Vec3>, p: Vec3, len: Vec3 -> real)
    requires qs == EnemyPositions(orig)
    ensures Drop(Survivors(orig, qs, ps, len), NearRocket(Survivors(orig, qs, ps, len), p, len)) ==
            Survivors(orig, qs, ps + [p], len)
  {
    var roster := Survivors(orig, qs, ps, len);
    var hits := NearRocket(roster, p, len);
    SurvivorsKeep(orig, qs, ps, len);
    NearRocketExactly(roster, p, len);
    forall k | 0 <= k < |orig| && !NearAny(qs[k], ps, len)
      ensures orig[k] in hits <==> len(Sub(qs[k], p)) < HitRadius
    {
      var i :| 0 <= i < |roster| && roster[i] == orig[k];
      if orig[k] in hits {
        var j :| 0 <= j < |hits| && hits[j] == orig[k];
      }
    }
    SurvivorsStep(orig, qs, ps, p, hits, len);
  }

  /** The `j`-th hit is still in the roster after the hits before it are killed, and killing it drops one more. */
  lemma KillStep(roster: seq<Enemy>, hits: seq<Enemy>, j: int)
    requires 0 <= j < |hits| && Distinct(hits) && hits[j] in roster
    ensures hits[j] in Drop(roster, hits[..j])
    ensures Without(Drop(roster, hits[..j]), hits[j]) == Drop(roster, hits[..j + 1])
  {
    assert hits[j] !in hits[..j];
    DropKeeps(roster, hits[..j], hits[j]);
    DropStep(roster, hits[..j], hits[j]);
    assert hits[..j + 1] == hits[..j] + [hits[j]];
  }

  /**
   * Cleanup of the rocket at `i`, given the later ones: it is kept or its id
   * deleted according to its own record, which no later deletion touched.
   */
  lemma KeptStep(rs: seq<Rocket>, i: int, m: map<int, RocketData>, bodyOrigin: int -> Vec3)
    requires 0 <= i < |rs| && Ascending(rs)
    ensures Kept(rs[i..], m, bodyOrigin) ==
      (if Doomed(rs[i], m, bodyOrigin) then [] else [rs[i]]) + Kept(rs[i + 1..], m, bodyOrigin)
    ensures DoomedIds(rs[i..], m, bodyOrigin) ==
      (if Doomed(rs[i], m, bodyOrigin) then {rs[i].userIndex} else {}) + DoomedIds(rs[i + 1..], m, bodyOrigin)
    ensures rs[i].userIndex !in DoomedIds(rs[i + 1..], m, bodyOrigin)
  {
    assert rs[i..][0] == rs[i] && rs[i..][1..] == rs[i + 1..];
    var later := rs[i + 1..];
    assert forall k :: 0 <= k < |later| ==> later[k] == rs[i + 1 + k];
    DoomedIdsExactly(later, m, bodyOrigin);
  }

  lemma {:induction false} DropNothing(s: seq<Enemy>)
    ensures Drop(s, []) == s
    decreases |s|
  {
    if s != [] {
      DropNothing(s[1..]);
      assert s == [s[0]] + s[1..];
    }
  }

  /** No surviving rocket loses its table entry: user indices are unique. */
  lemma CleanupKeepsEntries(rs: seq<Rocket>, m: map<int, RocketData>, bodyOrigin: int -> Vec3)
    requires Ascending(rs)
    ensures forall k :: 0 <= k < |Kept(rs, m, bodyOrigin)| ==>
      Kept(rs, m, bodyOrigin)[k].userIndex !in DoomedIds(rs, m, bodyOrigin)
  {
    KeptExactly(rs, m, bodyOrigin);
    DoomedIdsExactly(rs, m, bodyOrigin);
  }

  /** The cleanup keeps the bookkeeping: it drops rockets together with their entries. */
  lemma CleanupConsistent(rs: seq<Rocket>, m: map<int, RocketData>, last: int, bodyOrigin: int -> Vec3)
    requires Consistent(rs, m, last)
    ensures Consistent(Kept(rs, m, bodyOrigin), m - DoomedIds(rs, m, bodyOrigin), last)
  {
    KeptExactly(rs, m, bodyOrigin);
    CleanupKeepsEntries(rs, m, bodyOrigin);
  }
}
