/**
 * A collectable item (Item): it bobs in place until the player comes within
 * its bounding radius, then it is collected and leaves the scene.
 */
module Items {
  import opened Geometry

  /** Item.boundingRadius. */
  const BoundingRadius := 3.0

  /** The pickup test: the player is closer to the item than its bounding radius. */
  predicate InReach(playerPosition: Vec3, objectPosition: Vec3, len: Vec3 -> real)
  {
    len(Sub(playerPosition, objectPosition)) < BoundingRadius
  }

  class Item {
    /** The height the item bobs around (the spawn position's y). */
    const startY: real
    /** object3D.position. */
    var objectPosition: Vec3
    var isCollected: bool
    /** Whether object3D is currently part of the scene. */
    var inScene: bool
    /** How many times `scene.remove(object3D)` has been called. */
    ghost var sceneRemovals: nat

    constructor (position: Vec3)
      ensures objectPosition == position && startY == position.y
      ensures !isCollected && inScene && sceneRemovals == 0
    {
      startY := position.y;
      objectPosition := position;
      isCollected := false;
      inScene := true;
      sceneRemovals := 0;
    }

    /**
     * One frame: `bob` is this frame's offset sin(time) * moveAmplitude,
     * which the item adds to its rest height before testing for pickup.
     */
    method Update(playerPosition: Vec3, bob: real, len: Vec3 -> real)
      modifies this
      ensures old(isCollected) ==> unchanged(this)
      ensures !old(isCollected) ==>
        && objectPosition == old(objectPosition).(y := startY + bob)
        && (isCollected <==> InReach(playerPosition, objectPosition, len))
        && (isCollected ==> !inScene && sceneRemovals == old(sceneRemovals) + 1)
        && (!isCollected ==> inScene == old(inScene) && sceneRemovals == old(sceneRemovals))
    {
      if isCollected {
        return;
      }
      objectPosition := objectPosition.(y := startY + bob);
      var dist := len(Sub(playerPosition, objectPosition));
      if dist < BoundingRadius {
        OnPickup();
      }
    }

    method OnPickup()
      modifies this
      ensures isCollected && !inScene && sceneRemovals == old(sceneRemovals) + 1
      ensures objectPosition == old(objectPosition)
    {
      isCollected := true;
      inScene := false;
      sceneRemovals := sceneRemovals + 1;
    }

    /** Removes the object from the scene unless a pickup already did. */
    method Dispose()
      modifies this
      ensures inScene == (old(inScene) && old(isCollected))
      ensures sceneRemovals == old(sceneRemovals) + (if old(isCollected) then 0 else 1)
      ensures isCollected == old(isCollected) && objectPosition == old(objectPosition)
    {
      if !isCollected {
        inScene := false;
        sceneRemovals := sceneRemovals + 1;
      }
    }
  }
}
