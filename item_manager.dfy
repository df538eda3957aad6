/**
 * The item roster (ItemManager): once the item model has loaded it places
 * one item per configured position, updates every item each frame and drops
 * the collected ones.
 */
module ItemManagement {
  import opened Geometry
  import opened Items
  import opened Collections

  /** The items of `s` that are not collected, in their order in `s`. */
  function Uncollected(s: seq<Item>): seq<Item>
    reads s`isCollected
    decreases |s|
  {
    if s == [] then []
    else if s[0].isCollected then Uncollected(s[1..])
    else [s[0]] + Uncollected(s[1..])
  }

  /**
   * The filter keeps exactly the uncollected items and keeps no object
   * twice when the roster had none twice.
   */
  lemma {:induction false} UncollectedExactly(s: seq<Item>)
    ensures forall k :: 0 <= k < |Uncollected(s)| ==>
      Uncollected(s)[k] in s && !Uncollected(s)[k].isCollected
    ensures forall k :: 0 <= k < |s| && !s[k].isCollected ==> s[k] in Uncollected(s)
    ensures Distinct(s) ==> Distinct(Uncollected(s))
    decreases |s|
  {
    if s != [] {
      UncollectedExactly(s[1..]);
      var rest := Uncollected(s[1..]);
      assert forall k :: 1 <= k < |s| ==> s[k] == s[1..][k - 1];
      if Distinct(s) {
        assert s[0] !in s[1..];
        assert s[0] !in rest;
      }
    }
  }

  /** Where each item of `s` currently is. */
  function Positions(s: seq<Item>): (r: seq<Vec3>)
    reads s`objectPosition
    ensures |r| == |s| && forall k :: 0 <= k < |s| ==> r[k] == s[k].objectPosition
    decreases |s|
  {
    if s == [] then [] else [s[0].objectPosition] + Positions(s[1..])
  }

  /** An item the frame update has not reached yet: still where it was, live. */
  ghost predicate Untouched(it: Item, start: Vec3)
    reads it
  {
    && it.objectPosition == start
    && !it.isCollected && it.inScene && it.sceneRemovals == 0
  }

  /**
   * How a live item at `start` ends up after `Item.Update` ran on it this
   * frame: moved to its bobbing height, collected exactly when the player is
   * within reach, and then removed from the scene once.
   */
  ghost predicate Stepped(it: Item, start: Vec3, playerPosition: Vec3, bob: real, len: Vec3 -> real)
    reads it
  {
    && it.objectPosition == start.(y := it.startY + bob)
    && (it.isCollected <==> InReach(playerPosition, it.objectPosition, len))
    && (it.isCollected ==> !it.inScene && it.sceneRemovals == 1)
    && (!it.isCollected ==> it.inScene && it.sceneRemovals == 0)
  }

  /** What survives the filter of a consistent roster is still live. */
  lemma UncollectedLive(s: seq<Item>)
    requires Distinct(s)
    requires forall k :: 0 <= k < |s| ==> !s[k].isCollected ==> s[k].inScene && s[k].sceneRemovals == 0
    ensures var r := Uncollected(s);
      && Distinct(r)
      && forall k :: 0 <= k < |r| ==> !r[k].isCollected && r[k].inScene && r[k].sceneRemovals == 0
  {
    UncollectedExactly(s);
  }

  /** Filtering a suffix peels off its first element. */
  lemma UncollectedFront(s: seq<Item>, i: int)
    requires 0 <= i < |s|
    ensures Uncollected(s[i..]) ==
      (if s[i].isCollected then [] else [s[i]]) + Uncollected(s[i + 1..])
  {
    assert s[i..][1..] == s[i + 1..];
  }

  class ItemManager {
    var items: seq<Item>
    var itemPositions: seq<Vec3>
    /** `this.model` has been set by the loader. */
    var modelLoaded: bool
    var loaded: bool

    /** Every listed item is a distinct object, still in the scene and not collected. */
    ghost predicate Valid()
      reads this, items
    {
      && Distinct(items)
      && forall k :: 0 <= k < |items| ==>
           !items[k].isCollected && items[k].inScene && items[k].sceneRemovals == 0
    }

    constructor (positions: seq<Vec3>)
      ensures Valid()
      ensures items == [] && itemPositions == positions && !loaded && !modelLoaded
    {
      items := [];
      itemPositions := positions;
      modelLoaded := false;
      loaded := false;
    }

    method SetItemPositions(positions: seq<Vec3>)
      modifies this`itemPositions
      ensures itemPositions == positions
    {
      itemPositions := positions;
    }

    /** The continuation of the asynchronous model load: keep the model, then spawn. */
    method OnModelLoaded()
      requires Valid()
      modifies this`modelLoaded, this`loaded, this`items
      ensures Valid() && loaded && modelLoaded
      ensures |items| == |old(items)| + |itemPositions|
      ensures items[..|old(items)|] == old(items)
      ensures forall k :: 0 <= k < |itemPositions| ==>
        var it := items[|old(items)| + k];
        fresh(it) && it.objectPosition == itemPositions[k] && it.startY == itemPositions[k].y
    {
      modelLoaded := true;
      loaded := true;
      SpawnItems();
    }

    method SpawnItems()
      requires Valid()
      modifies this`items
      ensures Valid()
      ensures !(loaded && modelLoaded) ==> items == old(items)
      ensures loaded && modelLoaded ==>
        && |items| == |old(items)| + |itemPositions|
        && items[..|old(items)|] == old(items)
        && forall k :: 0 <= k < |itemPositions| ==>
             var it := items[|old(items)| + k];
             fresh(it) && it.objectPosition == itemPositions[k] && it.startY == itemPositions[k].y
    {
      if !loaded || !modelLoaded {
        return;
      }
      var k := 0;
      while k < |itemPositions|
        invariant 0 <= k <= |itemPositions|
        invariant |items| == |old(items)| + k && items[..|old(items)|] == old(items)
        invariant forall j :: 0 <= j < k ==>
          var it := items[|old(items)| + j];
          fresh(it) && it.objectPosition == itemPositions[j] && it.startY == itemPositions[j].y
        invariant Valid()
      {
        var item := new Item(itemPositions[k]);
        items := items + [item];
        k := k + 1;
      }
    }

    /** One iteration of the frame update: the item at `i` is updated and dropped if collected. */
    method UpdateAt(i: int, ghost orig: seq<Item>, ghost starts: seq<Vec3>,
                    playerPosition: Vec3, bob: real, len: Vec3 -> real)
      requires 0 <= i < |orig| == |starts| && Distinct(orig)
      requires items == orig[..i + 1] + Uncollected(orig[i + 1..])
      requires forall k :: 0 <= k <= i ==> Untouched(orig[k], starts[k])
      requires forall k :: i < k < |orig| ==> Stepped(orig[k], starts[k], playerPosition, bob, len)
      modifies this`items, orig[i]
      ensures items == orig[..i] + Uncollected(orig[i..])
      ensures forall k :: 0 <= k < i ==> Untouched(orig[k], starts[k])
      ensures forall k :: i <= k < |orig| ==> Stepped(orig[k], starts[k], playerPosition, bob, len)
    {
      var item := items[i];
      assert item == orig[i];
      ghost var tail := Uncollected(orig[i + 1..]);
      StepItem(item, i, orig, starts, playerPosition, bob, len);
      UncollectedFront(orig, i);
      assert items[..i] == orig[..i] && items[i + 1..] == tail;
      if item.isCollected {
        items := items[..i] + items[i + 1..];
      } else {
        assert items == orig[..i] + ([item] + tail);
      }
    }

    /** `Item.Update` on the item at `i`; every other item of the roster is left alone. */
    static method StepItem(item: Item, i: int, ghost orig: seq<Item>, ghost starts: seq<Vec3>,
                           playerPosition: Vec3, bob: real, len: Vec3 -> real)
      requires 0 <= i < |orig| == |starts| && Distinct(orig) && item == orig[i]
      requires forall k :: 0 <= k <= i ==> Untouched(orig[k], starts[k])
      requires forall k :: i < k < |orig| ==> Stepped(orig[k], starts[k], playerPosition, bob, len)
      modifies item
      ensures forall k :: 0 <= k < i ==> Untouched(orig[k], starts[k])
      ensures forall k :: i <= k < |orig| ==> Stepped(orig[k], starts[k], playerPosition, bob, len)
      ensures Uncollected(orig[i + 1..]) == old(Uncollected(orig[i + 1..]))
    {
      assert forall k :: 0 <= k < |orig| && k != i ==> orig[k] != item;
      assert item !in orig[i + 1..];
      item.Update(playerPosition, bob, len);
    }

    /**
     * One frame: every item is updated (`bob` is this frame's bobbing offset)
     * and the collected ones leave the list, walking it from the back.
     */
    method Update(playerPosition: Vec3, bob: real, len: Vec3 -> real)
      requires Valid()
      modifies this`items, items
      ensures Valid()
      ensures items == Uncollected(old(items))
      ensures forall k :: 0 <= k < |old(items)| ==>
        Stepped(old(items)[k], old(items[k].objectPosition), playerPosition, bob, len)
    {
      ghost var orig := items;
      ghost var starts := Positions(items);
      var i := |items|;
      while i > 0
        invariant 0 <= i <= |orig|
        invariant items == orig[..i] + Uncollected(orig[i..])
        invariant forall k :: 0 <= k < i ==> Untouched(orig[k], starts[k])
        invariant forall k :: i <= k < |orig| ==> Stepped(orig[k], starts[k], playerPosition, bob, len)
      {
        i := i - 1;
        UpdateAt(i, orig, starts, playerPosition, bob, len);
      }
      assert orig[0..] == orig;
      assert forall k :: 0 <= k < |orig| ==>
        !orig[k].isCollected ==> orig[k].inScene && orig[k].sceneRemovals == 0;
      UncollectedLive(orig);
    }

    method ClearItems()
      requires Valid()
      modifies this`items, items
      ensures Valid() && items == []
      ensures forall it :: it in old(items) ==>
        !it.isCollected && !it.inScene && it.sceneRemovals == 1
    {
      var list := items;
      for k := 0 to |list|
        invariant items == list
        invariant forall j :: 0 <= j < k ==>
          !list[j].isCollected && !list[j].inScene && list[j].sceneRemovals == 1
        invariant forall j :: k <= j < |list| ==> unchanged(list[j])
      {
        list[k].Dispose();
      }
      items := [];
    }
  }
}
