/** Mouse-button block editing: a press with the cursor captured casts a
    ray of fixed reach from the camera; the left button removes the block
    hit, the right button puts the selected block in front of the struck
    face. */
module Interaction {
  import opened Blocks
  import opened WorldGrid
  import opened Raycast

  /** How far the camera can reach, in cells. */
  const REACH: real := 8.0

  /** The mouse buttons the handler distinguishes; every other button is
      `OtherButton`. */
  datatype MouseButton = LeftButton | RightButton | OtherButton

  /** The action reported with a mouse-button event. */
  datatype ButtonAction = Press | Release | Repeat

  /** The cell a placement aims at: the neighbour in front of the struck face. */
  function PlaceTarget(hit: RaycastResult): Vec3i
    requires hit.Hit?
  {
    Add(hit.blockPos, hit.normal)
  }

  /** The grid after one mouse-button event. `cursorVisible`, the camera
      (`origin`, `dir`) and the `selected` block are the program state the
      handler reads. */
  function HandleBlockInteraction(g: Grid, cursorVisible: bool, button: MouseButton, action: ButtonAction,
                                  selected: BlockType, origin: Vec3r, dir: Vec3r): (h: Grid)
    requires !cursorVisible && action == Press ==> NonDegenerate(dir)
    ensures cursorVisible || action != Press ==> h == g
    ensures button == OtherButton ==> h == g
    ensures !cursorVisible && action == Press ==> RayCast(g, origin, dir, REACH).Miss? ==> h == g
    ensures !cursorVisible && action == Press ==> var rc := RayCast(g, origin, dir, REACH);
      button == LeftButton && rc.Hit? ==>
        Get(h, rc.blockPos) == Air && SameExcept(g, h, rc.blockPos)
    ensures !cursorVisible && action == Press ==> var rc := RayCast(g, origin, dir, REACH);
      button == RightButton && rc.Hit? ==>
        if InBounds(PlaceTarget(rc))
        then Get(h, PlaceTarget(rc)) == selected && SameExcept(g, h, PlaceTarget(rc))
        else h == g
  {
    if !cursorVisible && action == Press then
      var rc := RayCast(g, origin, dir, REACH);
      if rc.Hit? then
        match button
        case LeftButton => Set(g, rc.blockPos, Air)
        case RightButton => Set(g, PlaceTarget(rc), selected)
        case OtherButton => g
      else g
    else g
  }

  /** A placement never lands on the block that was hit, and it overwrites a
      solid block only when that block is the one the camera stands in:
      every other target is the cell the cast tested just before the hit,
      which it found to be air (`HitFaceFacesVisitedCell`). */
  lemma PlaceOverwritesOnlyCameraCell(g: Grid, selected: BlockType, origin: Vec3r, dir: Vec3r)
    requires NonDegenerate(dir)
    ensures var rc := RayCast(g, origin, dir, REACH);
      rc.Hit? && InBounds(PlaceTarget(rc)) && Get(g, PlaceTarget(rc)) != Air ==>
        PlaceTarget(rc) == FloorVec(origin)
    ensures var rc := RayCast(g, origin, dir, REACH);
      rc.Hit? ==> PlaceTarget(rc) != rc.blockPos
  {
    HitFaceFacesVisitedCell(g, origin, dir, REACH);
  }

  /** Casting again after removing the block hit from `s` either misses or
      hits a block strictly further along the ray. */
  lemma {:induction false} RecastAfterBreak(g: Grid, dir: Vec3r, s: DdaState, maxDist: real)
    requires NonDegenerate(dir)
    requires CastFrom(g, dir, s, maxDist).Hit?
    ensures var first := CastFrom(g, dir, s, maxDist);
      var second := CastFrom(Set(g, first.blockPos, Air), dir, s, maxDist);
      second.Hit? ==> Along(second.blockPos, StepOf(dir)) > Along(first.blockPos, StepOf(dir))
    decreases Measure(s.mapPos, StepOf(dir))
  {
    var first := CastFrom(g, dir, s, maxDist);
    var h := Set(g, first.blockPos, Air);
    var n := Advance(s, dir);
    AdvanceProgress(s, dir);
    if Get(g, n.mapPos) != Air {
      assert first.blockPos == n.mapPos;
      assert CastFrom(h, dir, s, maxDist) == CastFrom(h, dir, n, maxDist);
      CastFromAhead(h, dir, n, maxDist);
    } else {
      assert first == CastFrom(g, dir, n, maxDist);
      CastFromAhead(g, dir, n, maxDist);
      assert Get(h, n.mapPos) == Air;
      RecastAfterBreak(g, dir, n, maxDist);
    }
  }

  /** Breaking twice from the same viewpoint never removes the same block
      twice: the second press misses or removes a block further away. */
  lemma BreakTwice(g: Grid, origin: Vec3r, dir: Vec3r)
    requires NonDegenerate(dir)
    ensures var first := RayCast(g, origin, dir, REACH);
      var h := HandleBlockInteraction(g, false, LeftButton, Press, Air, origin, dir);
      var second := RayCast(h, origin, dir, REACH);
      first.Hit? && second.Hit? ==>
        second.blockPos != first.blockPos &&
        Along(second.blockPos, StepOf(dir)) > Along(first.blockPos, StepOf(dir))
  {
    if RayCast(g, origin, dir, REACH).Hit? {
      RecastAfterBreak(g, dir, Begin(origin, dir), REACH);
    }
  }
}
