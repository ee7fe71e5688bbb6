/** Block picking: an Amanatides-Woo grid traversal (DDA) from the camera
    along its view direction, stopping at the first solid cell. Distances
    are exact reals; a direction with a zero component is outside the model. */
module Raycast {
  import opened Blocks
  import opened WorldGrid

  /** A point or direction in world space. */
  datatype Vec3r = Vec3r(x: real, y: real, z: real)

  /** One of the three grid axes; `side` in the traversal names the axis
      advanced last. */
  datatype Axis = AxisX | AxisY | AxisZ

  function RealAt(v: Vec3r, a: Axis): real {
    match a
    case AxisX => v.x
    case AxisY => v.y
    case AxisZ => v.z
  }

  function IntAt(v: Vec3i, a: Axis): int {
    match a
    case AxisX => v.x
    case AxisY => v.y
    case AxisZ => v.z
  }

  /** `v` with component `a` replaced by `r`. */
  function WithReal(v: Vec3r, a: Axis, r: real): (w: Vec3r)
    ensures RealAt(w, a) == r
    ensures forall b :: b != a ==> RealAt(w, b) == RealAt(v, b)
  {
    match a
    case AxisX => v.(x := r)
    case AxisY => v.(y := r)
    case AxisZ => v.(z := r)
  }

  /** `p` moved by `d` along axis `a` only. */
  function Shift(p: Vec3i, a: Axis, d: int): (q: Vec3i)
    ensures IntAt(q, a) == IntAt(p, a) + d
    ensures forall b :: b != a ==> IntAt(q, b) == IntAt(p, b)
  {
    match a
    case AxisX => p.(x := p.x + d)
    case AxisY => p.(y := p.y + d)
    case AxisZ => p.(z := p.z + d)
  }

  /** The outcome of a cast: no solid cell was found, or the first solid
      cell and the normal of the face the ray entered it through. */
  datatype RaycastResult = Miss | Hit(blockPos: Vec3i, normal: Vec3i)

  /** Every direction component is non-zero, so `1 / d` is finite. */
  predicate NonDegenerate(dir: Vec3r) {
    dir.x != 0.0 && dir.y != 0.0 && dir.z != 0.0
  }

  function Abs(r: real): real {
    if r < 0.0 then -r else r
  }

  /** The cell containing a point: component-wise floor. */
  function FloorVec(v: Vec3r): (p: Vec3i)
    ensures forall a :: IntAt(p, a) as real <= RealAt(v, a) < IntAt(p, a) as real + 1.0
  {
    Vec3i(v.x.Floor, v.y.Floor, v.z.Floor)
  }

  /** Ray length needed to cross one whole cell along each axis. */
  function DeltaDist(dir: Vec3r): (dd: Vec3r)
    requires NonDegenerate(dir)
    ensures forall a :: RealAt(dd, a) > 0.0
  {
    Vec3r(Abs(1.0 / dir.x), Abs(1.0 / dir.y), Abs(1.0 / dir.z))
  }

  /** Direction of travel along each axis: +1 exactly when the direction
      component is positive, otherwise -1. */
  function StepOf(dir: Vec3r): (st: Vec3i)
    ensures forall a :: IntAt(st, a) == 1 || IntAt(st, a) == -1
    ensures forall a :: IntAt(st, a) == 1 <==> RealAt(dir, a) > 0.0
  {
    Vec3i(if dir.x > 0.0 then 1 else -1, if dir.y > 0.0 then 1 else -1, if dir.z > 0.0 then 1 else -1)
  }

  /** Ray length from the start point to the first cell boundary on one axis. */
  function FirstBoundary(start: real, cell: int, dir: real, delta: real): real {
    if dir > 0.0 then (cell as real + 1.0 - start) * delta else (start - cell as real) * delta
  }

  function InitialSideDist(start: Vec3r, dir: Vec3r): Vec3r
    requires NonDegenerate(dir)
  {
    var cell := FloorVec(start);
    var dd := DeltaDist(dir);
    Vec3r(FirstBoundary(start.x, cell.x, dir.x, dd.x),
          FirstBoundary(start.y, cell.y, dir.y, dd.y),
          FirstBoundary(start.z, cell.z, dir.z, dd.z))
  }

  /** The ray length to the first boundary on one axis is at most one
      whole cell. */
  lemma FirstBoundaryWithinOneCell(start: real, cell: int, dir: real, delta: real)
    requires cell as real <= start < cell as real + 1.0 && delta > 0.0
    ensures 0.0 <= FirstBoundary(start, cell, dir, delta) <= delta
  {
    var f := if dir > 0.0 then cell as real + 1.0 - start else start - cell as real;
    assert FirstBoundary(start, cell, dir, delta) == f * delta;
    assert (1.0 - f) * delta >= 0.0;
  }

  /** Before the first step, each side distance is the ray length to the
      first boundary ahead on that axis: at most one whole cell. */
  lemma InitialSideDistWithinOneCell(start: Vec3r, dir: Vec3r)
    requires NonDegenerate(dir)
    ensures forall a :: 0.0 <= RealAt(InitialSideDist(start, dir), a) <= RealAt(DeltaDist(dir), a)
  {
    var cell := FloorVec(start);
    var dd := DeltaDist(dir);
    assert RealAt(dd, AxisX) == dd.x && RealAt(dd, AxisY) == dd.y && RealAt(dd, AxisZ) == dd.z;
    assert IntAt(cell, AxisX) == cell.x && IntAt(cell, AxisY) == cell.y && IntAt(cell, AxisZ) == cell.z;
    FirstBoundaryWithinOneCell(start.x, cell.x, dir.x, dd.x);
    FirstBoundaryWithinOneCell(start.y, cell.y, dir.y, dd.y);
    FirstBoundaryWithinOneCell(start.z, cell.z, dir.z, dd.z);
  }

  /** `|1 / d|` is the ray length per unit of coordinate along an axis whose
      direction component is `d`: multiplied by `d` it gives the step sign. */
  lemma InverseTimesComponent(d: real)
    requires d != 0.0
    ensures Abs(1.0 / d) * d == (if d > 0.0 then 1.0 else -1.0)
  {
    assert (1.0 / d) * d == 1.0;
    if d < 0.0 {
      assert 1.0 / d < 0.0;
    }
  }

  /** Moving along the ray by `deltaDist` on an axis changes that
      coordinate by exactly one cell. */
  lemma DeltaDistCrossesOneCell(dir: Vec3r)
    requires NonDegenerate(dir)
    ensures DeltaDist(dir).x * Abs(dir.x) == 1.0
    ensures DeltaDist(dir).y * Abs(dir.y) == 1.0
    ensures DeltaDist(dir).z * Abs(dir.z) == 1.0
  {
    InverseTimesComponent(dir.x);
    InverseTimesComponent(dir.y);
    InverseTimesComponent(dir.z);
  }

  /** On one axis: starting from coordinate `start`, the ray with component
      `d` reaches, after length `sd`, the boundary of `cell` that lies ahead
      (its upper face when moving up, its lower face when moving down). */
  predicate ReachesBoundaryAhead(start: real, d: real, sd: real, cell: int) {
    start + sd * d == cell as real + (if d > 0.0 then 1.0 else 0.0)
  }

  /** The first side distance on one axis reaches the boundary ahead of the
      start cell. */
  lemma FirstBoundaryReachesBoundary(start: real, cell: int, d: real)
    requires d != 0.0
    ensures ReachesBoundaryAhead(start, d, FirstBoundary(start, cell, d, Abs(1.0 / d)), cell)
  {
    var dd := Abs(1.0 / d);
    InverseTimesComponent(d);
    var f := if d > 0.0 then cell as real + 1.0 - start else start - cell as real;
    assert FirstBoundary(start, cell, d, dd) * d == f * (dd * d);
  }

  /** Pushing the side distance of one axis one cell further reaches the
      boundary ahead of the next cell on that axis; the old side distance is
      where the ray enters that next cell, through its near face. */
  lemma StepReachesNextBoundary(start: real, d: real, sd: real, cell: int)
    requires d != 0.0
    requires ReachesBoundaryAhead(start, d, sd, cell)
    ensures ReachesBoundaryAhead(start, d, sd + Abs(1.0 / d), cell + (if d > 0.0 then 1 else -1))
    ensures OnNearFace(start, d, sd, cell + (if d > 0.0 then 1 else -1))
  {
    InverseTimesComponent(d);
    assert (sd + Abs(1.0 / d)) * d == sd * d + Abs(1.0 / d) * d;
  }

  /** The loop variables of the traversal: the current cell, the ray length
      to the next boundary on each axis, the ray length at which the current
      cell was entered, and the axis advanced last. */
  datatype DdaState = DdaState(mapPos: Vec3i, sideDist: Vec3r, traveled: real, side: Axis)

  /** The state before the first iteration. */
  function Begin(start: Vec3r, dir: Vec3r): (s: DdaState)
    requires NonDegenerate(dir)
    ensures s.mapPos == FloorVec(start) && s.traveled == 0.0
  {
    DdaState(FloorVec(start), InitialSideDist(start, dir), 0.0, AxisX)
  }

  /** The axis to advance: one whose boundary is nearest. On a tie the later
      axis wins: z over y and x, y over x. */
  function ChooseAxis(sd: Vec3r): (a: Axis)
    ensures forall b :: RealAt(sd, a) <= RealAt(sd, b)
    ensures a == AxisX <==> sd.x < sd.y && sd.x < sd.z
    ensures a == AxisY <==> sd.y <= sd.x && sd.y < sd.z
    ensures a == AxisZ <==> sd.z <= sd.x && sd.z <= sd.y
  {
    if sd.x < sd.y then
      (if sd.x < sd.z then AxisX else AxisZ)
    else
      (if sd.y < sd.z then AxisY else AxisZ)
  }

  /** One iteration of the traversal loop: cross the nearest boundary. The
      source recovers the pre-increment side distance as `sideDist - deltaDist`,
      which over the reals is that value exactly. */
  function Advance(s: DdaState, dir: Vec3r): DdaState
    requires NonDegenerate(dir)
  {
    var a := ChooseAxis(s.sideDist);
    var next := RealAt(s.sideDist, a) + RealAt(DeltaDist(dir), a);
    DdaState(Shift(s.mapPos, a, IntAt(StepOf(dir), a)),
             WithReal(s.sideDist, a, next),
             next - RealAt(DeltaDist(dir), a),
             a)
  }

  /** What one iteration does: it advances the axis `ChooseAxis` picks,
      moves the cell by the step on that axis and on no other, records as
      `traveled` that axis's side distance from before the step, and pushes
      only that axis's side distance one cell further. */
  lemma AdvanceStepsOneAxis(s: DdaState, dir: Vec3r)
    requires NonDegenerate(dir)
    ensures var n := Advance(s, dir);
      && n.side == ChooseAxis(s.sideDist)
      && (forall b :: IntAt(n.mapPos, b) == IntAt(s.mapPos, b) + (if b == n.side then IntAt(StepOf(dir), b) else 0))
      && n.traveled == RealAt(s.sideDist, n.side)
      && (forall b :: RealAt(n.sideDist, b) == RealAt(s.sideDist, b) + (if b == n.side then RealAt(DeltaDist(dir), b) else 0.0))
  {
  }

  /** The normal of the face entered when stepping along `a`: minus the step
      on that axis, zero on the others. */
  function Normal(a: Axis, st: Vec3i): Vec3i {
    Shift(Vec3i(0, 0, 0), a, -IntAt(st, a))
  }

  /** A unit vector along one axis. */
  predicate IsFaceNormal(n: Vec3i) {
    exists a :: (IntAt(n, a) == 1 || IntAt(n, a) == -1) && forall b :: b != a ==> IntAt(n, b) == 0
  }

  /** Cells the traversal may still visit along one axis before it leaves
      the world on that side (zero once it has). */
  function Remaining(pos: int, st: int, extent: int): nat {
    var r := if st > 0 then extent - pos else pos + 1;
    if r > 0 then r else 0
  }

  /** Decreases by one at every step that stays inside the world. */
  function Measure(p: Vec3i, st: Vec3i): nat {
    Remaining(p.x, st.x, CHUNK_SIZE) + Remaining(p.y, st.y, WORLD_HEIGHT) + Remaining(p.z, st.z, CHUNK_SIZE)
  }

  /** Position along the ray's direction of travel: the sum over axes of the
      coordinate signed by the step. Every step increases it by exactly one. */
  function Along(p: Vec3i, st: Vec3i): int {
    (if st.x > 0 then p.x else -p.x) + (if st.y > 0 then p.y else -p.y) + (if st.z > 0 then p.z else -p.z)
  }

  lemma AdvanceProgress(s: DdaState, dir: Vec3r)
    requires NonDegenerate(dir)
    ensures Along(Advance(s, dir).mapPos, StepOf(dir)) == Along(s.mapPos, StepOf(dir)) + 1
    ensures Add(Advance(s, dir).mapPos, Normal(Advance(s, dir).side, StepOf(dir))) == s.mapPos
    ensures InBounds(Advance(s, dir).mapPos) ==> Measure(Advance(s, dir).mapPos, StepOf(dir)) < Measure(s.mapPos, StepOf(dir))
  {
    var n := Advance(s, dir);
    var st := StepOf(dir);
    AdvanceStepsOneAxis(s, dir);
    assert IntAt(n.mapPos, AxisX) == n.mapPos.x;
    assert IntAt(n.mapPos, AxisY) == n.mapPos.y;
    assert IntAt(n.mapPos, AxisZ) == n.mapPos.z;
    assert IntAt(st, AxisX) == st.x && IntAt(st, AxisY) == st.y && IntAt(st, AxisZ) == st.z;
  }

  /** The traversal loop from state `s`, as the source runs it: the distance
      test sits at the loop head only, the bounds test precedes every grid
      read, and a solid cell ends the walk with the entered face's normal. */
  function CastFrom(g: Grid, dir: Vec3r, s: DdaState, maxDist: real): (r: RaycastResult)
    requires NonDegenerate(dir)
    ensures r.Hit? ==> InBounds(r.blockPos) && Get(g, r.blockPos) != Air
    ensures r.Hit? ==> IsFaceNormal(r.normal)
    decreases Measure(s.mapPos, StepOf(dir))
  {
    if !(s.traveled < maxDist) then Miss
    else
      var n := Advance(s, dir);
      if !InBounds(n.mapPos) then Miss
      else if Get(g, n.mapPos) != Air then
        var nm := Normal(n.side, StepOf(dir));
        assert IntAt(nm, n.side) == -IntAt(StepOf(dir), n.side);
        Hit(n.mapPos, nm)
      else
        AdvanceProgress(s, dir);
        CastFrom(g, dir, n, maxDist)
  }

  /** The source's `rayCast`: the traversal from the cell holding `start`. */
  function RayCast(g: Grid, start: Vec3r, dir: Vec3r, maxDist: real): (r: RaycastResult)
    requires NonDegenerate(dir)
    ensures r.Hit? ==> InBounds(r.blockPos) && Get(g, r.blockPos) != Air && IsFaceNormal(r.normal)
  {
    CastFrom(g, dir, Begin(start, dir), maxDist)
  }

  /** The state from which `path[i]` was produced. */
  function Before(s: DdaState, path: seq<DdaState>, i: nat): DdaState
    requires i <= |path|
  {
    if i == 0 then s else path[i - 1]
  }

  /** Each state of `path` is one iteration after the one before it (the
      first one iteration after `s`), and each iteration starts from a state
      whose entry distance is still below `maxDist`. */
  ghost predicate IsWalk(s: DdaState, path: seq<DdaState>, dir: Vec3r, maxDist: real)
    requires NonDegenerate(dir)
  {
    forall i {:trigger Before(s, path, i)} :: 0 <= i < |path| ==>
      Before(s, path, i).traveled < maxDist && path[i] == Advance(Before(s, path, i), dir)
  }

  lemma WalkCons(s: DdaState, rest: seq<DdaState>, dir: Vec3r, maxDist: real)
    requires NonDegenerate(dir)
    requires s.traveled < maxDist
    requires IsWalk(Advance(s, dir), rest, dir, maxDist)
    ensures IsWalk(s, [Advance(s, dir)] + rest, dir, maxDist)
  {
    var n := Advance(s, dir);
    var path := [n] + rest;
    forall i | 0 <= i < |path|
      ensures Before(s, path, i).traveled < maxDist && path[i] == Advance(Before(s, path, i), dir)
    {
      if i > 0 {
        assert path[i] == rest[i - 1];
        assert Before(s, path, i) == Before(n, rest, i - 1);
      }
    }
  }

  /** The cells the traversal tests, in order (the reference walk): each is
      one step after the previous, each step is taken only while the
      previous entry distance is below `maxDist`, every cell but the last is
      in-bounds air, and the walk ends at a cell outside the world, a solid
      cell, or a cell entered at a distance of at least `maxDist`. */
  function Trace(g: Grid, dir: Vec3r, s: DdaState, maxDist: real): (path: seq<DdaState>)
    requires NonDegenerate(dir)
    ensures |path| == 0 <==> !(s.traveled < maxDist)
    ensures IsWalk(s, path, dir, maxDist)
    ensures forall i :: 0 <= i < |path| - 1 ==> InBounds(path[i].mapPos) && Get(g, path[i].mapPos) == Air
    ensures |path| > 0 ==> var last := path[|path| - 1];
      !InBounds(last.mapPos) || Get(g, last.mapPos) != Air || !(last.traveled < maxDist)
    decreases Measure(s.mapPos, StepOf(dir))
  {
    if !(s.traveled < maxDist) then []
    else
      var n := Advance(s, dir);
      if !InBounds(n.mapPos) || Get(g, n.mapPos) != Air then WalkCons(s, [], dir, maxDist); [n]
      else
        AdvanceProgress(s, dir);
        var rest := Trace(g, dir, n, maxDist);
        WalkCons(s, rest, dir, maxDist);
        [n] + rest
  }

  /** The loop model and the reference walk agree: the cast hits exactly
      when the walk ends on an in-bounds solid cell, and then reports that
      cell and minus the step along the axis that reached it. */
  lemma {:induction false} CastFromFollowsTrace(g: Grid, dir: Vec3r, s: DdaState, maxDist: real)
    requires NonDegenerate(dir)
    ensures var path := Trace(g, dir, s, maxDist);
      CastFrom(g, dir, s, maxDist).Hit? <==>
        |path| > 0 && InBounds(path[|path| - 1].mapPos) && Get(g, path[|path| - 1].mapPos) != Air
    ensures var path := Trace(g, dir, s, maxDist);
      CastFrom(g, dir, s, maxDist).Hit? ==>
        CastFrom(g, dir, s, maxDist) == Hit(path[|path| - 1].mapPos, Normal(path[|path| - 1].side, StepOf(dir)))
    decreases Measure(s.mapPos, StepOf(dir))
  {
    if s.traveled < maxDist {
      var n := Advance(s, dir);
      if InBounds(n.mapPos) && Get(g, n.mapPos) == Air {
        AdvanceProgress(s, dir);
        CastFromFollowsTrace(g, dir, n, maxDist);
        var rest := Trace(g, dir, n, maxDist);
        assert Trace(g, dir, s, maxDist) == [n] + rest;
      }
    }
  }

  /** One entry of a walk: the step that produced `path[i]`. */
  lemma WalkAt(s: DdaState, path: seq<DdaState>, dir: Vec3r, maxDist: real, i: nat)
    requires NonDegenerate(dir)
    requires IsWalk(s, path, dir, maxDist)
    requires i < |path|
    ensures Before(s, path, i).traveled < maxDist
    ensures path[i] == Advance(Before(s, path, i), dir)
    ensures Along(path[i].mapPos, StepOf(dir)) == Along(Before(s, path, i).mapPos, StepOf(dir)) + 1
    ensures Add(path[i].mapPos, Normal(path[i].side, StepOf(dir))) == Before(s, path, i).mapPos
  {
    AdvanceProgress(Before(s, path, i), dir);
  }

  /** Every cell of a walk lies exactly `i + 1` steps along the ray from the
      starting cell: axes only ever move forward. */
  lemma {:induction false} WalkMovesForward(s: DdaState, path: seq<DdaState>, dir: Vec3r, maxDist: real)
    requires NonDegenerate(dir)
    requires IsWalk(s, path, dir, maxDist)
    ensures forall i :: 0 <= i < |path| ==> Along(path[i].mapPos, StepOf(dir)) == Along(s.mapPos, StepOf(dir)) + i + 1
  {
    var i := 0;
    while i < |path|
      invariant 0 <= i <= |path|
      invariant forall j :: 0 <= j < i ==> Along(path[j].mapPos, StepOf(dir)) == Along(s.mapPos, StepOf(dir)) + j + 1
    {
      WalkAt(s, path, dir, maxDist, i);
      i := i + 1;
    }
  }

  /** The start cell is never tested, and no cell is tested twice. */
  lemma StartCellNeverTested(g: Grid, start: Vec3r, dir: Vec3r, maxDist: real)
    requires NonDegenerate(dir)
    ensures var path := Trace(g, dir, Begin(start, dir), maxDist);
      forall i :: 0 <= i < |path| ==> path[i].mapPos != FloorVec(start)
    ensures var path := Trace(g, dir, Begin(start, dir), maxDist);
      forall i, j :: 0 <= i < j < |path| ==> path[i].mapPos != path[j].mapPos
  {
    var s := Begin(start, dir);
    WalkMovesForward(s, Trace(g, dir, s, maxDist), dir, maxDist);
  }

  /** A hit is never the start cell, and the cell in front of the struck
      face is the cell the walk tested just before the hit (the start cell
      when the hit is the first cell tested), so it is the start cell or an
      in-bounds cell already tested as air. */
  lemma HitFaceFacesVisitedCell(g: Grid, start: Vec3r, dir: Vec3r, maxDist: real)
    requires NonDegenerate(dir)
    ensures var r := RayCast(g, start, dir, maxDist);
      r.Hit? ==> r.blockPos != FloorVec(start)
    ensures var r := RayCast(g, start, dir, maxDist);
      r.Hit? ==> var target := Add(r.blockPos, r.normal);
        target == FloorVec(start) || (InBounds(target) && Get(g, target) == Air)
    ensures var r := RayCast(g, start, dir, maxDist);
      var path := Trace(g, dir, Begin(start, dir), maxDist);
      r.Hit? ==> Add(r.blockPos, r.normal) == (if |path| == 1 then FloorVec(start) else path[|path| - 2].mapPos)
  {
    var s := Begin(start, dir);
    var path := Trace(g, dir, s, maxDist);
    CastFromFollowsTrace(g, dir, s, maxDist);
    StartCellNeverTested(g, start, dir, maxDist);
    if RayCast(g, start, dir, maxDist).Hit? {
      WalkAt(s, path, dir, maxDist, |path| - 1);
    }
  }

  /** The cast misses exactly when the walk takes no step (`maxDist <= 0`),
      leaves the world, or stops on air because the distance ran out. */
  lemma MissCases(g: Grid, start: Vec3r, dir: Vec3r, maxDist: real)
    requires NonDegenerate(dir)
    ensures var path := Trace(g, dir, Begin(start, dir), maxDist);
      RayCast(g, start, dir, maxDist) == Miss <==>
        |path| == 0 || !InBounds(path[|path| - 1].mapPos) ||
        (Get(g, path[|path| - 1].mapPos) == Air && !(path[|path| - 1].traveled < maxDist))
  {
    var s := Begin(start, dir);
    var path := Trace(g, dir, s, maxDist);
    CastFromFollowsTrace(g, dir, s, maxDist);
    var r := RayCast(g, start, dir, maxDist);
    assert r == CastFrom(g, dir, s, maxDist);
    assert r == Miss <==> !r.Hit?;
    if |path| > 0 {
      var last := path[|path| - 1];
      assert !InBounds(last.mapPos) || Get(g, last.mapPos) != Air || !(last.traveled < maxDist);
    }
  }

  /** Each hit lies strictly further along the ray than the cell it was cast
      from. */
  lemma {:induction false} CastFromAhead(g: Grid, dir: Vec3r, s: DdaState, maxDist: real)
    requires NonDegenerate(dir)
    ensures var r := CastFrom(g, dir, s, maxDist);
      r.Hit? ==> Along(r.blockPos, StepOf(dir)) > Along(s.mapPos, StepOf(dir))
    decreases Measure(s.mapPos, StepOf(dir))
  {
    if s.traveled < maxDist {
      var n := Advance(s, dir);
      AdvanceProgress(s, dir);
      if InBounds(n.mapPos) && Get(g, n.mapPos) == Air {
        CastFromAhead(g, dir, n, maxDist);
      }
    }
  }

  /** Every side distance of `s` is the ray length from `start` to the
      boundary ahead of the current cell on that axis. */
  predicate AimsAhead(start: Vec3r, dir: Vec3r, s: DdaState) {
    && ReachesBoundaryAhead(start.x, dir.x, s.sideDist.x, s.mapPos.x)
    && ReachesBoundaryAhead(start.y, dir.y, s.sideDist.y, s.mapPos.y)
    && ReachesBoundaryAhead(start.z, dir.z, s.sideDist.z, s.mapPos.z)
  }

  /** On one axis: after length `t` the ray with component `d` from
      coordinate `start` is on the near face of `cell`, the face it enters
      through (the lower face when moving up, the upper face when moving
      down). */
  predicate OnNearFace(start: real, d: real, t: real, cell: int) {
    start + t * d == cell as real + (if d > 0.0 then 0.0 else 1.0)
  }

  /** The ray from `start` enters the cell of `s` at length `s.traveled`,
      through the face crossed on axis `s.side`. */
  predicate EntersAt(start: Vec3r, dir: Vec3r, s: DdaState) {
    match s.side
    case AxisX => OnNearFace(start.x, dir.x, s.traveled, s.mapPos.x)
    case AxisY => OnNearFace(start.y, dir.y, s.traveled, s.mapPos.y)
    case AxisZ => OnNearFace(start.z, dir.z, s.traveled, s.mapPos.z)
  }

  /** The set-up of the traversal aims every axis at the boundary ahead of
      the start cell. */
  lemma BeginAimsAhead(start: Vec3r, dir: Vec3r)
    requires NonDegenerate(dir)
    ensures AimsAhead(start, dir, Begin(start, dir))
  {
    var cell := FloorVec(start);
    FirstBoundaryReachesBoundary(start.x, cell.x, dir.x);
    FirstBoundaryReachesBoundary(start.y, cell.y, dir.y);
    FirstBoundaryReachesBoundary(start.z, cell.z, dir.z);
  }

  /** A state that differs from `s` only by a step along axis `a` keeps
      every axis aimed at the boundary ahead and is entered where the ray
      crosses the boundary `s` aimed at on that axis. */
  lemma StepAimsAhead(start: Vec3r, dir: Vec3r, s: DdaState, a: Axis, n: DdaState)
    requires NonDegenerate(dir)
    requires AimsAhead(start, dir, s)
    requires n.side == a && n.traveled == RealAt(s.sideDist, a)
    requires n.mapPos == Shift(s.mapPos, a, if RealAt(dir, a) > 0.0 then 1 else -1)
    requires n.sideDist == WithReal(s.sideDist, a, RealAt(s.sideDist, a) + Abs(1.0 / RealAt(dir, a)))
    ensures AimsAhead(start, dir, n) && EntersAt(start, dir, n)
  {
    match a
    case AxisX =>
      assert n.mapPos == s.mapPos.(x := s.mapPos.x + (if dir.x > 0.0 then 1 else -1));
      assert n.sideDist == s.sideDist.(x := s.sideDist.x + Abs(1.0 / dir.x));
      StepReachesNextBoundary(start.x, dir.x, s.sideDist.x, s.mapPos.x);
    case AxisY =>
      assert n.mapPos == s.mapPos.(y := s.mapPos.y + (if dir.y > 0.0 then 1 else -1));
      assert n.sideDist == s.sideDist.(y := s.sideDist.y + Abs(1.0 / dir.y));
      StepReachesNextBoundary(start.y, dir.y, s.sideDist.y, s.mapPos.y);
    case AxisZ =>
      assert n.mapPos == s.mapPos.(z := s.mapPos.z + (if dir.z > 0.0 then 1 else -1));
      assert n.sideDist == s.sideDist.(z := s.sideDist.z + Abs(1.0 / dir.z));
      StepReachesNextBoundary(start.z, dir.z, s.sideDist.z, s.mapPos.z);
  }

  /** One iteration keeps every axis aimed at the boundary ahead, and at the
      recorded length the ray is on the new cell's near face along the
      stepped axis (`SlabsPutRayInCell` places it inside the cell on the
      other two axes). */
  lemma AdvanceAimsAhead(start: Vec3r, dir: Vec3r, s: DdaState)
    requires NonDegenerate(dir)
    requires AimsAhead(start, dir, s)
    ensures AimsAhead(start, dir, Advance(s, dir))
    ensures EntersAt(start, dir, Advance(s, dir))
  {
    var n := Advance(s, dir);
    var a := ChooseAxis(s.sideDist);
    assert RealAt(DeltaDist(dir), a) == Abs(1.0 / RealAt(dir, a));
    assert IntAt(StepOf(dir), a) == if RealAt(dir, a) > 0.0 then 1 else -1;
    StepAimsAhead(start, dir, s, a, n);
  }

  /** The travelled length lies in every axis's current slab: at or past
      the near boundary (one cell crossing before the side distance) and at
      or before the far boundary (the side distance). */
  predicate InSlabs(dir: Vec3r, s: DdaState)
    requires NonDegenerate(dir)
  {
    forall b :: RealAt(s.sideDist, b) - RealAt(DeltaDist(dir), b) <= s.traveled <= RealAt(s.sideDist, b)
  }

  /** The start point, at length 0, is inside every initial slab. */
  lemma BeginInSlabs(start: Vec3r, dir: Vec3r)
    requires NonDegenerate(dir)
    ensures InSlabs(dir, Begin(start, dir))
  {
    InitialSideDistWithinOneCell(start, dir);
  }

  /** Crossing the nearest boundary keeps the travelled length inside every
      slab: the stepped axis starts a new slab there, and no other axis has
      reached its far boundary yet. */
  lemma AdvanceInSlabs(dir: Vec3r, s: DdaState)
    requires NonDegenerate(dir)
    requires InSlabs(dir, s)
    ensures InSlabs(dir, Advance(s, dir))
  {
    AdvanceStepsOneAxis(s, dir);
  }

  /** A coordinate lies in the closed unit interval of `cell`. */
  predicate WithinCell(v: real, cell: int) {
    cell as real <= v <= cell as real + 1.0
  }

  /** The point of the ray from `start` at length `s.traveled` lies in the
      cell of `s` on every axis. */
  predicate RayInCell(start: Vec3r, dir: Vec3r, s: DdaState) {
    && WithinCell(start.x + s.traveled * dir.x, s.mapPos.x)
    && WithinCell(start.y + s.traveled * dir.y, s.mapPos.y)
    && WithinCell(start.z + s.traveled * dir.z, s.mapPos.z)
  }

  /** Scaling by `d` keeps the sign of a non-negative length when `d` is
      positive and flips it when `d` is negative. */
  lemma ScaledSign(u: real, d: real)
    requires u >= 0.0
    ensures d > 0.0 ==> u * d >= 0.0
    ensures d < 0.0 ==> u * d <= 0.0
  {
  }

  /** On one axis: a length between the near boundary and the boundary
      ahead puts the ray inside the cell. */
  lemma RayInCellOnAxis(start: real, d: real, sd: real, t: real, cell: int)
    requires d != 0.0
    requires ReachesBoundaryAhead(start, d, sd, cell)
    requires sd - Abs(1.0 / d) <= t <= sd
    ensures WithinCell(start + t * d, cell)
  {
    InverseTimesComponent(d);
    var k := Abs(1.0 / d);
    var u := sd - t;
    assert start + t * d == start + sd * d - u * d;
    ScaledSign(u, d);
    ScaledSign(k - u, d);
    assert (k - u) * d == k * d - u * d;
  }

  /** A state aimed at the boundaries ahead whose travelled length is in
      every slab has the ray point at that length inside its cell. */
  lemma SlabsPutRayInCell(start: Vec3r, dir: Vec3r, s: DdaState)
    requires NonDegenerate(dir)
    requires AimsAhead(start, dir, s) && InSlabs(dir, s)
    ensures RayInCell(start, dir, s)
  {
    var dd := DeltaDist(dir);
    assert RealAt(s.sideDist, AxisX) - RealAt(dd, AxisX) <= s.traveled <= RealAt(s.sideDist, AxisX);
    assert RealAt(s.sideDist, AxisY) - RealAt(dd, AxisY) <= s.traveled <= RealAt(s.sideDist, AxisY);
    assert RealAt(s.sideDist, AxisZ) - RealAt(dd, AxisZ) <= s.traveled <= RealAt(s.sideDist, AxisZ);
    RayInCellOnAxis(start.x, dir.x, s.sideDist.x, s.traveled, s.mapPos.x);
    RayInCellOnAxis(start.y, dir.y, s.sideDist.y, s.traveled, s.mapPos.y);
    RayInCellOnAxis(start.z, dir.z, s.sideDist.z, s.traveled, s.mapPos.z);
  }

  /** Every state of a walk from a state aimed like `s` and inside its slabs
      has the ray point at its travelled length inside its cell, enters that
      cell through the face crossed on the stepped axis, and stays aimed at
      the boundaries ahead and inside its slabs. */
  lemma {:induction false} WalkFollowsRay(start: Vec3r, s: DdaState, path: seq<DdaState>, dir: Vec3r, maxDist: real)
    requires NonDegenerate(dir)
    requires AimsAhead(start, dir, s) && InSlabs(dir, s)
    requires IsWalk(s, path, dir, maxDist)
    ensures forall i :: 0 <= i < |path| ==>
      AimsAhead(start, dir, path[i]) && InSlabs(dir, path[i]) && EntersAt(start, dir, path[i]) && RayInCell(start, dir, path[i])
  {
    var i := 0;
    while i < |path|
      invariant 0 <= i <= |path|
      invariant forall j :: 0 <= j < i ==>
        AimsAhead(start, dir, path[j]) && InSlabs(dir, path[j]) && EntersAt(start, dir, path[j]) && RayInCell(start, dir, path[j])
    {
      WalkAt(s, path, dir, maxDist, i);
      AdvanceAimsAhead(start, dir, Before(s, path, i));
      AdvanceInSlabs(dir, Before(s, path, i));
      SlabsPutRayInCell(start, dir, path[i]);
      i := i + 1;
    }
  }

  /** Every cell a cast tests contains the point of the ray from `start` at
      the length recorded for it, the ray enters it there through the face
      crossed on the stepped axis, and every side distance is the ray length
      to the boundary ahead of that cell. */
  lemma TraceFollowsRay(g: Grid, start: Vec3r, dir: Vec3r, maxDist: real)
    requires NonDegenerate(dir)
    ensures var path := Trace(g, dir, Begin(start, dir), maxDist);
      forall i :: 0 <= i < |path| ==>
        RayInCell(start, dir, path[i]) && EntersAt(start, dir, path[i]) && AimsAhead(start, dir, path[i])
  {
    BeginAimsAhead(start, dir);
    BeginInSlabs(start, dir);
    WalkFollowsRay(start, Begin(start, dir), Trace(g, dir, Begin(start, dir), maxDist), dir, maxDist);
  }

  /** The source's loop as written: explicit loop variables, the nested
      comparisons for the axis choice, the distance test at the head, the
      bounds test before the grid read. */
  method CastRay(g: Grid, start: Vec3r, dir: Vec3r, maxDist: real) returns (r: RaycastResult)
    requires NonDegenerate(dir)
    ensures r == RayCast(g, start, dir, maxDist)
  {
    r := Miss;
    var mapPos := FloorVec(start);
    var deltaDist := DeltaDist(dir);
    var step := StepOf(dir);
    var sideDist := InitialSideDist(start, dir);
    var maxSide := 0.0;
    var side := AxisX;
    var traveled := 0.0;
    while traveled < maxDist
      invariant r == Miss
      invariant CastFrom(g, dir, DdaState(mapPos, sideDist, traveled, side), maxDist) == RayCast(g, start, dir, maxDist)
      decreases Measure(mapPos, step)
    {
      ghost var before := DdaState(mapPos, sideDist, traveled, side);
      if sideDist.x < sideDist.y {
        if sideDist.x < sideDist.z {
          sideDist := sideDist.(x := sideDist.x + deltaDist.x);
          mapPos := mapPos.(x := mapPos.x + step.x);
          side := AxisX;
          maxSide := sideDist.x - deltaDist.x;
        } else {
          sideDist := sideDist.(z := sideDist.z + deltaDist.z);
          mapPos := mapPos.(z := mapPos.z + step.z);
          side := AxisZ;
          maxSide := sideDist.z - deltaDist.z;
        }
      } else {
        if sideDist.y < sideDist.z {
          sideDist := sideDist.(y := sideDist.y + deltaDist.y);
          mapPos := mapPos.(y := mapPos.y + step.y);
          side := AxisY;
          maxSide := sideDist.y - deltaDist.y;
        } else {
          sideDist := sideDist.(z := sideDist.z + deltaDist.z);
          mapPos := mapPos.(z := mapPos.z + step.z);
          side := AxisZ;
          maxSide := sideDist.z - deltaDist.z;
        }
      }
      traveled := maxSide;
      assert DdaState(mapPos, sideDist, traveled, side) == Advance(before, dir);
      AdvanceProgress(before, dir);

      if mapPos.x < 0 || mapPos.x >= CHUNK_SIZE ||
         mapPos.y < 0 || mapPos.y >= WORLD_HEIGHT ||
         mapPos.z < 0 || mapPos.z >= CHUNK_SIZE {
        break;
      }

      if g[mapPos.x][mapPos.y][mapPos.z] != Air {
        var normal := match side
          case AxisX => Vec3i(-step.x, 0, 0)
          case AxisY => Vec3i(0, -step.y, 0)
          case AxisZ => Vec3i(0, 0, -step.z);
        r := Hit(mapPos, normal);
        return;
      }
    }
  }
}
