/** Concrete casts over the start-up world that pin down edge cases of the
    traversal. */
module Scenarios {
  import opened Blocks
  import opened WorldGrid
  import opened Raycast
  import opened Interaction

  /** One step of the walk through an air cell inside the world leaves the
      outcome of the cast unchanged. */
  lemma StepThroughAir(g: Grid, dir: Vec3r, s: DdaState, maxDist: real)
    requires NonDegenerate(dir)
    requires s.traveled < maxDist
    requires InBounds(Advance(s, dir).mapPos) && Get(g, Advance(s, dir).mapPos) == Air
    ensures CastFrom(g, dir, s, maxDist) == CastFrom(g, dir, Advance(s, dir), maxDist)
  {
  }

  /** The distance test sits at the loop head only: a ray limited to 0.25
      still tests the cell it enters at distance 0.5, and hits it. The
      camera's own cell, solid here, is not reported. */
  lemma ReachOvershoot()
    ensures Get(InitialWorld(), Vec3i(0, 0, 0)) == Dirt
    ensures RayCast(InitialWorld(), Vec3r(0.5, 0.5, 0.5), Vec3r(1.0, 0.01, 0.01), 0.25)
         == Hit(Vec3i(1, 0, 0), Vec3i(-1, 0, 0))
  {
    var dir := Vec3r(1.0, 0.01, 0.01);
    var s := Begin(Vec3r(0.5, 0.5, 0.5), dir);
    assert s.mapPos == Vec3i(0, 0, 0);
    assert s.sideDist == Vec3r(0.5, 50.0, 50.0);
    var n := Advance(s, dir);
    assert n.mapPos == Vec3i(1, 0, 0) && n.traveled == 0.5 && n.side == AxisX;
    InitialWorldLayout(Vec3i(0, 0, 0));
    InitialWorldLayout(Vec3i(1, 0, 0));
  }

  /** The main diagonal pointing down, `(-a, -a, -a)`. */
  function Diagonal(a: real): Vec3r {
    Vec3r(-a, -a, -a)
  }

  /** Three steps of the diagonal walk from a point where all three side
      distances tie: z first, then y, then x. */
  lemma DiagonalRound(a: real, k: int, e: real, t: real)
    requires a > 0.0
    requires 0 <= k <= 3 && 0.0 <= e < REACH && t < REACH
    ensures DeltaDist(Diagonal(a)) == Vec3r(1.0 / a, 1.0 / a, 1.0 / a)
    ensures var d := 1.0 / a;
      CastFrom(InitialWorld(), Diagonal(a), DdaState(Vec3i(4 - k, 5 - k, 4 - k), Vec3r(e, e, e), t, AxisX), REACH)
      == CastFrom(InitialWorld(), Diagonal(a), DdaState(Vec3i(3 - k, 4 - k, 3 - k), Vec3r(e + d, e + d, e + d), e, AxisX), REACH)
  {
    var g := InitialWorld();
    var dir := Diagonal(a);
    var d := 1.0 / a;
    assert d > 0.0;
    assert DeltaDist(dir) == Vec3r(d, d, d);
    assert StepOf(dir) == Vec3i(-1, -1, -1);
    var s0 := DdaState(Vec3i(4 - k, 5 - k, 4 - k), Vec3r(e, e, e), t, AxisX);
    var s1 := DdaState(Vec3i(4 - k, 5 - k, 3 - k), Vec3r(e, e, e + d), e, AxisZ);
    var s2 := DdaState(Vec3i(4 - k, 4 - k, 3 - k), Vec3r(e, e + d, e + d), e, AxisY);
    var s3 := DdaState(Vec3i(3 - k, 4 - k, 3 - k), Vec3r(e + d, e + d, e + d), e, AxisX);
    assert Advance(s0, dir) == s1;
    assert Advance(s1, dir) == s2;
    assert Advance(s2, dir) == s3;
    InitialWorldLayout(s1.mapPos);
    InitialWorldLayout(s2.mapPos);
    InitialWorldLayout(s3.mapPos);
    StepThroughAir(g, dir, s0, REACH);
    StepThroughAir(g, dir, s1, REACH);
    StepThroughAir(g, dir, s2, REACH);
  }

  /** From the start position (4, 5, 4), a ray down the main diagonal passes
      exactly through the corner (0, 1, 0) of the dirt floor. On every
      three-way tie the z step goes first, so the walk leaves the world at
      z = -1 before it reaches y = 0, and the cast misses. This holds for
      the program's initial view direction (-0.5, -0.5, -0.5) and for the
      normalised diagonal alike (any `a` above 3/8). */
  lemma DiagonalThroughCornerMisses(a: real)
    requires a > 0.375
    ensures RayCast(InitialWorld(), Vec3r(4.0, 5.0, 4.0), Diagonal(a), REACH) == Miss
  {
    var d := 1.0 / a;
    assert 3.0 * d < REACH by {
      assert 3.0 * d * a == 3.0;
    }
    var s := Begin(Vec3r(4.0, 5.0, 4.0), Diagonal(a));
    DiagonalRound(a, 0, 0.0, 0.0);
    assert s == DdaState(Vec3i(4, 5, 4), Vec3r(0.0, 0.0, 0.0), 0.0, AxisX);
    DiagonalRound(a, 1, d, 0.0);
    DiagonalRound(a, 2, 2.0 * d, d);
    DiagonalRound(a, 3, 3.0 * d, 2.0 * d);
    var last := DdaState(Vec3i(0, 1, 0), Vec3r(4.0 * d, 4.0 * d, 4.0 * d), 3.0 * d, AxisX);
    assert Advance(last, Diagonal(a)).mapPos == Vec3i(0, 1, -1);
  }
}
