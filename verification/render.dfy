/** The per-frame draw order: one pass over the grid drawing every opaque
    block, then a second pass drawing every glass block, each pass visiting
    cells with x outermost, then y, then z, all ascending. */
module RenderOrder {
  import opened Blocks
  import opened WorldGrid

  /** One `drawCube` call: the cell drawn and its kind. */
  datatype DrawInstruction = DrawInstruction(pos: Vec3i, kind: BlockType)

  /** The two passes of a frame. */
  datatype Pass = OpaquePass | GlassPass

  /** Whether a cell of kind `t` is drawn in pass `p`. */
  predicate DrawnIn(p: Pass, t: BlockType) {
    match p
    case OpaquePass => IsOpaque(t)
    case GlassPass => IsTransparent(t)
  }

  /** Number of cells in the world. */
  const CELL_COUNT: int := CHUNK_SIZE * WORLD_HEIGHT * CHUNK_SIZE

  /** Position of a cell in the loop order. */
  function Index(p: Vec3i): int {
    (p.x * WORLD_HEIGHT + p.y) * CHUNK_SIZE + p.z
  }

  /** The cell visited at step `i` of a pass. */
  function CellAt(i: int): (p: Vec3i)
    requires 0 <= i < CELL_COUNT
    ensures InBounds(p) && Index(p) == i
  {
    Vec3i(i / (WORLD_HEIGHT * CHUNK_SIZE), (i / CHUNK_SIZE) % WORLD_HEIGHT, i % CHUNK_SIZE)
  }

  /** Lexicographic order on (x, y, z). */
  predicate LexLess(p: Vec3i, q: Vec3i) {
    p.x < q.x || (p.x == q.x && (p.y < q.y || (p.y == q.y && p.z < q.z)))
  }

  /** On cells of the world, the loop order is the lexicographic order. */
  lemma IndexOrderIsLex(p: Vec3i, q: Vec3i)
    requires InBounds(p) && InBounds(q)
    ensures Index(p) < Index(q) <==> LexLess(p, q)
  {
  }

  lemma IndexInjective(p: Vec3i, q: Vec3i)
    requires InBounds(p) && InBounds(q) && Index(p) == Index(q)
    ensures p == q
  {
    IndexOrderIsLex(p, q);
    IndexOrderIsLex(q, p);
  }

  /** The instructions a pass emits for the first `n` cells in loop order. */
  function PassUpTo(g: Grid, p: Pass, n: nat): seq<DrawInstruction>
    requires n <= CELL_COUNT
  {
    if n == 0 then []
    else
      var c := CellAt(n - 1);
      PassUpTo(g, p, n - 1) + (if DrawnIn(p, Get(g, c)) then [DrawInstruction(c, Get(g, c))] else [])
  }

  /** A whole pass. */
  function RunPass(g: Grid, p: Pass): seq<DrawInstruction> {
    PassUpTo(g, p, CELL_COUNT)
  }

  /** The draw list of one frame: the opaque pass, then the glass pass. */
  function Frame(g: Grid): seq<DrawInstruction> {
    RunPass(g, OpaquePass) + RunPass(g, GlassPass)
  }

  /** A prefix of a pass draws only cells before `n` that belong to the
      pass, each with its own kind. */
  lemma {:induction false} PassUpToSound(g: Grid, p: Pass, n: nat)
    requires n <= CELL_COUNT
    ensures forall d :: d in PassUpTo(g, p, n) ==>
      InBounds(d.pos) && Index(d.pos) < n && d.kind == Get(g, d.pos) && DrawnIn(p, d.kind)
  {
    if n > 0 {
      PassUpToSound(g, p, n - 1);
    }
  }

  /** A prefix of a pass is strictly increasing in loop order. */
  lemma {:induction false} PassUpToAscending(g: Grid, p: Pass, n: nat)
    requires n <= CELL_COUNT
    ensures forall i, j :: 0 <= i < j < |PassUpTo(g, p, n)| ==>
      Index(PassUpTo(g, p, n)[i].pos) < Index(PassUpTo(g, p, n)[j].pos)
  {
    if n > 0 {
      PassUpToAscending(g, p, n - 1);
      PassUpToSound(g, p, n - 1);
      var prefix := PassUpTo(g, p, n - 1);
      forall i | 0 <= i < |prefix|
        ensures Index(prefix[i].pos) < n - 1
      {
        assert prefix[i] in prefix;
      }
    }
  }

  /** A prefix of a pass draws every cell before `n` that belongs to the
      pass, exactly once. */
  lemma {:induction false} PassUpToComplete(g: Grid, p: Pass, n: nat)
    requires n <= CELL_COUNT
    ensures forall c :: InBounds(c) && Index(c) < n && DrawnIn(p, Get(g, c)) ==>
      multiset(PassUpTo(g, p, n))[DrawInstruction(c, Get(g, c))] == 1
  {
    if n > 0 {
      PassUpToComplete(g, p, n - 1);
      PassUpToSound(g, p, n - 1);
      forall q | InBounds(q) && Index(q) < n && DrawnIn(p, Get(g, q))
        ensures multiset(PassUpTo(g, p, n))[DrawInstruction(q, Get(g, q))] == 1
      {
        CountAfterStep(g, p, n, q);
      }
    }
  }

  /** The inductive step of `PassUpToComplete` for one cell `q`. */
  lemma CountAfterStep(g: Grid, p: Pass, n: nat, q: Vec3i)
    requires 0 < n <= CELL_COUNT
    requires InBounds(q) && Index(q) < n && DrawnIn(p, Get(g, q))
    requires Index(q) < n - 1 ==> multiset(PassUpTo(g, p, n - 1))[DrawInstruction(q, Get(g, q))] == 1
    requires forall d :: d in PassUpTo(g, p, n - 1) ==> Index(d.pos) < n - 1
    ensures multiset(PassUpTo(g, p, n))[DrawInstruction(q, Get(g, q))] == 1
  {
    var c := CellAt(n - 1);
    var prefix := PassUpTo(g, p, n - 1);
    var tail := if DrawnIn(p, Get(g, c)) then [DrawInstruction(c, Get(g, c))] else [];
    var d := DrawInstruction(q, Get(g, q));
    assert multiset(PassUpTo(g, p, n)) == multiset(prefix) + multiset(tail);
    if Index(q) == n - 1 {
      IndexInjective(q, c);
      assert d !in prefix;
    } else {
      assert q != c;
      assert d !in tail;
    }
  }

  /** Every instruction of a frame draws a non-air cell with its own kind;
      every non-air cell is drawn exactly once; and no opaque block is drawn
      after a glass block. */
  lemma FrameOrder(g: Grid)
    ensures forall i :: 0 <= i < |Frame(g)| ==>
      InBounds(Frame(g)[i].pos) && Frame(g)[i].kind == Get(g, Frame(g)[i].pos) && Frame(g)[i].kind != Air
    ensures forall c :: InBounds(c) && Get(g, c) != Air ==>
      multiset(Frame(g))[DrawInstruction(c, Get(g, c))] == 1
    ensures forall i, j :: 0 <= i < j < |Frame(g)| && Frame(g)[i].kind == Glass ==> Frame(g)[j].kind == Glass
  {
    var solid := RunPass(g, OpaquePass);
    var glass := RunPass(g, GlassPass);
    PassUpToSound(g, OpaquePass, CELL_COUNT);
    PassUpToSound(g, GlassPass, CELL_COUNT);
    PassUpToComplete(g, OpaquePass, CELL_COUNT);
    PassUpToComplete(g, GlassPass, CELL_COUNT);
    forall c | InBounds(c) && Get(g, c) != Air
      ensures multiset(Frame(g))[DrawInstruction(c, Get(g, c))] == 1
    {
      var d := DrawInstruction(c, Get(g, c));
      assert multiset(Frame(g)) == multiset(solid) + multiset(glass);
      if Get(g, c) == Glass {
        assert d !in solid;
      } else {
        assert d !in glass;
      }
    }
  }

  /** Within each pass, cells are drawn in strictly ascending lexicographic
      (x, y, z) order. */
  lemma PassIsLexAscending(g: Grid, p: Pass)
    ensures forall i, j :: 0 <= i < j < |RunPass(g, p)| ==> LexLess(RunPass(g, p)[i].pos, RunPass(g, p)[j].pos)
  {
    PassUpToAscending(g, p, CELL_COUNT);
    PassUpToSound(g, p, CELL_COUNT);
    forall i, j | 0 <= i < j < |RunPass(g, p)|
      ensures LexLess(RunPass(g, p)[i].pos, RunPass(g, p)[j].pos)
    {
      assert RunPass(g, p)[i] in RunPass(g, p) && RunPass(g, p)[j] in RunPass(g, p);
      IndexOrderIsLex(RunPass(g, p)[i].pos, RunPass(g, p)[j].pos);
    }
  }

  /** How the loop order advances: along z, then wrapping into the next y
      row, then into the next x slice; the last slice ends the world. */
  lemma IndexSteps(x: int, y: int, z: int)
    ensures Index(Vec3i(x, y, z + 1)) == Index(Vec3i(x, y, z)) + 1
    ensures Index(Vec3i(x, y, CHUNK_SIZE)) == Index(Vec3i(x, y + 1, 0))
    ensures Index(Vec3i(x, WORLD_HEIGHT, 0)) == Index(Vec3i(x + 1, 0, 0))
    ensures Index(Vec3i(0, 0, 0)) == 0 && Index(Vec3i(CHUNK_SIZE, 0, 0)) == CELL_COUNT
  {
  }

  /** Visiting cell `c` extends the pass by `c`'s draw, if it has one. */
  lemma PassUpToStep(g: Grid, p: Pass, c: Vec3i)
    requires InBounds(c)
    ensures Index(c) + 1 <= CELL_COUNT
    ensures PassUpTo(g, p, Index(c) + 1) ==
      PassUpTo(g, p, Index(c)) + (if DrawnIn(p, Get(g, c)) then [DrawInstruction(c, Get(g, c))] else [])
  {
    IndexInjective(c, CellAt(Index(c)));
  }

  /** One pass as the render loop runs it: x outermost, then y, then z,
      emitting a draw for every cell the pass accepts. */
  method DrawPass(g: Grid, p: Pass) returns (list: seq<DrawInstruction>)
    ensures list == RunPass(g, p)
  {
    list := [];
    IndexSteps(0, 0, 0);
    for x := 0 to CHUNK_SIZE
      invariant list == PassUpTo(g, p, Index(Vec3i(x, 0, 0)))
    {
      list := DrawSlice(g, p, x, list);
    }
  }

  /** The middle loop of a pass: the rows `(x, 0, _)` to `(x, 7, _)`. */
  method DrawSlice(g: Grid, p: Pass, x: int, list0: seq<DrawInstruction>) returns (list: seq<DrawInstruction>)
    requires 0 <= x < CHUNK_SIZE
    requires list0 == PassUpTo(g, p, Index(Vec3i(x, 0, 0)))
    ensures list == PassUpTo(g, p, Index(Vec3i(x + 1, 0, 0)))
  {
    list := list0;
    for y := 0 to WORLD_HEIGHT
      invariant list == PassUpTo(g, p, Index(Vec3i(x, y, 0)))
    {
      list := DrawRow(g, p, x, y, list);
      IndexSteps(x, y, CHUNK_SIZE);
    }
    IndexSteps(x, WORLD_HEIGHT, 0);
  }

  /** The innermost loop of a pass: the cells `(x, y, 0)` to `(x, y, 15)`. */
  method DrawRow(g: Grid, p: Pass, x: int, y: int, list0: seq<DrawInstruction>) returns (list: seq<DrawInstruction>)
    requires 0 <= x < CHUNK_SIZE && 0 <= y < WORLD_HEIGHT
    requires list0 == PassUpTo(g, p, Index(Vec3i(x, y, 0)))
    ensures list == PassUpTo(g, p, Index(Vec3i(x, y + 1, 0)))
  {
    list := list0;
    for z := 0 to CHUNK_SIZE
      invariant list == PassUpTo(g, p, Index(Vec3i(x, y, z)))
    {
      list := DrawCell(g, p, Vec3i(x, y, z), list);
      IndexSteps(x, y, z);
    }
    IndexSteps(x, y, CHUNK_SIZE);
  }

  /** The body of the innermost loop: draw cell `c` if the pass accepts it. */
  method DrawCell(g: Grid, p: Pass, c: Vec3i, list0: seq<DrawInstruction>) returns (list: seq<DrawInstruction>)
    requires InBounds(c) && list0 == PassUpTo(g, p, Index(c))
    ensures Index(c) < CELL_COUNT && list == PassUpTo(g, p, Index(c) + 1)
  {
    PassUpToStep(g, p, c);
    list := list0;
    if DrawnIn(p, g[c.x][c.y][c.z]) {
      list := list + [DrawInstruction(c, g[c.x][c.y][c.z])];
    }
  }

  /** A frame as the render loop draws it: the opaque pass, then the glass
      pass. */
  method DrawFrame(g: Grid) returns (list: seq<DrawInstruction>)
    ensures list == Frame(g)
  {
    var solid := DrawPass(g, OpaquePass);
    var glass := DrawPass(g, GlassPass);
    list := solid + glass;
  }
}
