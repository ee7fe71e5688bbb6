/** The dense block grid: a 16 x 8 x 16 array of block kinds indexed
    `[x][y][z]`, created all `Air` and seeded with a dirt floor. */
module WorldGrid {
  import opened Blocks

  /** Extent of the world along x and z. */
  const CHUNK_SIZE: int := 16
  /** Extent of the world along y. */
  const WORLD_HEIGHT: int := 8

  /** An integer grid coordinate (also used for steps and face normals). */
  datatype Vec3i = Vec3i(x: int, y: int, z: int)

  function Add(a: Vec3i, b: Vec3i): Vec3i {
    Vec3i(a.x + b.x, a.y + b.y, a.z + b.z)
  }

  /** The bounds test guarding every grid access. */
  predicate InBounds(p: Vec3i) {
    0 <= p.x < CHUNK_SIZE && 0 <= p.y < WORLD_HEIGHT && 0 <= p.z < CHUNK_SIZE
  }

  /** Shape of the nested vectors: 16 columns of 8 rows of 16 cells. */
  predicate IsGrid(g: seq<seq<seq<BlockType>>>) {
    && |g| == CHUNK_SIZE
    && (forall x :: 0 <= x < CHUNK_SIZE ==> |g[x]| == WORLD_HEIGHT)
    && (forall x, y :: 0 <= x < CHUNK_SIZE && 0 <= y < WORLD_HEIGHT ==> |g[x][y]| == CHUNK_SIZE)
  }

  type Grid = g: seq<seq<seq<BlockType>>> | IsGrid(g)
    witness seq(CHUNK_SIZE, x => seq(WORLD_HEIGHT, y => seq(CHUNK_SIZE, z => Air)))

  /** Reads one cell; the source only reads after its own bounds test, so
      reading outside the world is ruled out rather than modelled. */
  function Get(g: Grid, p: Vec3i): BlockType
    requires InBounds(p)
  {
    g[p.x][p.y][p.z]
  }

  /** Two grids agree on every cell other than `p`. */
  ghost predicate SameExcept(g: Grid, h: Grid, p: Vec3i) {
    forall q :: InBounds(q) && q != p ==> Get(h, q) == Get(g, q)
  }

  /** Writes one cell; a write outside the world is dropped. */
  function Set(g: Grid, p: Vec3i, t: BlockType): (r: Grid)
    ensures InBounds(p) ==> Get(r, p) == t
    ensures SameExcept(g, r, p)
    ensures !InBounds(p) ==> r == g
  {
    if InBounds(p) then g[p.x := g[p.x][p.y := g[p.x][p.y][p.z := t]]] else g
  }

  /** Two grids that agree on every cell are the same grid. */
  lemma {:induction false} GridExtensional(g: Grid, h: Grid)
    requires forall p :: InBounds(p) ==> Get(g, p) == Get(h, p)
    ensures g == h
  {
    forall x | 0 <= x < CHUNK_SIZE
      ensures g[x] == h[x]
    {
      forall y | 0 <= y < WORLD_HEIGHT
        ensures g[x][y] == h[x][y]
      {
        forall z | 0 <= z < CHUNK_SIZE
          ensures g[x][y][z] == h[x][y][z]
        {
          assert Get(g, Vec3i(x, y, z)) == Get(h, Vec3i(x, y, z));
        }
      }
    }
  }

  /** The grid as allocated: every cell `Air`. */
  function EmptyWorld(): (g: Grid)
    ensures forall p :: InBounds(p) ==> Get(g, p) == Air
  {
    seq(CHUNK_SIZE, x => seq(WORLD_HEIGHT, y => seq(CHUNK_SIZE, z => Air)))
  }

  /** The grid with its bottom layer (y = 0) replaced by dirt. */
  function Platform(g: Grid): (r: Grid)
    ensures forall x, z :: 0 <= x < CHUNK_SIZE && 0 <= z < CHUNK_SIZE ==> Get(r, Vec3i(x, 0, z)) == Dirt
    ensures forall p :: InBounds(p) && p.y != 0 ==> Get(r, p) == Get(g, p)
  {
    seq(CHUNK_SIZE, x requires 0 <= x < CHUNK_SIZE => g[x][0 := seq(CHUNK_SIZE, z => Dirt)])
  }

  /** The start-up loop over x and z that lays the dirt floor, one cell at
      a time; it yields exactly `Platform(g)`. */
  method InitializePlatform(g: Grid) returns (r: Grid)
    ensures r == Platform(g)
  {
    r := g;
    for x := 0 to CHUNK_SIZE
      invariant forall p :: InBounds(p) && (p.y != 0 || p.x >= x) ==> Get(r, p) == Get(g, p)
      invariant forall p :: InBounds(p) && p.y == 0 && p.x < x ==> Get(r, p) == Dirt
    {
      for z := 0 to CHUNK_SIZE
        invariant forall p :: InBounds(p) && (p.y != 0 || p.x > x || (p.x == x && p.z >= z)) ==> Get(r, p) == Get(g, p)
        invariant forall p :: InBounds(p) && p.y == 0 && (p.x < x || (p.x == x && p.z < z)) ==> Get(r, p) == Dirt
      {
        r := Set(r, Vec3i(x, 0, z), Dirt);
      }
    }
    forall p | InBounds(p)
      ensures Get(r, p) == Get(Platform(g), p)
    {
      if p.y == 0 {
        assert Get(Platform(g), Vec3i(p.x, 0, p.z)) == Dirt;
      }
    }
    GridExtensional(r, Platform(g));
  }

  /** The world the program starts with. */
  function InitialWorld(): Grid {
    Platform(EmptyWorld())
  }

  /** After start-up every floor cell is dirt and every cell above it is air. */
  lemma InitialWorldLayout(p: Vec3i)
    requires InBounds(p)
    ensures Get(InitialWorld(), p) == (if p.y == 0 then Dirt else Air)
  {
    if p.y == 0 {
      assert Get(InitialWorld(), Vec3i(p.x, 0, p.z)) == Dirt;
    }
  }
}
