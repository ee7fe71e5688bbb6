/** Block kinds of the voxel world and their display names. */
module Blocks {

  /** The six kinds of block a grid cell can hold; `Air` is the empty cell
      and `Glass` the only transparent kind. */
  datatype BlockType = Air | Dirt | Cobblestone | Sand | Wood | Glass

  /** True for the kinds that are drawn in the transparent pass. */
  predicate IsTransparent(t: BlockType) {
    t == Glass
  }

  /** True for the kinds that are drawn in the opaque pass. */
  predicate IsOpaque(t: BlockType) {
    t != Air && t != Glass
  }

  /** The name shown on the status line; every value that is not one of the
      five solid kinds falls through to "Air". */
  function BlockName(t: BlockType): (name: string)
    ensures |name| >= 3
    ensures name[0] == 'A' <==> t == Air
  {
    match t
    case Dirt => "Dirt"
    case Cobblestone => "Cobblestone"
    case Sand => "Sand"
    case Wood => "Wood"
    case Glass => "Glass"
    case Air => "Air"
  }

  /** Distinct kinds are shown under distinct names, so the name identifies
      the selected block. */
  lemma BlockNameInjective(a: BlockType, b: BlockType)
    requires BlockName(a) == BlockName(b)
    ensures a == b
  {
  }
}
