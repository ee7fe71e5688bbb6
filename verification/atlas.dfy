/** Texture-atlas lookup: the rectangle of the 128 x 128 atlas (cells of
    16 x 16 texels) that textures one face of a block. */
module Atlas {
  import opened Blocks

  /** The faces of a cube as the drawing code names them. */
  datatype Face = Front | Back | LeftFace | RightFace | Top | Bottom

  /** Corners of an atlas rectangle in texture coordinates. */
  datatype FaceUVs = FaceUVs(u0: real, u1: real, v0: real, v1: real)

  /** Width of one atlas cell in texture coordinates: 16 / 128. */
  const TEX_SIZE: real := 16.0 / 128.0

  /** The lookup table. Only dirt distinguishes faces (grass top, plain
      bottom, grass-edged sides), and only dirt's rows run from `v0 = ts`
      down to `v1 = 0`; every other kind runs upward one row per kind, and
      anything else (air) gets the first cell. */
  function GetFaceUVs(t: BlockType, face: Face): (uv: FaceUVs)
    ensures uv.u1 - uv.u0 == TEX_SIZE
    ensures uv.v1 - uv.v0 == TEX_SIZE || uv.v0 - uv.v1 == TEX_SIZE
    ensures 0.0 <= uv.u0 && uv.u1 <= 1.0 && 0.0 <= uv.v0 <= 1.0 && 0.0 <= uv.v1 <= 1.0
    ensures uv.v0 > uv.v1 <==> t == Dirt
  {
    var ts := TEX_SIZE;
    match t
    case Dirt =>
      if face == Top then FaceUVs(2.0 * ts, 3.0 * ts, ts, 0.0)
      else if face == Bottom then FaceUVs(ts, 2.0 * ts, ts, 0.0)
      else FaceUVs(0.0, ts, ts, 0.0)
    case Cobblestone => FaceUVs(0.0, ts, ts, 2.0 * ts)
    case Sand => FaceUVs(0.0, ts, 2.0 * ts, 3.0 * ts)
    case Wood => FaceUVs(0.0, ts, 3.0 * ts, 4.0 * ts)
    case Glass => FaceUVs(0.0, ts, 4.0 * ts, 5.0 * ts)
    case Air => FaceUVs(0.0, ts, 0.0, ts)
  }

  /** Column of the atlas cell a rectangle covers. */
  function Column(uv: FaceUVs): real {
    uv.u0 / TEX_SIZE
  }

  /** Row of the atlas cell a rectangle covers, whichever way V runs. */
  function Row(uv: FaceUVs): real {
    (if uv.v0 < uv.v1 then uv.v0 else uv.v1) / TEX_SIZE
  }

  /** Which atlas cell textures a face: dirt uses cells 2, 1 and 0 of the
      first row for top, bottom and sides; cobblestone, sand, wood and glass
      use the first cell of rows 1 to 4 on every face. */
  lemma AtlasCells(t: BlockType, face: Face)
    ensures var uv := GetFaceUVs(t, face);
      Row(uv) == (match t
                  case Air => 0.0 case Dirt => 0.0 case Cobblestone => 1.0
                  case Sand => 2.0 case Wood => 3.0 case Glass => 4.0)
    ensures var uv := GetFaceUVs(t, face);
      Column(uv) == (if t == Dirt && face == Top then 2.0 else if t == Dirt && face == Bottom then 1.0 else 0.0)
  {
  }

  /** Only dirt looks different on different faces. */
  lemma OnlyDirtDependsOnFace(t: BlockType, f1: Face, f2: Face)
    requires t != Dirt
    ensures GetFaceUVs(t, f1) == GetFaceUVs(t, f2)
  {
  }

  /** Distinct solid kinds are textured from distinct atlas cells, whatever
      the faces. */
  lemma SolidKindsHaveDistinctCells(t1: BlockType, f1: Face, t2: BlockType, f2: Face)
    requires t1 != Air && t2 != Air && t1 != t2
    ensures Row(GetFaceUVs(t1, f1)) != Row(GetFaceUVs(t2, f2)) || Column(GetFaceUVs(t1, f1)) != Column(GetFaceUVs(t2, f2))
  {
    AtlasCells(t1, f1);
    AtlasCells(t2, f2);
  }
}
