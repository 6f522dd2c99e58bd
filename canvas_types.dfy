/** Values shared by the canvas (`nari-canvas/src/lib.rs`): vertices of the mask pipeline,
    the tiles a rasterised path leaves behind, and the texel encoding of atlas corners. */
module CanvasTypes {
  import OchreTypes
  import Atlas

  /** `Color = [f32; 4]`: an opaque payload the canvas only passes through. */
  datatype Color = Color(r: real, g: real, b: real, a: real)

  /** An 8 x 8 coverage tile (`Tile<u8>`), eight rows of eight bytes. */
  type Tile = seq<seq<OchreTypes.Byte>>

  /** `Vertex { pos: [x, y], page, tile, color }`. */
  datatype Vertex = Vertex(x: int, y: int, page: nat, tile: nat, color: Color)

  /** `!0u32`: the page of vertices that sample no atlas page (solid fill). */
  const NoPage: nat := 0xFFFF_FFFF

  /** `RasterTileSolid`: a run of `width` fully covered tiles starting at tile `(tx, ty)`. */
  datatype SolidTile = SolidTile(tx: int, ty: int, width: int)

  /** `RasterTileMask`: a partially covered tile and the atlas slot holding its coverage. */
  datatype MaskTile = MaskTile(tx: int, ty: int, atlasTile: Atlas.AtlasTile)

  /** `RasterTiles`: what rendering one path produces. */
  datatype RasterTiles = RasterTiles(solid: seq<SolidTile>, mask: seq<MaskTile>)

  /** Every mask tile of `t` refers to one of the first `n` atlas pages. */
  predicate PagesIn(t: RasterTiles, n: nat)
  {
    forall i :: 0 <= i < |t.mask| ==> 0 <= t.mask[i].atlasTile.page < n
  }

  /** An atlas slot as stored in `AtlasTile`: `u16` page, `u8` column and row. */
  predicate SlotInRange(t: Atlas.AtlasTile)
  {
    0 <= t.page < 0x1_0000 && 0 <= t.tx < 256 && 0 <= t.ty < 256
  }

  predicate SlotsInRange(t: RasterTiles)
  {
    forall i :: 0 <= i < |t.mask| ==> SlotInRange(t.mask[i].atlasTile)
  }

  /** Tiles whose slots are in range and on one of the first `n` pages: what `path_flip` needs. */
  predicate Stored(t: RasterTiles, n: nat)
  {
    PagesIn(t, n) && SlotsInRange(t)
  }

  /** `encode_uv(u, v) = (u as u32) << 16 | v as u32`; for `v < 2^16` the `|` adds, and
      both halves can be read back. */
  function EncodeUv(u: nat, v: nat): (r: nat)
    requires u < 0x1_0000 && v < 0x1_0000
    ensures r < 0x1_0000_0000
    ensures r / 0x1_0000 == u && r % 0x1_0000 == v
  {
    u * 0x1_0000 + v
  }
}
