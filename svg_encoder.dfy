/** The reference encoder of the rasterizer examples (`nari-ochre/examples/svg.rs`):
    `ImageEncoder` paints the tiles the rasterizer reports into one flat byte image that
    covers the path's tile range, row by row with a stride of eight bytes per tile column. */
module SvgEncoder {
  import opened OchreTypes
  import Ochre

  /** `ix + iy * stride` with both coordinates inside a `stride` x `rows` image lies inside
      the image. */
  lemma PixelBound(stride: nat, rows: nat, ix: int, iy: int)
    requires 0 <= ix < stride && 0 <= iy < rows
    ensures 0 <= ix + iy * stride < stride * rows
  {
    assert iy * stride + stride == (iy + 1) * stride;
    assert (iy + 1) * stride <= rows * stride;
  }

  /** A pixel of an earlier row comes before every pixel of a later row. */
  lemma RowOrder(stride: nat, ix: int, iy: int, jx: int, jy: int)
    requires 0 <= ix < stride && 0 <= jx < stride && iy < jy
    ensures ix + iy * stride < jx + jy * stride
  {
    assert jy * stride == (iy + 1) * stride + (jy - iy - 1) * stride;
    assert (jy - iy - 1) * stride >= 0;
  }

  /** Two pixels of one row-major image share an index only if they are the same pixel. */
  lemma PixelInjective(stride: nat, ix: int, iy: int, jx: int, jy: int)
    requires 0 <= ix < stride && 0 <= jx < stride
    ensures ix + iy * stride == jx + jy * stride ==> ix == jx && iy == jy
  {
    if iy < jy {
      RowOrder(stride, ix, iy, jx, jy);
    } else if jy < iy {
      RowOrder(stride, jx, jy, ix, iy);
    }
  }

  /** An 8 x 8 tile of coverage bytes, as the rasterizer hands it to `mask`. */
  predicate IsTile(t: seq<seq<Byte>>)
  {
    |t| == TileSize && forall r :: 0 <= r < |t| ==> |t[r]| == TileSize
  }

  /** The fully covered tile `solid` paints: every byte 255. */
  const FullTile: seq<seq<Byte>> := seq(TileSize, _ => seq(TileSize, _ => 255))

  /** `ImageEncoder { range, image }`. */
  class ImageEncoder {
    const range: Ochre.TileRange
    const image: array<Byte>

    /** Bytes per image row: `(right - left) * TILE_SIZE`, the `nx` of `solid` and `mask`. */
    function Stride(): nat
      reads this
      requires range.left <= range.right
    {
      (range.right - range.left) * TileSize
    }

    /** Pixel rows of the image: `(bottom - top) * TILE_SIZE`. */
    function Rows(): nat
      reads this
      requires range.top <= range.bottom
    {
      (range.bottom - range.top) * TileSize
    }

    /** The image holds one byte per pixel of the tile range. */
    predicate Valid()
      reads this
    {
      range.left <= range.right && range.top <= range.bottom
      && image.Length == Stride() * Rows()
    }

    /** The byte of pixel `(ix, iy)`, counted from the range's top-left corner. */
    function Pixel(ix: int, iy: int): (k: nat)
      reads this
      requires Valid() && 0 <= ix < Stride() && 0 <= iy < Rows()
      ensures k < image.Length
    {
      PixelBound(Stride(), Rows(), ix, iy);
      ix + iy * Stride()
    }

    /** Pixel `(ix, iy)` lies in tile `(tx, ty)`, both relative to the range. */
    static predicate InTile(tx: int, ty: int, ix: int, iy: int)
    {
      tx * TileSize <= ix < tx * TileSize + TileSize && ty * TileSize <= iy < ty * TileSize + TileSize
    }

    /** Pixel `(ix, iy)` lies in the tile row `ty` and a tile column of `[cx0, cx1)`. */
    static predicate InRun(ty: int, cx0: int, cx1: int, ix: int, iy: int)
    {
      cx0 * TileSize <= ix < cx1 * TileSize && ty * TileSize <= iy < ty * TileSize + TileSize
    }

    /** `ImageEncoder::new`: a `nx * 8 * ny * 8` byte image of the range, every byte 5. */
    constructor(range: Ochre.TileRange)
      requires range.left <= range.right && range.top <= range.bottom
      ensures this.range == range && Valid() && fresh(image)
      ensures forall k :: 0 <= k < image.Length ==> image[k] == 5
    {
      this.range := range;
      var stride := (range.right - range.left) * TileSize;
      var rows := (range.bottom - range.top) * TileSize;
      image := new Byte[stride * rows](_ => 5);
      new;
      assert Stride() == stride && Rows() == rows;
    }

    /** Copies `tile` into the image at tile column `tx` and tile row `ty`; the shared inner
        pixel loops of `solid` and `mask`. */
    method WriteTile(tx: int, ty: int, tile: seq<seq<Byte>>)
      requires Valid() && IsTile(tile)
      requires 0 <= tx && (tx + 1) * TileSize <= Stride() && 0 <= ty && (ty + 1) * TileSize <= Rows()
      modifies image
      ensures forall ix, iy :: 0 <= ix < Stride() && 0 <= iy < Rows() ==>
        image[Pixel(ix, iy)] == if InTile(tx, ty, ix, iy) then tile[iy - ty * TileSize][ix - tx * TileSize]
                                else old(image[Pixel(ix, iy)])
    {
      forall ix, iy, jx, jy | 0 <= ix < Stride() && 0 <= jx < Stride() && 0 <= iy < Rows() && 0 <= jy < Rows()
        ensures Pixel(ix, iy) == Pixel(jx, jy) ==> ix == jx && iy == jy
      {
        PixelInjective(Stride(), ix, iy, jx, jy);
      }
      var ox := tx * TileSize;
      var oy := ty * TileSize;
      for py := 0 to TileSize
        invariant forall ix, iy :: 0 <= ix < Stride() && 0 <= iy < Rows() ==>
          image[Pixel(ix, iy)] == if InTile(tx, ty, ix, iy) && iy < oy + py then tile[iy - oy][ix - ox]
                                  else old(image[Pixel(ix, iy)])
      {
        for px := 0 to TileSize
          invariant forall ix, iy :: 0 <= ix < Stride() && 0 <= iy < Rows() ==>
            image[Pixel(ix, iy)] ==
              if InTile(tx, ty, ix, iy) && (iy < oy + py || (iy == oy + py && ix < ox + px)) then tile[iy - oy][ix - ox]
              else old(image[Pixel(ix, iy)])
        {
          image[Pixel(ox + px, oy + py)] := tile[py][px];
        }
      }
    }

    /** `solid(y, x)`: every pixel of the tiles `x` of tile row `y` becomes 255 and no other
        byte changes. */
    method Solid(y: int, x0: int, x1: int)
      requires Valid()
      requires x0 < x1 ==> range.top <= y < range.bottom && range.left <= x0 && x1 <= range.right
      modifies image
      ensures forall ix, iy :: 0 <= ix < Stride() && 0 <= iy < Rows() ==>
        image[Pixel(ix, iy)] == if InRun(y - range.top, x0 - range.left, x1 - range.left, ix, iy) then 255
                                else old(image[Pixel(ix, iy)])
    {
      var ty := y - range.top;
      var dx := x0;
      while dx < x1
        invariant x0 <= dx && (dx <= x1 || dx == x0)
        invariant forall ix, iy :: 0 <= ix < Stride() && 0 <= iy < Rows() ==>
          image[Pixel(ix, iy)] == if InRun(ty, x0 - range.left, dx - range.left, ix, iy) then 255
                                  else old(image[Pixel(ix, iy)])
      {
        var tx := dx - range.left;
        assert (tx + 1) * TileSize <= Stride() by {
          assert (tx + 1) * TileSize == (dx + 1 - range.left) * TileSize;
        }
        assert (ty + 1) * TileSize <= Rows() by {
          assert (ty + 1) * TileSize == (y + 1 - range.top) * TileSize;
        }
        WriteTile(tx, ty, FullTile);
        dx := dx + 1;
      }
    }

    /** `mask(y, x, mask)`: the pixels of tile `(x, y)` take the tile's coverage bytes, row by
        row, and no other byte changes. */
    method Mask(y: int, x: int, mask: seq<seq<Byte>>)
      requires Valid() && IsTile(mask)
      requires range.top <= y < range.bottom && range.left <= x < range.right
      modifies image
      ensures forall ix, iy :: 0 <= ix < Stride() && 0 <= iy < Rows() ==>
        image[Pixel(ix, iy)] ==
          if InTile(x - range.left, y - range.top, ix, iy)
          then mask[iy - (y - range.top) * TileSize][ix - (x - range.left) * TileSize]
          else old(image[Pixel(ix, iy)])
    {
      var tx := x - range.left;
      var ty := y - range.top;
      assert (tx + 1) * TileSize <= Stride() by {
        assert (tx + 1) * TileSize == (x + 1 - range.left) * TileSize;
      }
      assert (ty + 1) * TileSize <= Rows() by {
        assert (ty + 1) * TileSize == (y + 1 - range.top) * TileSize;
      }
      WriteTile(tx, ty, mask);
    }
  }
}
