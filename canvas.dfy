/** The drawing front end (`Canvas` in `nari-canvas/src/lib.rs`): squircles built from one
    cached corner path, text runs drawn from the glyph cache, paths, and the end of a frame.
    The GPU work of a frame is reduced to what it is given: the atlas copies of an upload and
    the vertices drawn. */
module Canvas {
  import opened Wrappers
  import Layout
  import Fxp
  import OchreTypes
  import OchreProps
  import Ochre
  import Atlas
  import Scene
  import Raster
  import Typo
  import Engine
  import opened CanvasTypes

  /** `SquircleKey`: the clamped radius and the smoothing as `fxp6`. */
  datatype SquircleKey = SquircleKey(radius: nat, smoothing: Fxp.Fxp6)

  /** `Squircle`, with its smoothing already converted by `fxp6::from_f32`. */
  datatype Squircle = Squircle(rect: Layout.Rect, radius: nat, smoothing: Fxp.Fxp6)

  /** The corner radius `squircle` draws with: the requested one, at most half the width and
      half the height of the rectangle. */
  function ClampRadius(sq: Squircle): (r: nat)
    requires Layout.WellFormed(sq.rect)
    ensures r <= sq.radius && r <= Layout.Width(sq.rect) / 2 && r <= Layout.Height(sq.rect) / 2
    ensures r == sq.radius || r == Layout.Width(sq.rect) / 2 || r == Layout.Height(sq.rect) / 2
  {
    Layout.Min(Layout.Min(sq.radius, Layout.Width(sq.rect) / 2), Layout.Height(sq.rect) / 2)
  }

  /** The rectangle inset by the radius on all four sides. */
  function Inner(rect: Layout.Rect, r: nat): Layout.Rect
  {
    Layout.ApplyMargin(rect, Layout.Margin(r, r, r, r))
  }

  /** The five rectangles of `squircle`: left, right, top and bottom bands, then the centre. */
  function SquircleRects(rect: Layout.Rect, r: nat): seq<Layout.Rect>
  {
    var inner := Inner(rect, r);
    [ Layout.Rect(rect.x0, inner.x0, inner.y0, inner.y1),
      Layout.Rect(inner.x1, rect.x1, inner.y0, inner.y1),
      Layout.Rect(inner.x0, inner.x1, rect.y0, rect.y0 + r),
      Layout.Rect(inner.x0, inner.x1, rect.y1 - r, rect.y1),
      inner ]
  }

  /** The vertices of `squircle`: the five rectangles, then the corner path at the four inner
      corners, mirrored on both axes at the top left, on `y` at the top right, on `x` at the
      bottom left, and unmirrored at the bottom right. */
  function SquircleVertices(rect: Layout.Rect, r: nat, corner: RasterTiles, pages: seq<Atlas.AtlasPage>, c: Color): seq<Vertex>
    requires Stored(corner, |pages|)
  {
    SquircleRectVertices(rect, r, c) + SquircleCornerVertices(Inner(rect, r), corner, pages, c)
  }

  /** The quads of the five rectangles of a squircle. */
  function SquircleRectVertices(rect: Layout.Rect, r: nat, c: Color): seq<Vertex>
  {
    var rs := SquircleRects(rect, r);
    Scene.HrectVertices(rs[0], c, c) + Scene.HrectVertices(rs[1], c, c) + Scene.HrectVertices(rs[2], c, c)
    + Scene.HrectVertices(rs[3], c, c) + Scene.HrectVertices(rs[4], c, c)
  }

  /** The corner path at the four corners of `inner`, mirrored away from its centre. */
  function SquircleCornerVertices(inner: Layout.Rect, corner: RasterTiles, pages: seq<Atlas.AtlasPage>, c: Color): seq<Vertex>
    requires Stored(corner, |pages|)
  {
    Scene.PathFlipVertices(corner, pages, inner.x0, inner.y0, c, true, true)
    + Scene.PathFlipVertices(corner, pages, inner.x1, inner.y0, c, false, true)
    + Scene.PathFlipVertices(corner, pages, inner.x0, inner.y1, c, true, false)
    + Scene.PathFlipVertices(corner, pages, inner.x1, inner.y1, c, false, false)
  }

  /** A squircle is five quads and four copies of the corner path. */
  lemma SquircleLength(rect: Layout.Rect, r: nat, corner: RasterTiles, pages: seq<Atlas.AtlasPage>, c: Color)
    requires Stored(corner, |pages|)
    ensures |SquircleVertices(rect, r, corner, pages, c)| == 30 + 24 * (|corner.solid| + |corner.mask|)
  {
    var inner := Inner(rect, r);
    Scene.PathFlipLength(corner, pages, inner.x0, inner.y0, c, true, true);
    Scene.PathFlipLength(corner, pages, inner.x1, inner.y0, c, false, true);
    Scene.PathFlipLength(corner, pages, inner.x0, inner.y1, c, true, false);
    Scene.PathFlipLength(corner, pages, inner.x1, inner.y1, c, false, false);
  }

  /** The pixel `(x, y)` lies in the half-open rectangle `r`. */
  predicate Covers(r: Layout.Rect, x: int, y: int)
  {
    r.x0 <= x < r.x1 && r.y0 <= y < r.y1
  }

  /** The pixel lies in one of the four `r` x `r` corner squares of `rect`. */
  predicate InCorner(rect: Layout.Rect, r: nat, x: int, y: int)
  {
    (x < rect.x0 + r || rect.x1 - r <= x) && (y < rect.y0 + r || rect.y1 - r <= y)
  }

  /** With a clamped radius the five rectangles are well formed, tile the rectangle without
      overlapping, and leave uncovered exactly the four corner squares, which the corner paths
      (placed at the inner corners) fill. */
  lemma SquircleRectsTile(sq: Squircle, x: int, y: int)
    requires Layout.WellFormed(sq.rect)
    ensures var r := ClampRadius(sq); var rs := SquircleRects(sq.rect, r);
      && |rs| == 5
      && (forall i :: 0 <= i < 5 ==> Layout.WellFormed(rs[i]))
      && Inner(sq.rect, r) == Layout.Rect(sq.rect.x0 + r, sq.rect.x1 - r, sq.rect.y0 + r, sq.rect.y1 - r)
      && (forall i, j :: 0 <= i < j < 5 ==> !(Covers(rs[i], x, y) && Covers(rs[j], x, y)))
      && (Covers(sq.rect, x, y) ==> ((exists i :: 0 <= i < 5 && Covers(rs[i], x, y)) <==> !InCorner(sq.rect, r, x, y)))
      && (forall i :: 0 <= i < 5 && Covers(rs[i], x, y) ==> Covers(sq.rect, x, y))
  {
    var r := ClampRadius(sq);
    Layout.MarginExactInset(sq.rect, Layout.Margin(r, r, r, r));
    var rs := SquircleRects(sq.rect, r);
    if Covers(sq.rect, x, y) && !InCorner(sq.rect, r, x, y) {
      if x < sq.rect.x0 + r {
        assert Covers(rs[0], x, y);
      } else if sq.rect.x1 - r <= x {
        assert Covers(rs[1], x, y);
      } else if y < sq.rect.y0 + r {
        assert Covers(rs[2], x, y);
      } else if sq.rect.y1 - r <= y {
        assert Covers(rs[3], x, y);
      } else {
        assert Covers(rs[4], x, y);
      }
    }
  }

  /** The quad `text_run` emits for a solid run of a glyph, as written: `x1` adds the pen's `y`,
      `y0` adds the glyph's `x` advance, and `y1` lies a tile above the run's row. */
  function TextSolidQuad(s: SolidTile, advance: int, pen: Typo.Pen): seq<Vertex>
  {
    var t := OchreTypes.TileSize;
    Scene.Quad(s.tx * t + advance, s.ty * t + advance, (s.tx + s.width) * t + pen.y, (s.ty - 1) * t + pen.y,
               NoPage, 0, 0, 0, 0, pen.color, pen.color)
  }

  /** The quad `text_run` emits for a mask tile of a glyph: the tile at the glyph's pen
      position, rows growing upwards from the baseline. */
  function TextMaskQuad(m: MaskTile, pages: seq<Atlas.AtlasPage>, advance: int, pen: Typo.Pen): seq<Vertex>
    requires 0 <= m.atlasTile.page < |pages| && SlotInRange(m.atlasTile)
  {
    var t := OchreTypes.TileSize;
    var u0, v0 := m.atlasTile.tx * t, m.atlasTile.ty * t;
    Scene.Quad(m.tx * t + advance, -m.ty * t + pen.y, (m.tx + 1) * t + advance, -(m.ty + 1) * t + pen.y,
               pages[m.atlasTile.page].address,
               EncodeUv(u0, v0), EncodeUv(u0, v0 + t), EncodeUv(u0 + t, v0 + t), EncodeUv(u0 + t, v0),
               pen.color, pen.color)
  }

  /** The quads `text_run` emits for the first `i` solid runs of a glyph's tiles, as written
      (`TextSolidQuad`). */
  function TextSolids(t: RasterTiles, i: nat, advance: int, pen: Typo.Pen): seq<Vertex>
    requires i <= |t.solid|
  {
    if i == 0 then [] else TextSolids(t, i - 1, advance, pen) + TextSolidQuad(t.solid[i - 1], advance, pen)
  }

  /** The quads of the first `i` solid runs placed as the mask tiles are (`IntendedTextSolidQuad`). */
  function IntendedTextSolids(t: RasterTiles, i: nat, advance: int, pen: Typo.Pen): seq<Vertex>
    requires i <= |t.solid|
  {
    if i == 0 then [] else IntendedTextSolids(t, i - 1, advance, pen) + IntendedTextSolidQuad(t.solid[i - 1], advance, pen)
  }

  /** The quads of the first `i` mask tiles of a glyph's tiles. */
  function TextMasks(t: RasterTiles, i: nat, pages: seq<Atlas.AtlasPage>, advance: int, pen: Typo.Pen): seq<Vertex>
    requires Stored(t, |pages|) && i <= |t.mask|
  {
    if i == 0 then [] else TextMasks(t, i - 1, pages, advance, pen) + TextMaskQuad(t.mask[i - 1], pages, advance, pen)
  }

  /** Where `text_run` places a glyph: the run's start plus the whole pixels of its offset. */
  function GlyphAdvance(px: int, g: Typo.Glyph): int
  {
    px + Fxp.ToI32(Fxp.Trunc(g.offset))
  }

  /** The vertices of one glyph: the solid runs, then the mask tiles, of its cached tiles. */
  function GlyphVertices(size: nat, g: Typo.Glyph, px: int, pen: Typo.Pen,
                         entries: map<Typo.CacheKey, RasterTiles>, pages: seq<Atlas.AtlasPage>): seq<Vertex>
    requires Engine.KeyOf(size, g) in entries && Engine.CacheStored(entries, |pages|)
  {
    var tiles := entries[Engine.KeyOf(size, g)];
    var advance := GlyphAdvance(px, g);
    TextSolids(tiles, |tiles.solid|, advance, pen) + TextMasks(tiles, |tiles.mask|, pages, advance, pen)
  }

  /** One glyph with its solid runs placed as its mask tiles are. */
  function IntendedGlyphVertices(size: nat, g: Typo.Glyph, px: int, pen: Typo.Pen,
                                 entries: map<Typo.CacheKey, RasterTiles>, pages: seq<Atlas.AtlasPage>): seq<Vertex>
    requires Engine.KeyOf(size, g) in entries && Engine.CacheStored(entries, |pages|)
  {
    var tiles := entries[Engine.KeyOf(size, g)];
    var advance := GlyphAdvance(px, g);
    IntendedTextSolids(tiles, |tiles.solid|, advance, pen) + TextMasks(tiles, |tiles.mask|, pages, advance, pen)
  }

  /** The vertices of the first `j` glyphs of cluster `i`. */
  function GlyphsVertices(run: Typo.TextRun, i: nat, j: nat, px: int, pen: Typo.Pen,
                          entries: map<Typo.CacheKey, RasterTiles>, pages: seq<Atlas.AtlasPage>): seq<Vertex>
    requires Engine.RunCached(run, entries) && Engine.CacheStored(entries, |pages|)
    requires i < |run.clusters| && j <= |run.clusters[i].glyphs|
  {
    if j == 0 then
      []
    else
      GlyphsVertices(run, i, j - 1, px, pen, entries, pages)
      + GlyphVertices(run.font.size, run.clusters[i].glyphs[j - 1], px, pen, entries, pages)
  }

  /** The vertices of the first `i` clusters. */
  function ClustersVertices(run: Typo.TextRun, i: nat, px: int, pen: Typo.Pen,
                            entries: map<Typo.CacheKey, RasterTiles>, pages: seq<Atlas.AtlasPage>): seq<Vertex>
    requires Engine.RunCached(run, entries) && Engine.CacheStored(entries, |pages|) && i <= |run.clusters|
  {
    if i == 0 then
      []
    else
      ClustersVertices(run, i - 1, px, pen, entries, pages)
      + GlyphsVertices(run, i - 1, |run.clusters[i - 1].glyphs|, px, pen, entries, pages)
  }

  /** The vertices `text_run` emits: every glyph of every cluster, from the aligned start. */
  function TextRunVertices(run: Typo.TextRun, pen: Typo.Pen,
                           entries: map<Typo.CacheKey, RasterTiles>, pages: seq<Atlas.AtlasPage>): seq<Vertex>
    requires Engine.RunCached(run, entries) && Engine.CacheStored(entries, |pages|)
  {
    ClustersVertices(run, |run.clusters|, pen.x + Typo.OffsetX(run, pen.alignX), pen, entries, pages)
  }

  /** A glyph is drawn at the whole pixels of its offset with the tiles rendered for the
      remaining subpixel fraction, so together they place it exactly at its layout offset. */
  lemma GlyphPlacement(px: int, g: Typo.Glyph)
    ensures 64 * (GlyphAdvance(px, g) - px) + Fxp.Fract(g.offset).raw == g.offset.raw
    ensures 0 <= g.offset.raw - 64 * (GlyphAdvance(px, g) - px) < 64
  {
    Fxp.TruncIsScaledI32(g.offset);
    Fxp.TruncPlusFract(g.offset);
  }

  /** The mask tiles of a glyph are drawn exactly as `path_flip` draws them at the glyph's pen
      position with the `y` axis mirrored. */
  lemma {:induction false} TextMasksFlipped(t: RasterTiles, i: nat, pages: seq<Atlas.AtlasPage>, advance: int, pen: Typo.Pen)
    requires Stored(t, |pages|) && i <= |t.mask|
    ensures TextMasks(t, i, pages, advance, pen) == Scene.MaskPrefix(t, pages, i, advance, pen.y, pen.color, false, true)
  {
    if i > 0 {
      TextMasksFlipped(t, i - 1, pages, advance, pen);
      Scene.MaskPrefixStep(t, pages, i - 1, advance, pen.y, pen.color, false, true);
    }
  }

  /** Solid runs placed as the mask tiles are would be drawn exactly as `path_flip` draws them
      at the glyph's pen position with the `y` axis mirrored. */
  lemma {:induction false} TextSolidsFlipped(t: RasterTiles, i: nat, advance: int, pen: Typo.Pen)
    requires i <= |t.solid|
    ensures IntendedTextSolids(t, i, advance, pen) == Scene.SolidVertices(t.solid[..i], advance, pen.y, pen.color, false, true)
  {
    if i > 0 {
      TextSolidsFlipped(t, i - 1, advance, pen);
      IntendedTextSolidMatchesSolid(t.solid[i - 1], advance, pen);
      assert t.solid[..i][..i - 1] == t.solid[..i - 1];
    }
  }

  /** With the corrected solid placement a glyph of a text run is its cached tiles drawn by
      `path_flip` at the glyph's position, mirrored on `y`: the solid runs and the mask tiles
      line up. */
  lemma GlyphIsPathFlip(size: nat, g: Typo.Glyph, px: int, pen: Typo.Pen,
                        entries: map<Typo.CacheKey, RasterTiles>, pages: seq<Atlas.AtlasPage>)
    requires Engine.KeyOf(size, g) in entries && Engine.CacheStored(entries, |pages|)
    ensures IntendedGlyphVertices(size, g, px, pen, entries, pages)
      == Scene.PathFlipVertices(entries[Engine.KeyOf(size, g)], pages, GlyphAdvance(px, g), pen.y, pen.color, false, true)
  {
    var t := entries[Engine.KeyOf(size, g)];
    TextSolidsFlipped(t, |t.solid|, GlyphAdvance(px, g), pen);
    assert t.solid[..|t.solid|] == t.solid;
    GlyphMasksFlipped(t, pages, GlyphAdvance(px, g), pen);
  }

  /** A glyph as `text_run` draws it: its as-written solid quads, then exactly `path_flip`'s
      mask quads at the glyph's position mirrored on `y`; a glyph without solid runs is
      `path_flip`'s drawing, and it differs from the corrected drawing only in the solid quads. */
  lemma GlyphAsWritten(size: nat, g: Typo.Glyph, px: int, pen: Typo.Pen,
                       entries: map<Typo.CacheKey, RasterTiles>, pages: seq<Atlas.AtlasPage>)
    requires Engine.KeyOf(size, g) in entries && Engine.CacheStored(entries, |pages|)
    ensures var t, advance := entries[Engine.KeyOf(size, g)], GlyphAdvance(px, g);
      && GlyphVertices(size, g, px, pen, entries, pages)
           == TextSolids(t, |t.solid|, advance, pen) + Scene.MaskVertices(t.mask, pages, advance, pen.y, pen.color, false, true)
      && (t.solid == [] ==>
            GlyphVertices(size, g, px, pen, entries, pages)
              == Scene.PathFlipVertices(t, pages, advance, pen.y, pen.color, false, true))
      && (t.solid == [] ==>
            GlyphVertices(size, g, px, pen, entries, pages) == IntendedGlyphVertices(size, g, px, pen, entries, pages))
  {
    var t := entries[Engine.KeyOf(size, g)];
    GlyphMasksFlipped(t, pages, GlyphAdvance(px, g), pen);
  }

  /** The glyph's masks as a whole are `path_flip`'s masks at the pen, mirrored on `y`. */
  lemma GlyphMasksFlipped(t: RasterTiles, pages: seq<Atlas.AtlasPage>, advance: int, pen: Typo.Pen)
    requires Stored(t, |pages|)
    ensures TextMasks(t, |t.mask|, pages, advance, pen) == Scene.MaskVertices(t.mask, pages, advance, pen.y, pen.color, false, true)
  {
    TextMasksFlipped(t, |t.mask|, pages, advance, pen);
    assert t.mask[..|t.mask|] == t.mask;
  }

  /** As written, a one-tile solid run at tile (0, 0) of a glyph drawn at pen (0, 100) does not
      cover the square a mask tile at (0, 0) covers: its corners are not those of that mask. */
  lemma TextSolidMisplaced(pages: seq<Atlas.AtlasPage>)
    requires |pages| > 0
    ensures var pen := Typo.Pen(0, 100, Layout.Positive, Color(0.0, 0.0, 0.0, 1.0));
      var s := TextSolidQuad(SolidTile(0, 0, 1), 0, pen);
      var m := TextMaskQuad(MaskTile(0, 0, Atlas.AtlasTile(0, 0, 0)), pages, 0, pen);
      s[0].y == 0 && m[0].y == 100 && s[2].x == 108 && m[2].x == 8
  {
  }

  /** The solid quad of `text_run` as the mask quads evidently intend it: `tx*8 .. (tx+width)*8`
      from the glyph's advance, rows growing upwards from the pen's baseline, which is how
      `path_flip` draws a solid run with the `y` axis mirrored. */
  function IntendedTextSolidQuad(s: SolidTile, advance: int, pen: Typo.Pen): seq<Vertex>
  {
    var t := OchreTypes.TileSize;
    Scene.Quad(s.tx * t + advance, -s.ty * t + pen.y, (s.tx + s.width) * t + advance, -(s.ty + 1) * t + pen.y,
               NoPage, 0, 0, 0, 0, pen.color, pen.color)
  }

  /** The intended solid quad is `path_flip`'s solid quad at the pen, mirrored on `y`. */
  lemma IntendedTextSolidMatchesSolid(s: SolidTile, advance: int, pen: Typo.Pen)
    ensures IntendedTextSolidQuad(s, advance, pen) == Scene.SolidQuad(s, advance, pen.y, pen.color, false, true)
  {
  }

  /** A one-tile run of the intended solid quad covers exactly the square a mask tile at the same
      position covers. */
  lemma IntendedTextSolidMatchesMask(s: SolidTile, m: MaskTile, pages: seq<Atlas.AtlasPage>, advance: int, pen: Typo.Pen)
    requires 0 <= m.atlasTile.page < |pages| && SlotInRange(m.atlasTile)
    ensures s.width == 1 && s.tx == m.tx && s.ty == m.ty ==>
      var a, b := IntendedTextSolidQuad(s, advance, pen), TextMaskQuad(m, pages, advance, pen);
      forall k :: 0 <= k < 6 ==> a[k].x == b[k].x && a[k].y == b[k].y
  {
  }

  class Canvas {
    const atlas: Atlas.Atlas
    const scene: Scene.Scene
    const rasterizer: Ochre.Rasterizer
    const glyphCache: Typo.GlyphCache
    var squircleCache: map<SquircleKey, RasterTiles>
    /** The bindless address the GPU gives the `n`-th atlas page. */
    const pageAddress: nat -> nat

    /** Between calls no tile waits for upload, and every cached path can be drawn. */
    predicate Valid()
      reads this, atlas, scene, glyphCache
    {
      && Raster.Ready(atlas, scene) && scene.atlasTiles == [] && scene.atlasData == []
      && Engine.CacheStored(glyphCache.entries, |atlas.pages|)
      && Engine.CacheStored(squircleCache, |atlas.pages|)
    }

    constructor (pageAddress: nat -> nat)
      ensures Valid() && fresh(atlas) && fresh(scene) && fresh(rasterizer) && fresh(glyphCache)
      ensures atlas.pages == [] && scene.vertices == [] && glyphCache.entries == map[] && squircleCache == map[]
      ensures this.pageAddress == pageAddress
    {
      atlas := new Atlas.Atlas();
      scene := new Scene.Scene();
      rasterizer := new Ochre.Rasterizer();
      glyphCache := new Typo.GlyphCache();
      squircleCache := map[];
      this.pageAddress := pageAddress;
    }

    /** `squircle`: the corner path is rasterised and uploaded only when its key is missing from
        the squircle cache; then the five rectangles and the four mirrored corners are drawn. */
    method Squircle(sq: Squircle, color: Color, cornerPath: SquircleKey -> Raster.Outline)
      returns (upload: Option<Raster.Upload>)
      requires Valid() && Layout.WellFormed(sq.rect)
      requires forall k :: Raster.Drawable(cornerPath(k).ops, cornerPath(k).close)
      modifies this, rasterizer, atlas, scene
      ensures Valid()
      ensures var key := SquircleKey(ClampRadius(sq), sq.smoothing);
        && squircleCache.Keys == old(squircleCache).Keys + {key}
        && (forall k :: k in old(squircleCache) ==> squircleCache[k] == old(squircleCache)[k])
        && (key in old(squircleCache) ==> upload == None && atlas.pages == old(atlas.pages))
        && scene.vertices == old(scene.vertices) + SquircleVertices(sq.rect, key.radius, squircleCache[key], atlas.pages, color)
    {
      var radius := ClampRadius(sq);
      var key := SquircleKey(radius, sq.smoothing);
      upload := None;
      if key !in squircleCache {
        upload := CacheCorner(key, cornerPath(key));
      }
      var corner := squircleCache[key];
      DrawSquircle(sq.rect, radius, corner, color);
    }

    /** The cache miss of `squircle`: the corner path is rendered, its coverage uploaded, and
        its tiles cached under `key`; nothing is drawn. */
    method CacheCorner(key: SquircleKey, path: Raster.Outline) returns (upload: Option<Raster.Upload>)
      requires Valid() && key !in squircleCache && Raster.Drawable(path.ops, path.close)
      modifies this, rasterizer, atlas, scene
      ensures Valid()
      ensures key in squircleCache && squircleCache == old(squircleCache)[key := squircleCache[key]]
      ensures scene.vertices == old(scene.vertices)
    {
      var tiles, _ := Raster.Render(rasterizer, atlas, scene, pageAddress, path.ops, path.close);
      upload := Raster.UploadAtlas(scene, atlas);
      Engine.CacheStoredGrows(glyphCache.entries, |old(atlas.pages)|, |atlas.pages|);
      Engine.CacheStoredGrows(squircleCache, |old(atlas.pages)|, |atlas.pages|);
      squircleCache := squircleCache[key := tiles];
    }

    /** The drawing half of `squircle`: five rectangles, then the corner at the inner corners. */
    method DrawSquircle(rect: Layout.Rect, radius: nat, corner: RasterTiles, color: Color)
      requires Valid() && Stored(corner, |atlas.pages|)
      modifies scene
      ensures Valid()
      ensures scene.vertices == old(scene.vertices) + SquircleVertices(rect, radius, corner, atlas.pages, color)
    {
      DrawSquircleRects(rect, radius, color);
      var inner := Layout.ApplyMargin(rect, Layout.Margin(radius, radius, radius, radius));
      DrawCorners(inner, corner, color);
    }

    /** The five rectangles of `squircle`. */
    method DrawSquircleRects(rect: Layout.Rect, radius: nat, color: Color)
      requires Valid()
      modifies scene
      ensures Valid()
      ensures scene.vertices == old(scene.vertices) + SquircleRectVertices(rect, radius, color)
    {
      var inner := Layout.ApplyMargin(rect, Layout.Margin(radius, radius, radius, radius));
      ghost var rs := SquircleRects(rect, radius);
      ghost var v := scene.vertices;
      scene.Rect(Layout.Rect(rect.x0, inner.x0, inner.y0, inner.y1), color);
      assert scene.vertices == v + Scene.HrectVertices(rs[0], color, color);
      v := scene.vertices;
      scene.Rect(Layout.Rect(inner.x1, rect.x1, inner.y0, inner.y1), color);
      assert scene.vertices == v + Scene.HrectVertices(rs[1], color, color);
      v := scene.vertices;
      scene.Rect(Layout.Rect(inner.x0, inner.x1, rect.y0, rect.y0 + radius), color);
      assert scene.vertices == v + Scene.HrectVertices(rs[2], color, color);
      v := scene.vertices;
      scene.Rect(Layout.Rect(inner.x0, inner.x1, rect.y1 - radius, rect.y1), color);
      assert scene.vertices == v + Scene.HrectVertices(rs[3], color, color);
      v := scene.vertices;
      scene.Rect(inner, color);
      assert scene.vertices == v + Scene.HrectVertices(rs[4], color, color);
    }

    /** The four `path_flip`s of `squircle`. */
    method DrawCorners(inner: Layout.Rect, corner: RasterTiles, color: Color)
      requires Valid() && Stored(corner, |atlas.pages|)
      modifies scene
      ensures Valid()
      ensures scene.vertices == old(scene.vertices) + SquircleCornerVertices(inner, corner, atlas.pages, color)
    {
      scene.PathFlip(corner, atlas, inner.x0, inner.y0, color, true, true);
      scene.PathFlip(corner, atlas, inner.x1, inner.y0, color, false, true);
      scene.PathFlip(corner, atlas, inner.x0, inner.y1, color, true, false);
      scene.PathFlip(corner, atlas, inner.x1, inner.y1, color, false, false);
    }

    /** `text_run`: every glyph of the run is drawn from its cached tiles at the aligned start
        plus the whole pixels of its offset; a glyph missing from the cache would panic. Solid
        runs get the source's quad (`TextSolidQuad`); the mask tiles are `path_flip`'s
        (`GlyphAsWritten`). */
    method TextRun(pen: Typo.Pen, run: Typo.TextRun)
      requires Valid() && Engine.RunCached(run, glyphCache.entries)
      modifies scene
      ensures Valid()
      ensures scene.vertices == old(scene.vertices) + TextRunVertices(run, pen, glyphCache.entries, atlas.pages)
    {
      var px := pen.x + Typo.OffsetX(run, pen.alignX);
      ghost var entries, pages := glyphCache.entries, atlas.pages;
      for i := 0 to |run.clusters|
        invariant Valid() && glyphCache.entries == entries && atlas.pages == pages
        invariant scene.vertices == old(scene.vertices) + ClustersVertices(run, i, px, pen, entries, pages)
      {
        DrawCluster(pen, run, i, px);
      }
    }

    /** The glyph loop of one cluster in `text_run`. */
    method DrawCluster(pen: Typo.Pen, run: Typo.TextRun, i: nat, px: int)
      requires Valid() && Engine.RunCached(run, glyphCache.entries) && i < |run.clusters|
      modifies scene
      ensures Valid()
      ensures scene.vertices == old(scene.vertices)
        + GlyphsVertices(run, i, |run.clusters[i].glyphs|, px, pen, glyphCache.entries, atlas.pages)
    {
      for j := 0 to |run.clusters[i].glyphs|
        invariant Valid()
        invariant scene.vertices == old(scene.vertices) + GlyphsVertices(run, i, j, px, pen, glyphCache.entries, atlas.pages)
      {
        DrawGlyph(pen, run.font.size, run.clusters[i].glyphs[j], px);
      }
    }

    /** One glyph of `text_run`: its cached solid runs as the source places them, then its
        cached mask tiles, rows growing upwards from the pen's baseline. */
    method DrawGlyph(pen: Typo.Pen, size: nat, glyph: Typo.Glyph, px: int)
      requires Valid() && Engine.KeyOf(size, glyph) in glyphCache.entries
      modifies scene
      ensures Valid()
      ensures scene.vertices == old(scene.vertices) + GlyphVertices(size, glyph, px, pen, glyphCache.entries, atlas.pages)
    {
      var key := (size, Typo.GlyphKey(glyph.id, Fxp.Fract(glyph.offset)));
      var tiles := glyphCache.entries[key];
      var advance := px + Fxp.ToI32(Fxp.Trunc(glyph.offset));
      DrawTextSolids(tiles, advance, pen);
      DrawTextMasks(tiles, advance, pen);
    }

    /** The solid-run loop of one glyph in `text_run`, with the source's mixed-axis quad. */
    method DrawTextSolids(tiles: RasterTiles, advance: int, pen: Typo.Pen)
      requires Valid()
      modifies scene
      ensures Valid()
      ensures scene.vertices == old(scene.vertices) + TextSolids(tiles, |tiles.solid|, advance, pen)
    {
      for k := 0 to |tiles.solid|
        invariant Valid()
        invariant scene.vertices == old(scene.vertices) + TextSolids(tiles, k, advance, pen)
      {
        var s := tiles.solid[k];
        var t := OchreTypes.TileSize;
        var x0 := s.tx * t + advance;
        var x1 := (s.tx + s.width) * t + pen.y;
        var y0 := s.ty * t + advance;
        var y1 := (s.ty - 1) * t + pen.y;
        scene.vertices := scene.vertices + Scene.Quad(x0, y0, x1, y1, NoPage, 0, 0, 0, 0, pen.color, pen.color);
      }
    }

    /** The mask-tile loop of one glyph in `text_run`. */
    method DrawTextMasks(tiles: RasterTiles, advance: int, pen: Typo.Pen)
      requires Valid() && Stored(tiles, |atlas.pages|)
      modifies scene
      ensures Valid()
      ensures scene.vertices == old(scene.vertices) + TextMasks(tiles, |tiles.mask|, atlas.pages, advance, pen)
    {
      for k := 0 to |tiles.mask|
        invariant Valid()
        invariant scene.vertices == old(scene.vertices) + TextMasks(tiles, k, atlas.pages, advance, pen)
      {
        var m := tiles.mask[k];
        var t := OchreTypes.TileSize;
        var page := atlas.pages[m.atlasTile.page].address;
        var u0, v0 := m.atlasTile.tx * t, m.atlasTile.ty * t;
        scene.vertices := scene.vertices + Scene.Quad(m.tx * t + advance, -m.ty * t + pen.y,
          (m.tx + 1) * t + advance, -(m.ty + 1) * t + pen.y, page,
          EncodeUv(u0, v0), EncodeUv(u0, v0 + t), EncodeUv(u0 + t, v0 + t), EncodeUv(u0 + t, v0),
          pen.color, pen.color);
      }
    }

    /** `path`: the tiles drawn at `(x, y)` without mirroring. */
    method Path(tiles: RasterTiles, x: int, y: int, color: Color)
      requires Valid() && Stored(tiles, |atlas.pages|)
      modifies scene
      ensures Valid()
      ensures scene.vertices == old(scene.vertices) + Scene.PathFlipVertices(tiles, atlas.pages, x, y, color, false, false)
    {
      scene.PathFlip(tiles, atlas, x, y, color, false, false);
    }

    /** `build_path`: renders a path and uploads its coverage at once. The result has one mask
        tile per touched tile, in row-major order, and the upload copies exactly their slots,
        the `i`-th mask tile's coverage from offset `i * 64`. */
    method BuildPath(path: Raster.Outline) returns (tiles: RasterTiles, upload: Option<Raster.Upload>)
      requires Valid() && Raster.Drawable(path.ops, path.close)
      modifies rasterizer, atlas, scene
      ensures Valid() && Stored(tiles, |atlas.pages|)
      ensures OchreProps.StrictlyIncreasing(Raster.TileKeys(tiles.mask))
      ensures forall k :: k in Raster.TileKeys(tiles.mask) <==> Ochre.Touched(rasterizer.increments, k)
      ensures upload.None? <==> tiles.mask == []
      ensures upload.Some? ==>
        && |upload.value.copies| == |upload.value.staging| == |tiles.mask|
        && forall i :: 0 <= i < |tiles.mask| ==> upload.value.copies[i] == Raster.CopyOf(i, tiles.mask[i].atlasTile)
      ensures scene.vertices == old(scene.vertices)
    {
      ghost var calls;
      tiles, calls := Raster.Render(rasterizer, atlas, scene, pageAddress, path.ops, path.close);
      ghost var s0 := Raster.EncodeState(RasterTiles([], []), old(atlas.pages), [], []);
      Raster.EncodeQueue(s0, calls, pageAddress);
      upload := Raster.UploadAtlas(scene, atlas);
      Engine.CacheStoredGrows(glyphCache.entries, |old(atlas.pages)|, |atlas.pages|);
      Engine.CacheStoredGrows(squircleCache, |old(atlas.pages)|, |atlas.pages|);
    }

    /** `build_text_run`: lays the text out, renders the glyphs missing from the cache, and
        uploads whatever they queued. */
    method BuildTextRun(font: Typo.FontScaled, shaped: seq<Engine.ShapedCluster>, outline: Typo.CacheKey -> Raster.Outline)
      returns (run: Typo.TextRun, upload: Option<Raster.Upload>)
      requires Valid() && Engine.Fits(shaped)
      requires forall k :: Raster.Drawable(outline(k).ops, outline(k).close)
      modifies glyphCache, rasterizer, atlas, scene
      ensures Valid()
      ensures Engine.IsLayout(font, shaped, run) && Engine.RunCached(run, glyphCache.entries)
      ensures glyphCache.entries.Keys == old(glyphCache.entries).Keys + Engine.RunKeys(run)
      ensures forall k :: k in old(glyphCache.entries) ==> glyphCache.entries[k] == old(glyphCache.entries)[k]
      ensures Engine.RunKeys(run) <= old(glyphCache.entries).Keys ==> upload == None && atlas.pages == old(atlas.pages)
      ensures scene.vertices == old(scene.vertices)
    {
      ghost var rendered;
      run, rendered := Engine.BuildTextRun(font, shaped, glyphCache, outline, rasterizer, atlas, scene, pageAddress);
      if rendered != [] {
        assert rendered[0] in rendered;
      }
      upload := Raster.UploadAtlas(scene, atlas);
      Engine.CacheStoredGrows(squircleCache, |old(atlas.pages)|, |atlas.pages|);
    }

    /** `text`: `build_text_run`, then `text_run` with the run just built. */
    method Text(font: Typo.FontScaled, shaped: seq<Engine.ShapedCluster>, pen: Typo.Pen, outline: Typo.CacheKey -> Raster.Outline)
      returns (ghost run: Typo.TextRun)
      requires Valid() && Engine.Fits(shaped)
      requires forall k :: Raster.Drawable(outline(k).ops, outline(k).close)
      modifies glyphCache, rasterizer, atlas, scene
      ensures Valid()
      ensures Engine.IsLayout(font, shaped, run) && Engine.RunCached(run, glyphCache.entries)
      ensures scene.vertices == old(scene.vertices) + TextRunVertices(run, pen, glyphCache.entries, atlas.pages)
    {
      var built, _ := BuildTextRun(font, shaped, outline);
      run := built;
      TextRun(pen, built);
    }

    /** `composition_end` without its GPU recording: the pending upload (there is none between
        the calls of this class), the vertices drawn (no draw when there are none), and an
        empty vertex list for the next frame. */
    method CompositionEnd() returns (upload: Option<Raster.Upload>, drawn: Option<seq<Vertex>>)
      requires Valid()
      modifies scene
      ensures Valid()
      ensures upload == None
      ensures drawn.None? <==> old(scene.vertices) == []
      ensures drawn.Some? ==> drawn.value == old(scene.vertices)
      ensures scene.vertices == []
    {
      upload := Raster.UploadAtlas(scene, atlas);
      drawn := if scene.vertices == [] then None else Some(scene.vertices);
      scene.vertices := [];
    }
  }
}
