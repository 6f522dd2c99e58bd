/** The vertex list of a frame and the queue of atlas tiles waiting for upload
    (`Scene` in `nari-canvas/src/lib.rs`). Every quad is emitted as the six vertices
    v00, v01, v11, v11, v10, v00: two triangles sharing the diagonal v00-v11. */
module Scene {
  import opened CanvasTypes
  import OchreTypes
  import Layout
  import Atlas

  /** Six vertices of an axis-aligned quad; the `x0` corners carry `c0`, the `x1` corners `c1`. */
  function Quad(x0: int, y0: int, x1: int, y1: int, page: nat,
                t00: nat, t01: nat, t11: nat, t10: nat, c0: Color, c1: Color): (vs: seq<Vertex>)
    ensures |vs| == 6
  {
    var v00 := Vertex(x0, y0, page, t00, c0);
    var v01 := Vertex(x0, y1, page, t01, c0);
    var v11 := Vertex(x1, y1, page, t11, c1);
    var v10 := Vertex(x1, y0, page, t10, c1);
    [v00, v01, v11, v11, v10, v00]
  }

  /** `hrect`: an untextured quad over `r` shaded from `c0` on its left edge to `c1` on its right. */
  function HrectVertices(r: Layout.Rect, c0: Color, c1: Color): seq<Vertex>
  {
    Quad(r.x0, r.y0, r.x1, r.y1, NoPage, 0, 0, 0, 0, c0, c1)
  }

  /** A tile offset applied from the origin, subtracted when mirrored. */
  function Flip(origin: int, d: int, flip: bool): int
  {
    if flip then origin - d else origin + d
  }

  /** The quad of a solid run in `path_flip`: `tx*8 .. (tx + width)*8` by `ty*8 .. (ty + 1)*8`. */
  function SolidQuad(s: SolidTile, x: int, y: int, c: Color, fx: bool, fy: bool): seq<Vertex>
  {
    Quad(Flip(x, s.tx * OchreTypes.TileSize, fx), Flip(y, s.ty * OchreTypes.TileSize, fy),
         Flip(x, (s.tx + s.width) * OchreTypes.TileSize, fx), Flip(y, (s.ty + 1) * OchreTypes.TileSize, fy),
         NoPage, 0, 0, 0, 0, c, c)
  }

  /** The quad of a mask tile in `path_flip`: one tile on screen, sampling the atlas page of its
      slot at the slot's pixel corners. */
  function MaskQuad(m: MaskTile, pages: seq<Atlas.AtlasPage>, x: int, y: int, c: Color, fx: bool, fy: bool): seq<Vertex>
    requires 0 <= m.atlasTile.page < |pages| && SlotInRange(m.atlasTile)
  {
    var t := OchreTypes.TileSize;
    var u0, v0 := m.atlasTile.tx * t, m.atlasTile.ty * t;
    Quad(Flip(x, m.tx * t, fx), Flip(y, m.ty * t, fy), Flip(x, (m.tx + 1) * t, fx), Flip(y, (m.ty + 1) * t, fy),
         pages[m.atlasTile.page].address,
         EncodeUv(u0, v0), EncodeUv(u0, v0 + t), EncodeUv(u0 + t, v0 + t), EncodeUv(u0 + t, v0), c, c)
  }

  function SolidVertices(ss: seq<SolidTile>, x: int, y: int, c: Color, fx: bool, fy: bool): seq<Vertex>
  {
    if ss == [] then []
    else SolidVertices(ss[..|ss| - 1], x, y, c, fx, fy) + SolidQuad(ss[|ss| - 1], x, y, c, fx, fy)
  }

  function MaskVertices(ms: seq<MaskTile>, pages: seq<Atlas.AtlasPage>, x: int, y: int, c: Color, fx: bool, fy: bool): seq<Vertex>
    requires PagesIn(RasterTiles([], ms), |pages|) && SlotsInRange(RasterTiles([], ms))
  {
    if ms == [] then []
    else
      assert PagesIn(RasterTiles([], ms[..|ms| - 1]), |pages|) && SlotsInRange(RasterTiles([], ms[..|ms| - 1]))
        by { assert forall i :: 0 <= i < |ms| - 1 ==> ms[..|ms| - 1][i] == ms[i]; }
      MaskVertices(ms[..|ms| - 1], pages, x, y, c, fx, fy) + MaskQuad(ms[|ms| - 1], pages, x, y, c, fx, fy)
  }

  /** `path_flip`: the solid runs, then the mask tiles, placed relative to `(x, y)` and mirrored
      on the axes selected by `fx` and `fy`. */
  function PathFlipVertices(t: RasterTiles, pages: seq<Atlas.AtlasPage>, x: int, y: int, c: Color, fx: bool, fy: bool): seq<Vertex>
    requires PagesIn(t, |pages|) && SlotsInRange(t)
  {
    assert PagesIn(RasterTiles([], t.mask), |pages|) && SlotsInRange(RasterTiles([], t.mask));
    SolidVertices(t.solid, x, y, c, fx, fy) + MaskVertices(t.mask, pages, x, y, c, fx, fy)
  }

  /** Reflection of the vertex positions in the vertical line through `x`. */
  function MirrorX(vs: seq<Vertex>, x: int): (ws: seq<Vertex>)
    ensures |ws| == |vs|
  {
    seq(|vs|, i requires 0 <= i < |vs| => vs[i].(x := 2 * x - vs[i].x))
  }

  /** Reflection of the vertex positions in the horizontal line through `y`. */
  function MirrorY(vs: seq<Vertex>, y: int): (ws: seq<Vertex>)
    ensures |ws| == |vs|
  {
    seq(|vs|, i requires 0 <= i < |vs| => vs[i].(y := 2 * y - vs[i].y))
  }

  /** A quad is two triangles sharing the diagonal; every vertex lies on the given page, on one
      of the two rows, and on the left edge with `c0` or the right edge with `c1`. */
  lemma QuadShape(x0: int, y0: int, x1: int, y1: int, page: nat,
                  t00: nat, t01: nat, t11: nat, t10: nat, c0: Color, c1: Color)
    ensures var vs := Quad(x0, y0, x1, y1, page, t00, t01, t11, t10, c0, c1);
      && vs[2] == vs[3] && vs[5] == vs[0]
      && forall k :: 0 <= k < 6 ==>
        && vs[k].page == page && (vs[k].y == y0 || vs[k].y == y1)
        && ((vs[k].x == x0 && vs[k].color == c0) || (vs[k].x == x1 && vs[k].color == c1))
  {
  }

  /** Mirroring moves each vertex to the same distance on the other side of the line and
      changes nothing else about it. */
  lemma MirrorShape(vs: seq<Vertex>, x: int, y: int)
    ensures forall i :: 0 <= i < |vs| ==>
      MirrorX(vs, x)[i].x - x == x - vs[i].x && MirrorX(vs, x)[i].(x := vs[i].x) == vs[i]
    ensures forall i :: 0 <= i < |vs| ==>
      MirrorY(vs, y)[i].y - y == y - vs[i].y && MirrorY(vs, y)[i].(y := vs[i].y) == vs[i]
  {
  }

  /** Mirroring twice in the same line gives the vertices back. */
  lemma MirrorInvolutions(vs: seq<Vertex>, x: int, y: int)
    ensures MirrorX(MirrorX(vs, x), x) == vs && MirrorY(MirrorY(vs, y), y) == vs
  {
  }

  /** The mask quads of the first `i` mask tiles of `t`. */
  function MaskPrefix(t: RasterTiles, pages: seq<Atlas.AtlasPage>, i: nat, x: int, y: int, c: Color, fx: bool, fy: bool): seq<Vertex>
    requires PagesIn(t, |pages|) && SlotsInRange(t) && i <= |t.mask|
  {
    var ms := t.mask[..i];
    assert forall k :: 0 <= k < |ms| ==> ms[k] == t.mask[k];
    MaskVertices(ms, pages, x, y, c, fx, fy)
  }

  lemma MaskPrefixStep(t: RasterTiles, pages: seq<Atlas.AtlasPage>, i: nat, x: int, y: int, c: Color, fx: bool, fy: bool)
    requires PagesIn(t, |pages|) && SlotsInRange(t) && i < |t.mask|
    ensures MaskPrefix(t, pages, i + 1, x, y, c, fx, fy) == MaskPrefix(t, pages, i, x, y, c, fx, fy) + MaskQuad(t.mask[i], pages, x, y, c, fx, fy)
  {
    assert t.mask[..i + 1][..i] == t.mask[..i];
  }

  lemma MaskPrefixAll(t: RasterTiles, pages: seq<Atlas.AtlasPage>, x: int, y: int, c: Color, fx: bool, fy: bool)
    requires PagesIn(t, |pages|) && SlotsInRange(t)
    ensures SolidVertices(t.solid, x, y, c, fx, fy) + MaskPrefix(t, pages, |t.mask|, x, y, c, fx, fy)
      == PathFlipVertices(t, pages, x, y, c, fx, fy)
  {
    assert t.mask[..|t.mask|] == t.mask;
  }

  class Scene {
    var vertices: seq<Vertex>
    var atlasTiles: seq<Atlas.AtlasTile>
    var atlasData: seq<Tile>

    /** `Scene::default()`. */
    constructor ()
      ensures vertices == [] && atlasTiles == [] && atlasData == []
    {
      vertices := [];
      atlasTiles := [];
      atlasData := [];
    }

    /** `hrect`: appends the six vertices of `r` and touches nothing else. */
    method Hrect(r: Layout.Rect, c0: Color, c1: Color)
      modifies this
      ensures vertices == old(vertices) + HrectVertices(r, c0, c1)
      ensures atlasTiles == old(atlasTiles) && atlasData == old(atlasData)
    {
      vertices := vertices + Quad(r.x0, r.y0, r.x1, r.y1, NoPage, 0, 0, 0, 0, c0, c1);
    }

    /** `rect`: `hrect` with one colour on both sides. */
    method Rect(r: Layout.Rect, color: Color)
      modifies this
      ensures vertices == old(vertices) + HrectVertices(r, color, color)
      ensures atlasTiles == old(atlasTiles) && atlasData == old(atlasData)
    {
      Hrect(r, color, color);
    }

    /** `path_flip`: appends one quad per solid run and one per mask tile, and nothing else. */
    method PathFlip(t: RasterTiles, atlas: Atlas.Atlas, x: int, y: int, color: Color, fx: bool, fy: bool)
      requires PagesIn(t, |atlas.pages|) && SlotsInRange(t)
      modifies this
      ensures vertices == old(vertices) + PathFlipVertices(t, atlas.pages, x, y, color, fx, fy)
      ensures atlasTiles == old(atlasTiles) && atlasData == old(atlasData)
    {
      MaskPrefixAll(t, atlas.pages, x, y, color, fx, fy);
      PushSolids(t.solid, x, y, color, fx, fy);
      PushMasks(t, atlas, x, y, color, fx, fy);
    }

    /** The first loop of `path_flip`: one quad per solid run. */
    method PushSolids(ss: seq<SolidTile>, x: int, y: int, color: Color, fx: bool, fy: bool)
      modifies this
      ensures vertices == old(vertices) + SolidVertices(ss, x, y, color, fx, fy)
      ensures atlasTiles == old(atlasTiles) && atlasData == old(atlasData)
    {
      for i := 0 to |ss|
        invariant vertices == old(vertices) + SolidVertices(ss[..i], x, y, color, fx, fy)
        invariant atlasTiles == old(atlasTiles) && atlasData == old(atlasData)
      {
        assert ss[..i + 1][..i] == ss[..i];
        PushSolid(ss[i], x, y, color, fx, fy);
      }
      assert ss[..|ss|] == ss;
    }

    /** The second loop of `path_flip`: one quad per mask tile. */
    method PushMasks(t: RasterTiles, atlas: Atlas.Atlas, x: int, y: int, color: Color, fx: bool, fy: bool)
      requires PagesIn(t, |atlas.pages|) && SlotsInRange(t)
      modifies this
      ensures vertices == old(vertices) + MaskPrefix(t, atlas.pages, |t.mask|, x, y, color, fx, fy)
      ensures atlasTiles == old(atlasTiles) && atlasData == old(atlasData)
    {
      for i := 0 to |t.mask|
        invariant vertices == old(vertices) + MaskPrefix(t, atlas.pages, i, x, y, color, fx, fy)
        invariant atlasTiles == old(atlasTiles) && atlasData == old(atlasData)
      {
        MaskPrefixStep(t, atlas.pages, i, x, y, color, fx, fy);
        PushMask(t.mask[i], atlas, x, y, color, fx, fy);
      }
    }

    /** One solid run of `path_flip`. */
    method PushSolid(s: SolidTile, x: int, y: int, color: Color, fx: bool, fy: bool)
      modifies this
      ensures vertices == old(vertices) + SolidQuad(s, x, y, color, fx, fy)
      ensures atlasTiles == old(atlasTiles) && atlasData == old(atlasData)
    {
      var size := OchreTypes.TileSize;
      var x0 := if fx then x - s.tx * size else x + s.tx * size;
      var x1 := if fx then x - (s.tx + s.width) * size else x + (s.tx + s.width) * size;
      var y0 := if fy then y - s.ty * size else y + s.ty * size;
      var y1 := if fy then y - (s.ty + 1) * size else y + (s.ty + 1) * size;
      vertices := vertices + Quad(x0, y0, x1, y1, NoPage, 0, 0, 0, 0, color, color);
    }

    /** One mask tile of `path_flip`. */
    method PushMask(m: MaskTile, atlas: Atlas.Atlas, x: int, y: int, color: Color, fx: bool, fy: bool)
      requires 0 <= m.atlasTile.page < |atlas.pages| && SlotInRange(m.atlasTile)
      modifies this
      ensures vertices == old(vertices) + MaskQuad(m, atlas.pages, x, y, color, fx, fy)
      ensures atlasTiles == old(atlasTiles) && atlasData == old(atlasData)
    {
      var size := OchreTypes.TileSize;
      var x0 := if fx then x - m.tx * size else x + m.tx * size;
      var x1 := if fx then x - (m.tx + 1) * size else x + (m.tx + 1) * size;
      var y0 := if fy then y - m.ty * size else y + m.ty * size;
      var y1 := if fy then y - (m.ty + 1) * size else y + (m.ty + 1) * size;
      var page := atlas.pages[m.atlasTile.page].address;
      var tx, ty := m.atlasTile.tx, m.atlasTile.ty;
      var uv00 := EncodeUv(tx * size, ty * size);
      var uv01 := EncodeUv(tx * size, (ty + 1) * size);
      var uv11 := EncodeUv((tx + 1) * size, (ty + 1) * size);
      var uv10 := EncodeUv((tx + 1) * size, ty * size);
      vertices := vertices + Quad(x0, y0, x1, y1, page, uv00, uv01, uv11, uv10, color, color);
    }
  }

  /** `hrect` draws the four corners of `r` as two triangles sharing the diagonal v00-v11; the
      left corners carry `c0`, the right ones `c1`, and none samples the atlas. */
  lemma HrectShape(r: Layout.Rect, c0: Color, c1: Color)
    ensures var vs := HrectVertices(r, c0, c1);
      && |vs| == 6 && vs[2] == vs[3] && vs[5] == vs[0]
      && (forall k :: 0 <= k < 6 ==> vs[k].page == NoPage && vs[k].tile == 0)
      && (forall k :: 0 <= k < 6 ==> (vs[k].x == r.x0 && vs[k].color == c0) || (vs[k].x == r.x1 && vs[k].color == c1))
      && (set k | 0 <= k < 6 :: (vs[k].x, vs[k].y)) == {(r.x0, r.y0), (r.x0, r.y1), (r.x1, r.y1), (r.x1, r.y0)}
  {
    var vs := HrectVertices(r, c0, c1);
    assert (r.x0, r.y0) == (vs[0].x, vs[0].y) && (r.x0, r.y1) == (vs[1].x, vs[1].y);
    assert (r.x1, r.y1) == (vs[2].x, vs[2].y) && (r.x1, r.y0) == (vs[4].x, vs[4].y);
  }

  /** `path_flip` emits six vertices per solid run and per mask tile. */
  lemma {:induction false} PathFlipLength(t: RasterTiles, pages: seq<Atlas.AtlasPage>, x: int, y: int, c: Color, fx: bool, fy: bool)
    requires PagesIn(t, |pages|) && SlotsInRange(t)
    ensures |PathFlipVertices(t, pages, x, y, c, fx, fy)| == 6 * (|t.solid| + |t.mask|)
  {
    assert PagesIn(RasterTiles([], t.mask), |pages|) && SlotsInRange(RasterTiles([], t.mask));
    SolidLength(t.solid, x, y, c, fx, fy);
    MaskLength(t.mask, pages, x, y, c, fx, fy);
  }

  lemma {:induction false} SolidLength(ss: seq<SolidTile>, x: int, y: int, c: Color, fx: bool, fy: bool)
    ensures |SolidVertices(ss, x, y, c, fx, fy)| == 6 * |ss|
  {
    if ss != [] {
      SolidLength(ss[..|ss| - 1], x, y, c, fx, fy);
    }
  }

  lemma {:induction false} MaskLength(ms: seq<MaskTile>, pages: seq<Atlas.AtlasPage>, x: int, y: int, c: Color, fx: bool, fy: bool)
    requires PagesIn(RasterTiles([], ms), |pages|) && SlotsInRange(RasterTiles([], ms))
    ensures |MaskVertices(ms, pages, x, y, c, fx, fy)| == 6 * |ms|
  {
    if ms != [] {
      var init := ms[..|ms| - 1];
      assert forall i :: 0 <= i < |init| ==> init[i] == ms[i];
      MaskLength(init, pages, x, y, c, fx, fy);
    }
  }

  lemma MirrorXAppend(a: seq<Vertex>, b: seq<Vertex>, x: int)
    ensures MirrorX(a + b, x) == MirrorX(a, x) + MirrorX(b, x)
  {
  }

  lemma MirrorYAppend(a: seq<Vertex>, b: seq<Vertex>, y: int)
    ensures MirrorY(a + b, y) == MirrorY(a, y) + MirrorY(b, y)
  {
  }

  /** Flipping horizontally mirrors every vertex of a solid run in the line through `x`. */
  lemma {:induction false} SolidMirror(ss: seq<SolidTile>, x: int, y: int, c: Color, fy: bool)
    ensures SolidVertices(ss, x, y, c, true, fy) == MirrorX(SolidVertices(ss, x, y, c, false, fy), x)
  {
    if ss != [] {
      var init := ss[..|ss| - 1];
      SolidMirror(init, x, y, c, fy);
      MirrorXAppend(SolidVertices(init, x, y, c, false, fy), SolidQuad(ss[|ss| - 1], x, y, c, false, fy), x);
    }
  }

  lemma {:induction false} MaskMirror(ms: seq<MaskTile>, pages: seq<Atlas.AtlasPage>, x: int, y: int, c: Color, fy: bool)
    requires PagesIn(RasterTiles([], ms), |pages|) && SlotsInRange(RasterTiles([], ms))
    ensures MaskVertices(ms, pages, x, y, c, true, fy) == MirrorX(MaskVertices(ms, pages, x, y, c, false, fy), x)
  {
    if ms != [] {
      var init := ms[..|ms| - 1];
      assert forall i :: 0 <= i < |init| ==> init[i] == ms[i];
      MaskMirror(init, pages, x, y, c, fy);
      MirrorXAppend(MaskVertices(init, pages, x, y, c, false, fy), MaskQuad(ms[|ms| - 1], pages, x, y, c, false, fy), x);
    }
  }

  /** `flip_x` is a mirror image: the flipped path is the unflipped one reflected in the
      vertical line through the anchor `x`, with the same texels and colours. */
  lemma PathFlipMirrorX(t: RasterTiles, pages: seq<Atlas.AtlasPage>, x: int, y: int, c: Color, fy: bool)
    requires PagesIn(t, |pages|) && SlotsInRange(t)
    ensures PathFlipVertices(t, pages, x, y, c, true, fy) == MirrorX(PathFlipVertices(t, pages, x, y, c, false, fy), x)
  {
    assert PagesIn(RasterTiles([], t.mask), |pages|) && SlotsInRange(RasterTiles([], t.mask));
    SolidMirror(t.solid, x, y, c, fy);
    MaskMirror(t.mask, pages, x, y, c, fy);
    MirrorXAppend(SolidVertices(t.solid, x, y, c, false, fy), MaskVertices(t.mask, pages, x, y, c, false, fy), x);
  }

  lemma {:induction false} SolidMirrorY(ss: seq<SolidTile>, x: int, y: int, c: Color, fx: bool)
    ensures SolidVertices(ss, x, y, c, fx, true) == MirrorY(SolidVertices(ss, x, y, c, fx, false), y)
  {
    if ss != [] {
      var init := ss[..|ss| - 1];
      SolidMirrorY(init, x, y, c, fx);
      MirrorYAppend(SolidVertices(init, x, y, c, fx, false), SolidQuad(ss[|ss| - 1], x, y, c, fx, false), y);
    }
  }

  lemma {:induction false} MaskMirrorY(ms: seq<MaskTile>, pages: seq<Atlas.AtlasPage>, x: int, y: int, c: Color, fx: bool)
    requires PagesIn(RasterTiles([], ms), |pages|) && SlotsInRange(RasterTiles([], ms))
    ensures MaskVertices(ms, pages, x, y, c, fx, true) == MirrorY(MaskVertices(ms, pages, x, y, c, fx, false), y)
  {
    if ms != [] {
      var init := ms[..|ms| - 1];
      assert forall i :: 0 <= i < |init| ==> init[i] == ms[i];
      MaskMirrorY(init, pages, x, y, c, fx);
      MirrorYAppend(MaskVertices(init, pages, x, y, c, fx, false), MaskQuad(ms[|ms| - 1], pages, x, y, c, fx, false), y);
    }
  }

  /** `flip_y` mirrors in the horizontal line through the anchor `y`. */
  lemma PathFlipMirrorY(t: RasterTiles, pages: seq<Atlas.AtlasPage>, x: int, y: int, c: Color, fx: bool)
    requires PagesIn(t, |pages|) && SlotsInRange(t)
    ensures PathFlipVertices(t, pages, x, y, c, fx, true) == MirrorY(PathFlipVertices(t, pages, x, y, c, fx, false), y)
  {
    assert PagesIn(RasterTiles([], t.mask), |pages|) && SlotsInRange(RasterTiles([], t.mask));
    SolidMirrorY(t.solid, x, y, c, fx);
    MaskMirrorY(t.mask, pages, x, y, c, fx);
    MirrorYAppend(SolidVertices(t.solid, x, y, c, fx, false), MaskVertices(t.mask, pages, x, y, c, fx, false), y);
  }

  /** Each vertex of a mask quad samples the atlas page of its slot, at the texel that lies as
      far from the slot's corner as the vertex lies from the tile's corner on screen (negated
      on a mirrored axis): the tile is drawn unscaled from its slot. */
  lemma MaskTexels(m: MaskTile, pages: seq<Atlas.AtlasPage>, x: int, y: int, c: Color, fx: bool, fy: bool)
    requires 0 <= m.atlasTile.page < |pages| && SlotInRange(m.atlasTile)
    ensures var vs := MaskQuad(m, pages, x, y, c, fx, fy);
      var sx, sy := if fx then -1 else 1, if fy then -1 else 1;
      forall k :: 0 <= k < 6 ==>
        && vs[k].page == pages[m.atlasTile.page].address && vs[k].color == c
        && vs[k].x - Flip(x, m.tx * OchreTypes.TileSize, fx) == sx * (vs[k].tile / 0x1_0000 - m.atlasTile.tx * OchreTypes.TileSize)
        && vs[k].y - Flip(y, m.ty * OchreTypes.TileSize, fy) == sy * (vs[k].tile % 0x1_0000 - m.atlasTile.ty * OchreTypes.TileSize)
  {
  }
}
