/** Text layout from shaper output and the glyph-cache memoisation of the text engine
    (`nari-canvas/src/engine.rs`). The shaper's clusters, with each glyph advance already in
    `fxp6` units, are an input; so are the glyph outlines FreeType would produce, given per
    cache key. */
module Engine {
  import Fxp
  import opened Typo
  import opened CanvasTypes
  import Raster
  import Ochre
  import Atlas
  import Scene

  /** A glyph of the shaper's output: its id and its advance as `fxp6::from_f32(advance)`. */
  datatype ShapedGlyph = ShapedGlyph(id: nat, advance: int)

  /** A cluster of the shaper's output: where it starts in the text, and its glyphs. */
  datatype ShapedCluster = ShapedCluster(sourceStart: nat, glyphs: seq<ShapedGlyph>)

  function GlyphsSum(gs: seq<ShapedGlyph>): int
  {
    if gs == [] then 0 else GlyphsSum(gs[..|gs| - 1]) + gs[|gs| - 1].advance
  }

  /** The raw `fxp6` sum of the advances of all glyphs of the first `i` clusters. */
  function Before(shaped: seq<ShapedCluster>, i: nat): int
    requires i <= |shaped|
  {
    if i == 0 then 0 else Before(shaped, i - 1) + GlyphsSum(shaped[i - 1].glyphs)
  }

  /** The raw `fxp6` sum of the advances of all glyphs before glyph `j` of cluster `i`. */
  function Offset(shaped: seq<ShapedCluster>, i: nat, j: nat): int
    requires i < |shaped| && j <= |shaped[i].glyphs|
  {
    Before(shaped, i) + GlyphsSum(shaped[i].glyphs[..j])
  }

  /** The running advance never leaves `i32` (beyond it the source's `+=` panics in debug builds). */
  predicate Fits(shaped: seq<ShapedCluster>)
  {
    forall i, j :: 0 <= i < |shaped| && 0 <= j <= |shaped[i].glyphs| ==>
      -0x8000_0000 <= Offset(shaped, i, j) < 0x8000_0000
  }

  /** Cluster `c` is cluster `i` of the shaper's output laid out: same byte position and glyph
      ids, each glyph at the sum of the advances before it, and advances running from the
      whole pixels reached before its glyphs to those reached after them. */
  predicate LaidOut(shaped: seq<ShapedCluster>, i: nat, c: Cluster)
    requires Fits(shaped) && i < |shaped|
  {
    var gs := shaped[i].glyphs;
    && c.bytePos == shaped[i].sourceStart
    && |c.glyphs| == |gs|
    && (forall j :: 0 <= j < |gs| ==> c.glyphs[j] == Glyph(gs[j].id, Fxp.Fxp6(Offset(shaped, i, j))))
    && c.advStart == Fxp.ToI32(Fxp.Fxp6(Offset(shaped, i, 0)))
    && c.advEnd == Fxp.ToI32(Fxp.Fxp6(Offset(shaped, i, |gs|)))
  }

  /** `layout_text`'s result for the shaper output `shaped`; the width is the total advance. */
  predicate IsLayout(font: FontScaled, shaped: seq<ShapedCluster>, run: TextRun)
    requires Fits(shaped)
  {
    && run.font == font && |run.clusters| == |shaped|
    && (forall i :: 0 <= i < |shaped| ==> LaidOut(shaped, i, run.clusters[i]))
    && run.width == Before(shaped, |shaped|) as real / 64.0
  }

  lemma BeforeStep(shaped: seq<ShapedCluster>, i: nat)
    requires i < |shaped|
    ensures Offset(shaped, i, |shaped[i].glyphs|) == Before(shaped, i + 1)
    ensures Offset(shaped, i, 0) == Before(shaped, i)
  {
    assert shaped[i].glyphs[..|shaped[i].glyphs|] == shaped[i].glyphs;
  }

  lemma OffsetStep(shaped: seq<ShapedCluster>, i: nat, j: nat)
    requires i < |shaped| && j < |shaped[i].glyphs|
    ensures Offset(shaped, i, j + 1) == Offset(shaped, i, j) + shaped[i].glyphs[j].advance
  {
    assert shaped[i].glyphs[..j + 1][..j] == shaped[i].glyphs[..j];
  }

  /** `layout_text`: the advance accumulator of the shaper callback, with clusters pushed as
      they arrive. */
  method LayoutText(font: FontScaled, shaped: seq<ShapedCluster>) returns (run: TextRun)
    requires Fits(shaped)
    ensures IsLayout(font, shaped, run)
  {
    var advance: int := 0;
    var clusters: seq<Cluster> := [];
    for i := 0 to |shaped|
      invariant |clusters| == i && advance == Before(shaped, i)
      invariant forall k :: 0 <= k < i ==> LaidOut(shaped, k, clusters[k])
    {
      var cluster := shaped[i];
      BeforeStep(shaped, i);
      var start := Fxp.ToI32(Fxp.Fxp6(advance));
      var glyphs: seq<Glyph> := [];
      for j := 0 to |cluster.glyphs|
        invariant |glyphs| == j && advance == Offset(shaped, i, j)
        invariant forall k :: 0 <= k < j ==> glyphs[k] == Glyph(cluster.glyphs[k].id, Fxp.Fxp6(Offset(shaped, i, k)))
      {
        glyphs := glyphs + [Glyph(cluster.glyphs[j].id, Fxp.Fxp6(advance))];
        OffsetStep(shaped, i, j);
        advance := advance + cluster.glyphs[j].advance;
      }
      clusters := clusters + [Cluster(cluster.sourceStart, glyphs, start, Fxp.ToI32(Fxp.Fxp6(advance)))];
    }
    run := TextRun(font, clusters, advance as real / 64.0);
  }

  /** Consecutive clusters of a layout are contiguous: each ends where the next begins. */
  lemma LayoutContiguous(font: FontScaled, shaped: seq<ShapedCluster>, run: TextRun, i: nat)
    requires Fits(shaped) && IsLayout(font, shaped, run) && i + 1 < |run.clusters|
    ensures run.clusters[i].advEnd == run.clusters[i + 1].advStart
  {
    BeforeStep(shaped, i);
    BeforeStep(shaped, i + 1);
  }

  /** The layout of a shaper output is unique. */
  lemma LayoutUnique(font: FontScaled, shaped: seq<ShapedCluster>, a: TextRun, b: TextRun)
    requires Fits(shaped) && IsLayout(font, shaped, a) && IsLayout(font, shaped, b)
    ensures a == b
  {
    forall i | 0 <= i < |shaped| ensures a.clusters[i] == b.clusters[i] {
      assert LaidOut(shaped, i, a.clusters[i]) && LaidOut(shaped, i, b.clusters[i]);
      assert a.clusters[i].glyphs == b.clusters[i].glyphs;
    }
  }

  /** The cache key of a glyph of a run: its id and the fractional part of its offset. */
  function KeyOf(size: nat, g: Glyph): CacheKey
  {
    (size, GlyphKey(g.id, Fxp.Fract(g.offset)))
  }

  /** Every glyph of `run` has its key in `entries`: the lookups of `text_run` succeed. */
  predicate RunCached(run: TextRun, entries: map<CacheKey, RasterTiles>)
  {
    forall i, j :: 0 <= i < |run.clusters| && 0 <= j < |run.clusters[i].glyphs| ==>
      KeyOf(run.font.size, run.clusters[i].glyphs[j]) in entries
  }

  function ClusterKeys(size: nat, gs: seq<Glyph>): set<CacheKey>
  {
    set j | 0 <= j < |gs| :: KeyOf(size, gs[j])
  }

  function ClustersKeys(size: nat, cs: seq<Cluster>): set<CacheKey>
  {
    set i, j | 0 <= i < |cs| && 0 <= j < |cs[i].glyphs| :: KeyOf(size, cs[i].glyphs[j])
  }

  /** The cache keys a run needs. */
  function RunKeys(run: TextRun): set<CacheKey>
  {
    ClustersKeys(run.font.size, run.clusters)
  }

  lemma ClusterKeysStep(size: nat, gs: seq<Glyph>, j: nat)
    requires j < |gs|
    ensures ClusterKeys(size, gs[..j + 1]) == ClusterKeys(size, gs[..j]) + {KeyOf(size, gs[j])}
  {
    var a, b := gs[..j + 1], gs[..j];
    assert forall k :: 0 <= k < j ==> a[k] == b[k];
    assert a[j] == gs[j];
  }

  lemma ClustersKeysStep(size: nat, cs: seq<Cluster>, i: nat)
    requires i < |cs|
    ensures ClustersKeys(size, cs[..i + 1]) == ClustersKeys(size, cs[..i]) + ClusterKeys(size, cs[i].glyphs)
  {
    var a, b := cs[..i + 1], cs[..i];
    assert forall k :: 0 <= k < i ==> a[k] == b[k];
    assert a[i] == cs[i];
    forall key | key in ClustersKeys(size, a)
      ensures key in ClustersKeys(size, b) + ClusterKeys(size, cs[i].glyphs)
    {
      var k, j :| 0 <= k < |a| && 0 <= j < |a[k].glyphs| && key == KeyOf(size, a[k].glyphs[j]);
      if k < i {
        assert key == KeyOf(size, b[k].glyphs[j]);
      }
    }
  }

  /** Having all the keys of a run is what `text_run` needs. */
  lemma RunCachedIff(run: TextRun, entries: map<CacheKey, RasterTiles>)
    ensures RunCached(run, entries) <==> RunKeys(run) <= entries.Keys
  {
    if RunKeys(run) <= entries.Keys {
      forall i, j | 0 <= i < |run.clusters| && 0 <= j < |run.clusters[i].glyphs|
        ensures KeyOf(run.font.size, run.clusters[i].glyphs[j]) in entries
      {
        assert KeyOf(run.font.size, run.clusters[i].glyphs[j]) in RunKeys(run);
      }
    }
  }

  /** Every cached path can be drawn against the current atlas. */
  predicate CacheStored<K>(entries: map<K, RasterTiles>, pages: nat)
  {
    forall k :: k in entries ==> Stored(entries[k], pages)
  }

  lemma CacheStoredGrows<K>(entries: map<K, RasterTiles>, n: nat, m: nat)
    requires CacheStored(entries, n) && n <= m
    ensures CacheStored(entries, m)
  {
  }

  /** The atlas pages and the upload queue are as they were. */
  predicate Untouched(atlas: Atlas.Atlas, scene: Scene.Scene, pages: seq<Atlas.AtlasPage>,
                      queuedTiles: seq<Atlas.AtlasTile>, queuedData: seq<Tile>)
    reads atlas, scene
  {
    atlas.pages == pages && scene.atlasTiles == queuedTiles && scene.atlasData == queuedData
  }

  predicate Distinct<T(==)>(s: seq<T>)
  {
    forall a, b :: 0 <= a < b < |s| ==> s[a] != s[b]
  }

  /** `glyph_cache.entry(key).or_insert_with(|| rasterizer.render(..))`: the outline is
      rasterised only when the key is missing, and an existing entry is never replaced. */
  method GetOrRender(cache: GlyphCache, key: CacheKey, outline: Raster.Outline,
                     rasterizer: Ochre.Rasterizer, atlas: Atlas.Atlas, scene: Scene.Scene, pageAddress: nat -> nat)
    returns (ghost miss: bool)
    requires Raster.Ready(atlas, scene) && Raster.Drawable(outline.ops, outline.close)
    requires CacheStored(cache.entries, |atlas.pages|)
    modifies cache, rasterizer, atlas, scene
    ensures miss == (key !in old(cache.entries))
    ensures cache.entries.Keys == old(cache.entries).Keys + {key}
    ensures forall k :: k in old(cache.entries) ==> cache.entries[k] == old(cache.entries)[k]
    ensures !miss ==> atlas.pages == old(atlas.pages) && scene.atlasTiles == old(scene.atlasTiles) && scene.atlasData == old(scene.atlasData)
    ensures Raster.Ready(atlas, scene) && CacheStored(cache.entries, |atlas.pages|) && |old(atlas.pages)| <= |atlas.pages|
    ensures scene.vertices == old(scene.vertices)
  {
    var absent := key !in cache.entries;
    miss := absent;
    if absent {
      var tiles, _ := Raster.Render(rasterizer, atlas, scene, pageAddress, outline.ops, outline.close);
      CacheStoredGrows(cache.entries, |old(atlas.pages)|, |atlas.pages|);
      cache.entries := cache.entries[key := tiles];
    }
  }

  lemma DistinctAppend<T>(a: seq<T>, b: seq<T>)
    requires Distinct(a) && Distinct(b) && forall k :: k in b ==> k !in a
    ensures Distinct(a + b)
  {
    forall x, y | 0 <= x < y < |a + b| ensures (a + b)[x] != (a + b)[y] {
      if x < |a| && y >= |a| {
        assert (a + b)[y] == b[y - |a|] && b[y - |a|] in b;
      }
    }
  }

  /** The keys rendered so far, extended by those one more cluster rendered, are still the
      new keys of the clusters seen, each once. */
  lemma RenderedStep(rendered: seq<CacheKey>, added: seq<CacheKey>, cached: set<CacheKey>, seen: set<CacheKey>, next: set<CacheKey>)
    requires Distinct(rendered) && forall k :: k in rendered <==> k in seen && k !in cached
    requires Distinct(added) && forall k :: k in added <==> k in next && k !in cached + seen
    ensures Distinct(rendered + added)
    ensures forall k :: k in rendered + added <==> k in seen + next && k !in cached
  {
    DistinctAppend(rendered, added);
  }

  /** The glyph loop of one cluster in `build_text_run`: every key of the cluster's glyphs is
      looked up, and rendered when it is missing. */
  method CacheCluster(size: nat, glyphs: seq<Glyph>, cache: GlyphCache, outline: CacheKey -> Raster.Outline,
                      rasterizer: Ochre.Rasterizer, atlas: Atlas.Atlas, scene: Scene.Scene, pageAddress: nat -> nat)
    returns (ghost rendered: seq<CacheKey>)
    requires Raster.Ready(atlas, scene) && CacheStored(cache.entries, |atlas.pages|)
    requires forall k :: Raster.Drawable(outline(k).ops, outline(k).close)
    modifies cache, rasterizer, atlas, scene
    ensures cache.entries.Keys == old(cache.entries).Keys + ClusterKeys(size, glyphs)
    ensures forall k :: k in old(cache.entries) ==> cache.entries[k] == old(cache.entries)[k]
    ensures Distinct(rendered) && forall k :: k in rendered <==> k in ClusterKeys(size, glyphs) && k !in old(cache.entries)
    ensures Raster.Ready(atlas, scene) && CacheStored(cache.entries, |atlas.pages|) && |old(atlas.pages)| <= |atlas.pages|
    ensures rendered == [] ==> Untouched(atlas, scene, old(atlas.pages), old(scene.atlasTiles), old(scene.atlasData))
    ensures scene.vertices == old(scene.vertices)
  {
    rendered := [];
    for j := 0 to |glyphs|
      invariant cache.entries.Keys == old(cache.entries).Keys + ClusterKeys(size, glyphs[..j])
      invariant forall k :: k in old(cache.entries) ==> cache.entries[k] == old(cache.entries)[k]
      invariant Distinct(rendered)
      invariant forall k :: k in rendered <==> k in ClusterKeys(size, glyphs[..j]) && k !in old(cache.entries)
      invariant Raster.Ready(atlas, scene) && CacheStored(cache.entries, |atlas.pages|) && |old(atlas.pages)| <= |atlas.pages|
      invariant rendered == [] ==> Untouched(atlas, scene, old(atlas.pages), old(scene.atlasTiles), old(scene.atlasData))
      invariant scene.vertices == old(scene.vertices)
    {
      var glyph := glyphs[j];
      var key := (size, GlyphKey(glyph.id, Fxp.Fract(glyph.offset)));
      ClusterKeysStep(size, glyphs, j);
      ghost var miss := GetOrRender(cache, key, outline(key), rasterizer, atlas, scene, pageAddress);
      if miss {
        rendered := rendered + [key];
      }
    }
    assert glyphs[..|glyphs|] == glyphs;
  }

  /** `build_text_run`: lays the text out, then makes sure every glyph key of the run is cached.
      Each missing key is rasterised exactly once, keys already cached are left alone, and
      afterwards every lookup `text_run` makes succeeds. */
  method BuildTextRun(font: FontScaled, shaped: seq<ShapedCluster>, cache: GlyphCache, outline: CacheKey -> Raster.Outline,
                      rasterizer: Ochre.Rasterizer, atlas: Atlas.Atlas, scene: Scene.Scene, pageAddress: nat -> nat)
    returns (run: TextRun, ghost rendered: seq<CacheKey>)
    requires Fits(shaped) && Raster.Ready(atlas, scene) && CacheStored(cache.entries, |atlas.pages|)
    requires forall k :: Raster.Drawable(outline(k).ops, outline(k).close)
    modifies cache, rasterizer, atlas, scene
    ensures IsLayout(font, shaped, run)
    ensures RunCached(run, cache.entries)
    ensures cache.entries.Keys == old(cache.entries).Keys + RunKeys(run)
    ensures forall k :: k in old(cache.entries) ==> cache.entries[k] == old(cache.entries)[k]
    ensures Distinct(rendered) && forall k :: k in rendered <==> k in RunKeys(run) && k !in old(cache.entries)
    ensures Raster.Ready(atlas, scene) && CacheStored(cache.entries, |atlas.pages|) && |old(atlas.pages)| <= |atlas.pages|
    ensures rendered == [] ==> Untouched(atlas, scene, old(atlas.pages), old(scene.atlasTiles), old(scene.atlasData))
    ensures scene.vertices == old(scene.vertices)
  {
    run := LayoutText(font, shaped);
    rendered := [];
    var size := font.size;
    for i := 0 to |run.clusters|
      invariant cache.entries.Keys == old(cache.entries).Keys + ClustersKeys(size, run.clusters[..i])
      invariant forall k :: k in old(cache.entries) ==> cache.entries[k] == old(cache.entries)[k]
      invariant Distinct(rendered)
      invariant forall k :: k in rendered <==> k in ClustersKeys(size, run.clusters[..i]) && k !in old(cache.entries)
      invariant Raster.Ready(atlas, scene) && CacheStored(cache.entries, |atlas.pages|) && |old(atlas.pages)| <= |atlas.pages|
      invariant rendered == [] ==> Untouched(atlas, scene, old(atlas.pages), old(scene.atlasTiles), old(scene.atlasData))
      invariant scene.vertices == old(scene.vertices)
    {
      ClustersKeysStep(size, run.clusters, i);
      ghost var added := CacheCluster(size, run.clusters[i].glyphs, cache, outline, rasterizer, atlas, scene, pageAddress);
      RenderedStep(rendered, added, old(cache.entries).Keys, ClustersKeys(size, run.clusters[..i]), ClusterKeys(size, run.clusters[i].glyphs));
      rendered := rendered + added;
    }
    assert run.clusters[..|run.clusters|] == run.clusters;
    RunCachedIff(run, cache.entries);
  }

  /** `build_glyph`: caches the glyph `id` (the font's glyph for the character) at subpixel
      offset 0 and returns it with a zero offset, so its key is the one `text_run` looks up. */
  method BuildGlyph(font: FontScaled, id: nat, cache: GlyphCache, outline: CacheKey -> Raster.Outline,
                    rasterizer: Ochre.Rasterizer, atlas: Atlas.Atlas, scene: Scene.Scene, pageAddress: nat -> nat)
    returns (glyph: Glyph, ghost miss: bool)
    requires Raster.Ready(atlas, scene) && CacheStored(cache.entries, |atlas.pages|)
    requires forall k :: Raster.Drawable(outline(k).ops, outline(k).close)
    modifies cache, rasterizer, atlas, scene
    ensures glyph == Glyph(id, Fxp.Fxp6(0))
    ensures KeyOf(font.size, glyph) == (font.size, GlyphKey(id, Fxp.Fxp6(0)))
    ensures miss == (KeyOf(font.size, glyph) !in old(cache.entries))
    ensures cache.entries.Keys == old(cache.entries).Keys + {KeyOf(font.size, glyph)}
    ensures forall k :: k in old(cache.entries) ==> cache.entries[k] == old(cache.entries)[k]
    ensures Raster.Ready(atlas, scene) && CacheStored(cache.entries, |atlas.pages|)
    ensures scene.vertices == old(scene.vertices)
  {
    var key := (font.size, GlyphKey(id, Fxp.Fxp6(0)));
    miss := GetOrRender(cache, key, outline(key), rasterizer, atlas, scene, pageAddress);
    glyph := Glyph(key.1.id, key.1.offset);
  }
}
