/** Text-run geometry and glyph-cache keys (`nari-canvas/src/typo.rs`). A run's `f32` width is
    a real here; `round` is Rust's rounding half away from zero, without `f32` precision. */
module Typo {
  import opened Wrappers
  import Layout
  import Fxp
  import opened CanvasTypes

  datatype FontProperties = FontProperties(ascent: int, descent: int, height: int)

  /** `FontScaled`: a font index, its pixel size (`FontSize = u32`) and its metrics. */
  datatype FontScaled = FontScaled(font: nat, size: nat, properties: FontProperties)

  /** `Pen`: where and how a run is drawn. */
  datatype Pen = Pen(x: int, y: int, alignX: Layout.Align, color: Color)

  /** `GlyphKey`: a glyph and its subpixel `x` offset; equality is structural. */
  datatype GlyphKey = GlyphKey(id: nat, offset: Fxp.Fxp6)

  /** The key of `GlyphCache`: `(FontSize, GlyphKey)`. */
  type CacheKey = (nat, GlyphKey)

  /** `GlyphCache = HashMap<(FontSize, GlyphKey), RasterTiles>`. */
  class GlyphCache {
    var entries: map<CacheKey, RasterTiles>

    constructor ()
      ensures entries == map[]
    {
      entries := map[];
    }
  }

  /** `TextRunGlyph`: a glyph and its pen offset from the start of the run. */
  datatype Glyph = Glyph(id: nat, offset: Fxp.Fxp6)

  /** `TextRunGraphemeCluster`: its byte position in the text, its glyphs, and the pixel range
      `advances = advStart..advEnd` it occupies. */
  datatype Cluster = Cluster(bytePos: nat, glyphs: seq<Glyph>, advStart: int, advEnd: int)

  datatype TextRun = TextRun(font: FontScaled, clusters: seq<Cluster>, width: real)

  /** `Pen::default()`: at the origin, left-aligned, opaque black. */
  function DefaultPen(): (p: Pen)
    ensures p.x == 0 && p.y == 0 && p.alignX == Layout.Positive
    ensures p.color == Color(0.0, 0.0, 0.0, 1.0)
  {
    Pen(0, 0, Layout.Positive, Color(0.0, 0.0, 0.0, 1.0))
  }

  /** `FontProperties::alignment_height`. */
  function AlignmentHeight(p: FontProperties): (h: int)
    ensures h - p.descent == p.ascent
  {
    p.ascent + p.descent
  }

  /** Rust's `f32::round`: to the nearest integer, halves away from zero. */
  function Round(r: real): (n: int)
    ensures r - 0.5 <= n as real <= r + 0.5
    ensures r >= 0.0 ==> n >= 0
  {
    if r >= 0.0 then (r + 0.5).Floor else -((-r + 0.5).Floor)
  }

  /** `TextRun::width`: the rounded run width. */
  function Width(run: TextRun): int
  {
    Round(run.width)
  }

  /** `offset_x`: how far left of the pen the run starts for each alignment. */
  function OffsetX(run: TextRun, align: Layout.Align): (o: int)
    ensures align == Layout.Positive ==> o == 0
    ensures align == Layout.Negative ==> o == -Width(run)
    ensures align == Layout.Center ==> o == -Round(run.width / 2.0)
  {
    match align
    case Negative => -Width(run)
    case Center => -Round(run.width / 2.0)
    case Positive => 0
  }

  /** `bounds`: the run's box, `width()` wide from the aligned start, from `ascent` above the
      pen's baseline to `descent` above it. */
  function Bounds(run: TextRun, pen: Pen): (r: Layout.Rect)
    ensures r.x0 == pen.x + OffsetX(run, pen.alignX) && r.x1 - r.x0 == Width(run)
    ensures r.y0 == pen.y - run.font.properties.ascent && r.y1 == pen.y - run.font.properties.descent
  {
    var x0 := pen.x + OffsetX(run, pen.alignX);
    Layout.Rect(x0, x0 + Width(run), pen.y - run.font.properties.ascent, pen.y - run.font.properties.descent)
  }

  /** The three alignments place the pen at the start, at the end, or within half a pixel of
      the middle of the run's box (the rounding of the half width and of the width can differ
      by one). */
  lemma BoundsAlign(run: TextRun, pen: Pen)
    ensures pen.alignX == Layout.Positive ==> Bounds(run, pen).x0 == pen.x
    ensures pen.alignX == Layout.Negative ==> Bounds(run, pen).x1 == pen.x
    ensures pen.alignX == Layout.Center ==>
      var b := Bounds(run, pen); -1 <= b.x0 + b.x1 - 2 * pen.x <= 1
  {
    if pen.alignX == Layout.Center {
      var h := Round(run.width / 2.0);
      assert run.width - 1.0 <= 2.0 * h as real <= run.width + 1.0;
      assert run.width - 0.5 <= Width(run) as real <= run.width + 0.5;
    }
  }

  /** `HITTEST_MARGIN_PX`. */
  const HittestMargin: int := 2

  /** `Range::contains` on a cluster's `advances`. */
  predicate Contains(c: Cluster, v: int)
  {
    c.advStart <= v < c.advEnd
  }

  /** `hittest`: `None` exactly off the run's box (edges included); otherwise the first cluster
      whose advances contain `x - x0 + 2`, or one past the last cluster if none does. */
  method Hittest(run: TextRun, pen: Pen, x: int, y: int) returns (caret: Option<nat>)
    ensures caret.None? <==> !Layout.Hittest(Bounds(run, pen), x, y)
    ensures caret.Some? ==>
      var rel := x - Bounds(run, pen).x0 + HittestMargin;
      && caret.value <= |run.clusters|
      && (forall j :: 0 <= j < caret.value ==> !Contains(run.clusters[j], rel))
      && (caret.value < |run.clusters| ==> Contains(run.clusters[caret.value], rel))
  {
    var bounds := Bounds(run, pen);
    if !Layout.Hittest(bounds, x, y) {
      return None;
    }
    var relX := x - bounds.x0 + HittestMargin;
    for i := 0 to |run.clusters|
      invariant forall j :: 0 <= j < i ==> !Contains(run.clusters[j], relX)
    {
      if run.clusters[i].advStart <= relX < run.clusters[i].advEnd {
        return Some(i);
      }
    }
    return Some(|run.clusters|);
  }

  /** What `cluster_advance(pos)` returns once the clusters before `cs` are behind it and the
      last advance it saw is `advance`. */
  function AdvanceFrom(cs: seq<Cluster>, pos: nat, advance: int, width: int): int
  {
    if cs == [] then width
    else if pos < cs[0].bytePos then advance
    else if pos == cs[0].bytePos then cs[0].advStart
    else AdvanceFrom(cs[1..], pos, cs[0].advStart, width)
  }

  /** `cluster_advance`: the loop with its two early returns. */
  method ClusterAdvance(run: TextRun, pos: nat) returns (r: int)
    ensures r == AdvanceFrom(run.clusters, pos, 0, Width(run))
  {
    var advance := 0;
    for i := 0 to |run.clusters|
      invariant AdvanceFrom(run.clusters[i..], pos, advance, Width(run)) == AdvanceFrom(run.clusters, pos, 0, Width(run))
    {
      var cluster := run.clusters[i];
      assert run.clusters[i..][0] == cluster && run.clusters[i..][1..] == run.clusters[i + 1..];
      if pos < cluster.bytePos {
        return advance;
      }
      advance := cluster.advStart;
      if pos == cluster.bytePos {
        return advance;
      }
    }
    return Width(run);
  }

  /** Clusters in strictly increasing byte order, as shaping produces them. */
  predicate Ascending(cs: seq<Cluster>)
  {
    forall i, j :: 0 <= i < j < |cs| ==> cs[i].bytePos < cs[j].bytePos
  }

  /** Before the first cluster the advance is 0. */
  lemma AdvanceBeforeFirst(cs: seq<Cluster>, pos: nat, width: int)
    requires cs != [] && pos < cs[0].bytePos
    ensures AdvanceFrom(cs, pos, 0, width) == 0
  {
  }

  /** At a cluster's byte position the advance is where that cluster starts. */
  lemma {:induction false} AdvanceAtCluster(cs: seq<Cluster>, i: nat, advance: int, width: int)
    requires Ascending(cs) && i < |cs|
    ensures AdvanceFrom(cs, cs[i].bytePos, advance, width) == cs[i].advStart
  {
    if i > 0 {
      assert cs[0].bytePos < cs[i].bytePos;
      assert cs[1..][i - 1] == cs[i];
      AdvanceAtCluster(cs[1..], i - 1, cs[0].advStart, width);
    }
  }

  /** Strictly between two clusters the advance is where the earlier one starts. */
  lemma {:induction false} AdvanceBetween(cs: seq<Cluster>, i: nat, pos: nat, advance: int, width: int)
    requires Ascending(cs) && i + 1 < |cs| && cs[i].bytePos < pos < cs[i + 1].bytePos
    ensures AdvanceFrom(cs, pos, advance, width) == cs[i].advStart
  {
    assert cs[0].bytePos <= cs[i].bytePos;
    assert cs[1..][i] == cs[i + 1];
    if i > 0 {
      assert cs[1..][i - 1] == cs[i];
      AdvanceBetween(cs[1..], i - 1, pos, cs[0].advStart, width);
    }
  }

  /** Past every cluster the advance is the run's width. */
  lemma {:induction false} AdvancePastLast(cs: seq<Cluster>, pos: nat, advance: int, width: int)
    requires forall i :: 0 <= i < |cs| ==> cs[i].bytePos < pos
    ensures AdvanceFrom(cs, pos, advance, width) == width
  {
    if cs != [] {
      assert forall i :: 0 <= i < |cs| - 1 ==> cs[1..][i] == cs[i + 1];
      AdvancePastLast(cs[1..], pos, cs[0].advStart, width);
    }
  }
}
