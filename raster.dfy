/** Rendering a path into atlas tiles and uploading them (`Raster`, `PathEncoder` in
    `nari-canvas/src/lib.rs`). The rasterizer's encoder callbacks arrive as the call log that
    `Rasterizer.End` returns; `PathEncoder.Replay` hands them to `solid` and `mask` in order.
    A newly opened atlas page gets its bindless address from `pageAddress`, given the page's
    index; creating its GPU image is not modelled. */
module Raster {
  import opened Wrappers
  import opened OchreTypes
  import OchreSweep
  import OchreProps
  import Ochre
  import Atlas
  import Scene
  import opened CanvasTypes

  /** What a path encoder has produced so far, and the atlas and upload queue it changed. */
  datatype EncodeState = EncodeState(tiles: RasterTiles, pages: seq<Atlas.AtlasPage>,
                                     queuedTiles: seq<Atlas.AtlasTile>, queuedData: seq<Tile>)

  /** One encoder callback: `solid(y, x0..x1)` records a run of width `x1 - x0`; `mask(y, x, m)`
      takes the next atlas slot and queues `m` for upload into it. */
  function EncodeCall(s: EncodeState, call: EncoderCall, pageAddress: nat -> nat): EncodeState
  {
    match call
    case Solid(y, x0, x1) =>
      s.(tiles := s.tiles.(solid := s.tiles.solid + [SolidTile(x0, y, x1 - x0)]))
    case Mask(y, x, tile) =>
      var slot := Atlas.AllocTile(s.pages);
      EncodeState(s.tiles.(mask := s.tiles.mask + [MaskTile(x, y, slot)]),
                  Atlas.AllocPages(s.pages, pageAddress(|s.pages|)),
                  s.queuedTiles + [slot], s.queuedData + [tile])
  }

  function Encode(s: EncodeState, calls: seq<EncoderCall>, pageAddress: nat -> nat): EncodeState
  {
    if calls == [] then s
    else EncodeCall(Encode(s, calls[..|calls| - 1], pageAddress), calls[|calls| - 1], pageAddress)
  }

  /** The solid runs named by the `solid` calls of a log, in order. */
  function SolidsOf(calls: seq<EncoderCall>): seq<SolidTile>
  {
    if calls == [] then []
    else SolidsOf(calls[..|calls| - 1])
         + (var c := calls[|calls| - 1]; if c.Solid? then [SolidTile(c.x0, c.y, c.x1 - c.x0)] else [])
  }

  /** The coverage tiles passed to the `mask` calls of a log, in order. */
  function MaskData(calls: seq<EncoderCall>): seq<Tile>
  {
    if calls == [] then []
    else MaskData(calls[..|calls| - 1]) + (var c := calls[|calls| - 1]; if c.Mask? then [c.tile] else [])
  }

  /** The tile positions of mask tiles, as row-major keys. */
  function TileKeys(ms: seq<MaskTile>): (ks: seq<Key>)
    ensures |ks| == |ms|
  {
    seq(|ms|, i requires 0 <= i < |ms| => Key(ms[i].ty, ms[i].tx))
  }

  /** The atlas slots of mask tiles. */
  function Slots(ms: seq<MaskTile>): (ts: seq<Atlas.AtlasTile>)
    ensures |ts| == |ms|
  {
    seq(|ms|, i requires 0 <= i < |ms| => ms[i].atlasTile)
  }

  /** Every queued tile refers to one of the first `n` atlas pages. */
  predicate QueueIn(ts: seq<Atlas.AtlasTile>, n: nat)
  {
    forall i :: 0 <= i < |ts| ==> 0 <= ts[i].page < n
  }

  /** The state a well-behaved encoder keeps: valid pages, slots in range and on existing
      pages, and one queued coverage tile per queued slot. */
  predicate Consistent(s: EncodeState)
  {
    && Atlas.PagesValid(s.pages) && PagesIn(s.tiles, |s.pages|) && SlotsInRange(s.tiles)
    && QueueIn(s.queuedTiles, |s.pages|) && |s.queuedTiles| == |s.queuedData|
  }

  /** The atlas and the scene's upload queue as `upload_atlas` needs them. */
  predicate Ready(atlas: Atlas.Atlas, scene: Scene.Scene)
    reads atlas, scene
  {
    && Atlas.PagesValid(atlas.pages) && QueueIn(scene.atlasTiles, |atlas.pages|)
    && |scene.atlasTiles| == |scene.atlasData|
  }

  class PathEncoder {
    var tiles: RasterTiles
    const atlas: Atlas.Atlas
    const scene: Scene.Scene
    const pageAddress: nat -> nat

    constructor (atlas: Atlas.Atlas, scene: Scene.Scene, pageAddress: nat -> nat)
      ensures this.atlas == atlas && this.scene == scene && this.pageAddress == pageAddress
      ensures tiles == RasterTiles([], [])
    {
      this.atlas := atlas;
      this.scene := scene;
      this.pageAddress := pageAddress;
      tiles := RasterTiles([], []);
    }

    function State(): EncodeState
      reads this, atlas, scene
    {
      EncodeState(tiles, atlas.pages, scene.atlasTiles, scene.atlasData)
    }

    /** `PathEncoder::solid`: records the run and leaves the atlas and the scene alone. */
    method Solid(y: int, x0: int, x1: int)
      modifies this
      ensures tiles == old(tiles).(solid := old(tiles.solid) + [SolidTile(x0, y, x1 - x0)])
      ensures State() == EncodeCall(old(State()), EncoderCall.Solid(y, x0, x1), pageAddress)
    {
      tiles := tiles.(solid := tiles.solid + [SolidTile(x0, y, x1 - x0)]);
    }

    /** `PathEncoder::mask`: exactly one atlas allocation; the slot goes to the tile list and,
        with the coverage, to the scene's upload queue. */
    method Mask(y: int, x: int, tile: Tile)
      requires Atlas.PagesValid(atlas.pages)
      modifies this, atlas, scene
      ensures Atlas.PagesValid(atlas.pages)
      ensures State() == EncodeCall(old(State()), EncoderCall.Mask(y, x, tile), pageAddress)
      ensures scene.vertices == old(scene.vertices)
    {
      var slot := atlas.Allocate(pageAddress(|atlas.pages|));
      tiles := tiles.(mask := tiles.mask + [MaskTile(x, y, slot)]);
      scene.atlasTiles := scene.atlasTiles + [slot];
      scene.atlasData := scene.atlasData + [tile];
    }

    /** The rasterizer calling its encoder: each logged call in order. */
    method Replay(calls: seq<EncoderCall>)
      requires Atlas.PagesValid(atlas.pages)
      modifies this, atlas, scene
      ensures Atlas.PagesValid(atlas.pages)
      ensures State() == Encode(old(State()), calls, pageAddress)
      ensures scene.vertices == old(scene.vertices)
    {
      for i := 0 to |calls|
        invariant Atlas.PagesValid(atlas.pages)
        invariant State() == Encode(old(State()), calls[..i], pageAddress)
        invariant scene.vertices == old(scene.vertices)
      {
        assert calls[..i + 1][..i] == calls[..i];
        match calls[i]
        case Solid(y, x0, x1) => Solid(y, x0, x1);
        case Mask(y, x, tile) => Mask(y, x, tile);
      }
      assert calls[..|calls|] == calls;
    }
  }

  /** A path handed to the rasterizer: `move_to`, or `line_to` with the cells the line walker
      computes for the segment. */
  datatype PathOp = Move(to: Ochre.Point) | Line(to: Ochre.Point, cells: seq<Increment>)

  /** A path as the rasterizer receives it, and the cells of the closing segment `end` adds. */
  datatype Outline = Outline(ops: seq<PathOp>, close: seq<Increment>)

  /** The line walker yields at least one cell for every segment, the closing one included. */
  predicate Drawable(ops: seq<PathOp>, close: seq<Increment>)
  {
    |close| > 0 && forall i :: 0 <= i < |ops| ==> ops[i].Line? ==> |ops[i].cells| > 0
  }

  /** `Raster::render`: `begin`, draw the path, `end` into a fresh `PathEncoder`. Every touched
      tile becomes exactly one mask tile, in row-major order, and the atlas, the upload queue
      and the tile lists are what the encoder callbacks make of the rasterizer's calls. */
  method Render(rasterizer: Ochre.Rasterizer, atlas: Atlas.Atlas, scene: Scene.Scene, pageAddress: nat -> nat,
                ops: seq<PathOp>, close: seq<Increment>) returns (tiles: RasterTiles, ghost calls: seq<EncoderCall>)
    requires Ready(atlas, scene) && Drawable(ops, close)
    modifies rasterizer, atlas, scene
    ensures OchreSweep.BinsIn(rasterizer.bins, rasterizer.increments)
    ensures calls == OchreSweep.Schedule(rasterizer.bins, rasterizer.increments, rasterizer.tileIncrements, |rasterizer.bins|)
    ensures OchreProps.StrictlyIncreasing(TileKeys(tiles.mask))
    ensures forall k :: k in TileKeys(tiles.mask) <==> Ochre.Touched(rasterizer.increments, k)
    ensures EncodeState(tiles, atlas.pages, scene.atlasTiles, scene.atlasData)
      == Encode(EncodeState(RasterTiles([], []), old(atlas.pages), old(scene.atlasTiles), old(scene.atlasData)), calls, pageAddress)
    ensures Ready(atlas, scene) && Stored(tiles, |atlas.pages|) && |old(atlas.pages)| <= |atlas.pages|
    ensures scene.vertices == old(scene.vertices)
  {
    var encoder := new PathEncoder(atlas, scene, pageAddress);
    rasterizer.Begin();
    for i := 0 to |ops|
      invariant atlas.pages == old(atlas.pages) && encoder.tiles == RasterTiles([], [])
      invariant scene.atlasTiles == old(scene.atlasTiles) && scene.atlasData == old(scene.atlasData)
      invariant scene.vertices == old(scene.vertices)
    {
      match ops[i]
      case Move(to) => rasterizer.MoveTo(to);
      case Line(to, cells) => rasterizer.LineTo(to, cells);
    }
    var log := rasterizer.End(close);
    calls := log;
    encoder.Replay(log);
    tiles := encoder.tiles;
    ghost var s0 := EncodeState(RasterTiles([], []), old(atlas.pages), old(scene.atlasTiles), old(scene.atlasData));
    EncodeMaskKeys(s0, calls, pageAddress);
    EncodeConsistent(s0, calls, pageAddress);
  }

  /** The size of `Tile<u8>` in the staging buffer. */
  const TileBytes: nat := 64

  /** `BufferImageCopy` reduced to what varies: where in the staging buffer, into which atlas
      page, and the pixel rectangle of the slot. */
  datatype Copy = Copy(bufferOffset: nat, page: int, x: int, y: int, width: nat, height: nat)

  /** The staging buffer contents and the copies recorded by one upload. */
  datatype Upload = Upload(staging: seq<Tile>, copies: seq<Copy>)

  /** The copy of pending tile `i`: its bytes at `i * 64`, its slot's pixels in the page. */
  function CopyOf(i: nat, t: Atlas.AtlasTile): Copy
  {
    Copy(i * TileBytes, t.page, t.tx * TileSize, t.ty * TileSize, TileSize, TileSize)
  }

  /** `Raster::upload_atlas`: nothing when no tile is pending; otherwise the pending coverage is
      staged in order, one copy per pending slot is recorded, and both queues are emptied. */
  method UploadAtlas(scene: Scene.Scene, atlas: Atlas.Atlas) returns (upload: Option<Upload>)
    requires |scene.atlasTiles| == |scene.atlasData| && QueueIn(scene.atlasTiles, |atlas.pages|)
    modifies scene
    ensures old(scene.atlasTiles) == [] ==> upload == None && scene.atlasTiles == [] && scene.atlasData == old(scene.atlasData)
    ensures old(scene.atlasTiles) != [] ==>
      && upload.Some?
      && upload.value.staging == old(scene.atlasData)
      && |upload.value.copies| == |old(scene.atlasTiles)|
      && (forall i :: 0 <= i < |upload.value.copies| ==> upload.value.copies[i] == CopyOf(i, old(scene.atlasTiles)[i]))
      && scene.atlasTiles == [] && scene.atlasData == []
    ensures scene.vertices == old(scene.vertices)
  {
    var numTiles := |scene.atlasTiles|;
    if numTiles == 0 {
      return None;
    }
    var staging := scene.atlasData;
    var copies: seq<Copy> := [];
    for i := 0 to numTiles
      invariant |copies| == i
      invariant forall j :: 0 <= j < i ==> copies[j] == CopyOf(j, scene.atlasTiles[j])
    {
      var tile := scene.atlasTiles[i];
      copies := copies + [Copy(i * TileBytes, tile.page, tile.tx * TileSize, tile.ty * TileSize, TileSize, TileSize)];
    }
    upload := Some(Upload(staging, copies));
    scene.atlasData := [];
    scene.atlasTiles := [];
  }

  /** Copies of different pending tiles read disjoint 64-byte ranges of the staging buffer,
      copy `i` reading exactly tile `i`; copies into distinct slots of valid pages write
      disjoint 8 x 8 pixel squares inside the 1024 x 1024 page. */
  lemma CopiesDisjoint(i: nat, j: nat, a: Atlas.AtlasTile, b: Atlas.AtlasTile)
    requires i != j
    ensures CopyOf(i, a).bufferOffset / TileBytes == i && CopyOf(i, a).bufferOffset % TileBytes == 0
    ensures CopyOf(i, a).bufferOffset + TileBytes <= CopyOf(j, b).bufferOffset
         || CopyOf(j, b).bufferOffset + TileBytes <= CopyOf(i, a).bufferOffset
    ensures 0 <= a.tx < Atlas.PageWidth && 0 <= a.ty < Atlas.PageHeight ==>
      var c := CopyOf(i, a); 0 <= c.x && c.x + c.width <= 1024 && 0 <= c.y && c.y + c.height <= 1024
    ensures a != b && a.page == b.page ==>
      var c, d := CopyOf(i, a), CopyOf(j, b);
      c.x + c.width <= d.x || d.x + d.width <= c.x || c.y + c.height <= d.y || d.y + d.height <= c.y
  {
    Atlas.PageConstants();
  }

  /** The solid runs of an encoding are those of the `solid` calls, in order. */
  lemma {:induction false} EncodeSolids(s: EncodeState, calls: seq<EncoderCall>, pageAddress: nat -> nat)
    ensures Encode(s, calls, pageAddress).tiles.solid == s.tiles.solid + SolidsOf(calls)
  {
    if calls != [] {
      EncodeSolids(s, calls[..|calls| - 1], pageAddress);
    }
  }

  /** The mask tiles of an encoding lie at the positions of the `mask` calls, in order. */
  lemma {:induction false} EncodeMaskKeys(s: EncodeState, calls: seq<EncoderCall>, pageAddress: nat -> nat)
    ensures TileKeys(Encode(s, calls, pageAddress).tiles.mask) == TileKeys(s.tiles.mask) + OchreProps.MaskKeys(calls)
  {
    if calls != [] {
      var init := calls[..|calls| - 1];
      EncodeMaskKeys(s, init, pageAddress);
      var r := Encode(s, init, pageAddress);
      if calls[|calls| - 1].Mask? {
        var c := calls[|calls| - 1];
        var ms := r.tiles.mask + [MaskTile(c.x, c.y, Atlas.AllocTile(r.pages))];
        assert TileKeys(ms) == TileKeys(r.tiles.mask) + [Key(c.y, c.x)];
      } else {
        assert OchreProps.MaskKeys(calls) == OchreProps.MaskKeys(init) + [];
      }
    }
  }

  /** Rendering from an empty tile list queues, behind what was pending, exactly the slots of
      its mask tiles together with the coverage of the `mask` calls. */
  lemma {:induction false} EncodeQueue(s: EncodeState, calls: seq<EncoderCall>, pageAddress: nat -> nat)
    requires s.tiles.mask == []
    ensures var r := Encode(s, calls, pageAddress);
      r.queuedTiles == s.queuedTiles + Slots(r.tiles.mask) && r.queuedData == s.queuedData + MaskData(calls)
  {
    if calls != [] {
      var init := calls[..|calls| - 1];
      EncodeQueue(s, init, pageAddress);
      var r := Encode(s, init, pageAddress);
      if calls[|calls| - 1].Mask? {
        var c := calls[|calls| - 1];
        var slot := Atlas.AllocTile(r.pages);
        assert Slots(r.tiles.mask + [MaskTile(c.x, c.y, slot)]) == Slots(r.tiles.mask) + [slot];
      }
    }
  }

  /** One allocation keeps the pages valid, hands out an in-range slot on an existing page and
      never removes a page. */
  lemma AllocKeepsConsistent(pages: seq<Atlas.AtlasPage>, address: nat)
    requires Atlas.PagesValid(pages)
    ensures var after := Atlas.AllocPages(pages, address); var t := Atlas.AllocTile(pages);
      && Atlas.PagesValid(after) && |pages| <= |after|
      && SlotInRange(t) && 0 <= t.page < |after|
  {
    Atlas.PageConstants();
  }

  /** Encoding preserves `Consistent` and only adds pages. */
  lemma {:induction false} EncodeConsistent(s: EncodeState, calls: seq<EncoderCall>, pageAddress: nat -> nat)
    requires Consistent(s)
    ensures Consistent(Encode(s, calls, pageAddress)) && |s.pages| <= |Encode(s, calls, pageAddress).pages|
  {
    if calls != [] {
      var init := calls[..|calls| - 1];
      EncodeConsistent(s, init, pageAddress);
      var r := Encode(s, init, pageAddress);
      if calls[|calls| - 1].Mask? {
        AllocKeepsConsistent(r.pages, pageAddress(|r.pages|));
      }
    }
  }
}
