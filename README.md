# nari: a Dafny model of its tile renderer, canvas and GPU bookkeeping

nari is a Rust user-interface toolkit whose 2D canvas draws through a tile rasterizer. The
model covers the parts of it that keep state or compute geometry:

- **ochre**, the tile rasterizer (`nari-ochre/src/lib.rs`). It walks path segments into
  per-pixel increments and bins them into 8 x 8 tiles. It sorts the bins row-major and sweeps
  them, handing its encoder one `mask` per touched tile and one `solid` run per gap of
  nonzero winding.
- **the SVG example's image encoder** (`nari-ochre/examples/svg.rs`), which paints those
  callbacks into a flat byte image.
- **the canvas** (`nari-canvas`):
  - the atlas that hands out 8 x 8 slots on 1024 x 1024 pages;
  - the path encoder and the upload queue it fills;
  - the scene's vertex list and the quads that `rect`, `hrect` and `path_flip` append;
  - squircles with their corner-path cache;
  - text: the layout of shaped clusters in `fxp6` fixed point, the glyph cache keyed by subpixel
    offset, glyph placement, alignment, hit-testing and caret advances;
  - the `Rect` helpers.
- **the GPU layer** (`nari-gpu`):
  - the descriptor free list;
  - the command-pool state machine (`Free`, `Recording`, `Executing(t)`) with its timeline and
    the shrine of resources a pool keeps alive until its submission completes;
  - the descriptor-address and pipeline-layout caches;
  - the image-range and buffer-view helpers.
- **the IR example** (`nari-ir/examples/fib.rs`): an interning cache, a doubly linked
  instruction list and the interpreter loop, with the example program proved to return its
  input.

Files and modules:

| file | module | models |
|---|---|---|
| `wrappers.dfy` | `Wrappers` | `Option` |
| `fxp.dfy` | `Fxp` | `fxp6`, 26.6 fixed point on a 32-bit word |
| `layout.dfy` | `Layout` | `Rect`, `Margin`, `Align` |
| `gpu_types.dfy` | `GpuTypes` | `Image`, `ImageRange`, `BufferView`, `as_u8_slice` |
| `descriptor.dfy` | `Descriptor` | `Descriptors` |
| `ochre_types.dfy` | `OchreTypes` | increments, bins, tile keys, the sort |
| `ochre.dfy` | `Ochre` | `Rasterizer` |
| `ochre_sweep.dfy` | `OchreSweep` | the accumulation and sweep of `end` |
| `ochre_props.dfy` | `OchreProps` | what the sweep's callbacks promise |
| `atlas.dfy` | `Atlas` | `Atlas` |
| `canvas_types.dfy` | `CanvasTypes` | `RasterTiles`, vertices, `encode_uv` |
| `scene.dfy` | `Scene` | `Scene` |
| `raster.dfy` | `Raster` | `PathEncoder`, `render`, `upload_atlas` |
| `typo.dfy` | `Typo` | `Pen`, `TextRun` geometry, `GlyphCache` |
| `engine.dfy` | `Engine` | `layout_text`, `build_text_run`, `build_glyph` |
| `canvas.dfy` | `Canvas` | `Canvas` |
| `device.dfy` | `Device` | `Gpu`'s pools, retire, wait and caches |
| `svg_encoder.dfy` | `SvgEncoder` | `ImageEncoder` |
| `fib_ir.dfy` | `FibIr` | `Cache`, `Func`, the interpreter and its program |

Modelling choices:

- **Integers.** Integers are unbounded. Where the source narrows a value, the narrowing is
  written out: saturating `f32 as i16`, wrapping `as i8` and `as u32`, the `u16` page index,
  and Rust's truncating `/`. `fxp6` is an `int` in `i32` range, with its bit operations given
  by their two's-complement meaning: `& 63` is the Euclidean remainder by 64, `& !63` rounds
  down to a multiple of 64, and `>> 6` is floor division by 64.
- **The encoder trait.** The rasterizer's `Encoder` trait becomes a log of `EncoderCall`
  values that `Rasterizer.End` returns. `PathEncoder.Replay` replays that log, one callback at a
  time.
- **Parameters.** Everything computed by code outside the model is a parameter:
  - the floating-point line walker, whose cell increments `LineTo` and `Close` receive;
  - FreeType outlines and the shaper's output;
  - the bindless address of a new atlas page;
  - GPU object handles.

## Model

| member | source | states |
|---|---|---|
| Fxp.ToI32 | nari-vello/src/fxp.rs:13-15 | the result is the floor of the value divided by 64: `64 r <= raw < 64 r + 64` |
| Fxp.Trunc | nari-vello/src/fxp.rs:25-27 | the integer part lies at most 63 below the value and never above it |
| Fxp.Fract | nari-vello/src/fxp.rs:29-31 | the fractional part is between 0 and 63 |
| Fxp.TruncPlusFract | nari-vello/src/fxp.rs:25-31 | `trunc + fract` is the value again, negative values included |
| Fxp.TruncIsScaledI32 | nari-vello/src/fxp.rs:13-27 | `trunc` is a multiple of 64 and equals `i32() * 64`; `i32()` is `trunc / 64` |
| Fxp.TruncFractIdempotent | nari-vello/src/fxp.rs:25-31 | `trunc` and `fract` are idempotent and each maps the other to 0 |
| Fxp.SplitIsInjective | nari-vello/src/fxp.rs:25-31 | two values with equal integer and fractional parts are equal |
| Fxp.FractIgnoresWholePixels | nari-vello/src/fxp.rs:13-31 | adding `k` whole pixels keeps `fract`, adds `64k` to `trunc` and adds `k` to `i32()` |
| Fxp.NegativeValues | nari-vello/src/fxp.rs:13-31 | worked examples, not a general law (that is `Fxp.TruncPlusFract`): -1/64 px splits into -1 px plus 63/64, and further points on both signs |
| Layout.DivTrunc | nari-canvas/src/layout.rs:55-58 | Rust's `/` on `i32`: floor for non-negative dividends, rounding towards zero for negative ones |
| Layout.Width | nari-canvas/src/layout.rs:25-28 | the width is non-negative and `x0 + width == x1` |
| Layout.Height | nari-canvas/src/layout.rs:30-33 | the height is non-negative and `y0 + height == y1` |
| Layout.MarginClamped | nari-canvas/src/layout.rs:35-48 | each inset edge stops at the opposite original edge, whatever the margins |
| Layout.MarginExactInset | nari-canvas/src/layout.rs:35-48 | when the margins fit, `margin` is an exact inset and its result is well formed and inside the rectangle |
| Layout.MarginCanInvert | nari-canvas/src/layout.rs:35-48 | when margins do not fit, the clamp still lets the result invert (a 10-wide rectangle with margins 8 and 8) |
| Layout.Offset | nari-canvas/src/layout.rs:62-69 | `offset` keeps the extents and moves the corner by exactly `(x, y)` |
| Layout.OffsetHittest | nari-canvas/src/layout.rs:62-73 | offsetting by `(dx, dy)` moves the hit region by `(dx, dy)`, and offsetting back restores the rectangle |
| Layout.HittestInclusive | nari-canvas/src/layout.rs:71-73 | all four corners hit; no point outside the closed rectangle hits |
| Layout.CenterUsesHorizontalExtentForY | nari-canvas/src/layout.rs:50-60 | as written, `center` places a 4x4 box at y 3..7 in a rectangle spanning y 100..120, outside it |
| Layout.CenterIntendedCentres | nari-canvas/src/layout.rs:50-60 | with `dy` taken from the y fields, the box is centred on both axes: midpoint within one unit, extent within one unit |
| GpuTypes.AsU32 | nari-gpu/src/lib.rs:137-139 | `usize as u32` is the identity on values below 2^32 |
| GpuTypes.Aspect | nari-gpu/src/lib.rs:131-142 | the range starts at level and layer 0 under the given mask and counts all mip levels and array layers |
| GpuTypes.Levels | nari-gpu/src/lib.rs:171-180 | the levels are exactly `start..end`; the image, aspect and layers are kept |
| GpuTypes.Layers | nari-gpu/src/lib.rs:182-191 | the layers are exactly `start..end`; the image, aspect and levels are kept |
| GpuTypes.LevelsLayersCommute | nari-gpu/src/lib.rs:171-191 | selecting levels then layers equals selecting layers then levels |
| GpuTypes.Whole | nari-gpu/src/lib.rs:98-104 | the view covers the buffer from offset 0 with `WHOLE_SIZE` |
| GpuTypes.AsU8Slice | nari-gpu/src/lib.rs:34-37 | the byte view holds `size * len` bytes |
| GpuTypes.AsU8SliceAt | nari-gpu/src/lib.rs:34-37 | byte `j` of element `i` sits at offset `i * size + j` |
| Descriptor.Descriptors.constructor | nari-gpu/src/descriptor.rs:20-31 | slot `i` links to `i + 1`, the head is slot 0, and nothing is issued |
| Descriptor.Descriptors.InvalidIndex | nari-gpu/src/descriptor.rs:33-35 | the end-of-list marker is the slot count |
| Descriptor.Descriptors.Create | nari-gpu/src/descriptor.rs:37-50 | `None` exactly when the list is exhausted, with nothing changed; otherwise it returns the head, never issued before, which becomes issued, and the head moves to its successor |
| Descriptor.CreateAllFromFresh | nari-gpu/src/descriptor.rs:20-50 | from a fresh list, `create` yields `0, 1, ..., len - 1` and then `None` |
| OchreTypes.CellIndex | nari-ochre/src/lib.rs:129-132 | the cell is in `0..64`, its column is `x mod 8` and its row `y mod 8` (Euclidean) |
| OchreTypes.Insert | nari-ochre/src/lib.rs:114-117 | inserting adds exactly the element to the multiset |
| OchreTypes.SortByKey | nari-ochre/src/lib.rs:114-117 | the sort is a permutation of its input |
| OchreTypes.InsertSorted | nari-ochre/src/lib.rs:114-117 | inserting into a key-sorted sequence keeps it sorted |
| OchreTypes.SortByKeySorted | nari-ochre/src/lib.rs:114-117 | the sort is sorted by key, is a permutation and keeps the length |
| Ochre.Floor16 | nari-ochre/src/lib.rs:199 | `floor() as i16` is the floor wherever that fits in `i16` |
| Ochre.Wrap8 | nari-ochre/src/lib.rs:276-284 | `as i8` lands in `-128..128` and is the identity there |
| Ochre.Rasterizer.constructor | nari-ochre/src/lib.rs:45-55 | every point at the origin, row 0, no increments, crossings or bins |
| Ochre.Rasterizer.Begin | nari-ochre/src/lib.rs:58-61 | clears the increments and crossings and keeps everything else |
| Ochre.Rasterizer.Range | nari-ochre/src/lib.rs:63-81 | with no increments, the sentinel box `i16::MAX / i16::MIN`; otherwise every increment's tile lies in the box and each edge is reached |
| Ochre.Rasterizer.CurrentPoint | nari-ochre/src/lib.rs:192-194 | reports the subpath start, not the pen |
| Ochre.Rasterizer.MoveTo | nari-ochre/src/lib.rs:196-204 | start and pen move to `to`, the row is `to`'s tile row, increments untouched |
| Ochre.Rasterizer.LineTo | nari-ochre/src/lib.rs:206-293 | nothing recorded for a zero-length segment; otherwise the walker's increments are appended, every change of tile row records its crossing, and the pen moves to `to` |
| Ochre.Rasterizer.Walk | nari-ochre/src/lib.rs:253-284 | one walker step records its increment, and a crossing exactly when the next pixel lies in another tile row |
| Ochre.Rasterizer.Close | nari-ochre/src/lib.rs:348-353 | draws back to the start only when the pen is elsewhere; afterwards the pen is at the start |
| Ochre.Rasterizer.BuildBins | nari-ochre/src/lib.rs:86-112 | the bins are the maximal same-tile runs of increments and their ranges partition the increments |
| Ochre.Rasterizer.End | nari-ochre/src/lib.rs:83-184 | each touched tile is masked exactly once, in strictly increasing row-major order; a solid run is emitted exactly for each gap of nonzero winding between populated tiles of a row |
| Ochre.SortedBinsAndCrossings | nari-ochre/src/lib.rs:114-117 | sorting keeps a binning valid, sorts it, and keeps the populated tiles equal to the touched ones |
| Ochre.SweepProperties | nari-ochre/src/lib.rs:119-184 | the sweep over sorted bins masks each touched tile once, in order, and emits solid runs exactly over the winding gaps |
| Ochre.CrossingsSnoc | nari-ochre/src/lib.rs:276-284 | one more walker step adds exactly that step's crossing |
| Ochre.ExtendBin | nari-ochre/src/lib.rs:98-110 | a step in the current tile extends the current bin and keeps the binning invariant |
| Ochre.OpenBin | nari-ochre/src/lib.rs:98-110 | a step into another tile closes the bin and opens a new one at that increment |
| Ochre.BinningDone | nari-ochre/src/lib.rs:111-112 | pushing the last bin completes a binning of all increments |
| Ochre.BinContaining | nari-ochre/src/lib.rs:86-112 | every increment lies in some bin's range |
| Ochre.BinningTouched | nari-ochre/src/lib.rs:86-112 | a tile holds a bin exactly when some increment touches it (tile (0, 0) for none) |
| Ochre.PermutedBins | nari-ochre/src/lib.rs:114-115 | a permutation of the bins keeps their ranges and populated tiles |
| Ochre.SignSumAppend | nari-ochre/src/lib.rs:166-175 | the winding sum over two runs of crossings is the sum of their sums |
| Ochre.CrossingsTelescope | nari-ochre/src/lib.rs:276-284 | when no step jumps 128 tile rows, the crossings' signs add up to the net change of tile row |
| OchreSweep.Add | nari-ochre/src/lib.rs:129-133 | adding an increment keeps 64 areas and 64 heights |
| OchreSweep.AddRun | nari-ochre/src/lib.rs:128-134 | adding a bin's increments keeps 64 areas and 64 heights |
| OchreSweep.Pending | nari-ochre/src/lib.rs:153-155 | the accumulators before each bin have 64 cells |
| OchreSweep.Full | nari-ochre/src/lib.rs:127-134 | the accumulators after each bin have 64 cells |
| OchreSweep.Coverage | nari-ochre/src/lib.rs:144-145 | the byte is 0 exactly below 1/256 coverage, 255 exactly from 255/256, and never above `|v| * 256` |
| OchreSweep.RowSums | nari-ochre/src/lib.rs:140-149 | `next` holds one carry per pixel row |
| OchreSweep.Carry | nari-ochre/src/lib.rs:156-160 | `prev` holds one carry per pixel row before every bin |
| OchreSweep.AccumulateBin | nari-ochre/src/lib.rs:128-134 | the loop adds exactly the bin's increments, in order |
| OchreSweep.EmitRow | nari-ochre/src/lib.rs:141-147 | a mask row where each pixel covers the carry, the heights to its left and its own area; `accum` ends at the full row sum |
| OchreSweep.EmitTile | nari-ochre/src/lib.rs:140-149 | the tile is the mask of the accumulators, and `next` is the row sums |
| OchreSweep.CatchUp | nari-ochre/src/lib.rs:166-174 | the cursor passes exactly the crossings at or before the tile, and `winding` is the winding number there |
| OchreSweep.FinishTile | nari-ochre/src/lib.rs:136-181 | the calls made at a group end, the reset accumulators, the carry handed on or reset, and the caught-up winding |
| OchreSweep.Sweep | nari-ochre/src/lib.rs:127-183 | the calls are the schedule over all bins |
| OchreSweep.WithinGroup | nari-ochre/src/lib.rs:136-138 | a bin followed by one in the same tile ends no group: its cells and row carry pass on unchanged and no call is made |
| OchreSweep.WindingAtAppend | nari-ochre/src/lib.rs:166-175 | the winding number at a tile adds over concatenated crossings |
| OchreSweep.WindingAtAllBefore | nari-ochre/src/lib.rs:166-175 | crossings all at or before the tile count fully |
| OchreSweep.WindingAtAllAfter | nari-ochre/src/lib.rs:166-175 | crossings all after the tile count nothing |
| OchreSweep.WindingAtSorted | nari-ochre/src/lib.rs:166-175 | on sorted crossings the winding number is the sum of the prefix that the cursor loop consumes |
| OchreProps.MaskKeysAppend | nari-ochre/src/lib.rs:151 | the masked tiles of two logs concatenate |
| OchreProps.ScheduleMaskKeys | nari-ochre/src/lib.rs:136-151 | the masks are emitted at the group ends, in bin order |
| OchreProps.CallsAtMaskKeys | nari-ochre/src/lib.rs:136-151 | the calls at one bin hold exactly one mask, for that bin's tile, when the bin ends its group, and none otherwise |
| OchreProps.GroupKeysBefore | nari-ochre/src/lib.rs:136-139 | on sorted bins each group key comes strictly before the tile of any later bin |
| OchreProps.GroupKeysIncreasing | nari-ochre/src/lib.rs:114-151 | on sorted bins the masked tiles strictly increase, so no tile is masked twice |
| OchreProps.GroupKeysAreGroupEnds | nari-ochre/src/lib.rs:136-151 | every masked tile is the tile of a group-end bin |
| OchreProps.GroupEndInGroupKeys | nari-ochre/src/lib.rs:136-151 | every group end's tile is masked |
| OchreProps.GroupEndOf | nari-ochre/src/lib.rs:136-139 | every bin shares its tile with a group end at or after it |
| OchreProps.GroupKeysCoverBins | nari-ochre/src/lib.rs:127-151 | the masked tiles are exactly the tiles of the bins |
| OchreProps.SortedSplit | nari-ochre/src/lib.rs:114-115 | in sorted bins a bin's tile is at or after every earlier bin's tile and at or before every later one's |
| OchreProps.SolidAtIsGap | nari-ochre/src/lib.rs:162-181 | a solid emitted at a group end covers a winding gap |
| OchreProps.ScheduleSolids | nari-ochre/src/lib.rs:162-181 | every solid run in the calls covers a winding gap |
| OchreProps.GapsAreFilled | nari-ochre/src/lib.rs:162-181 | every winding gap between populated tiles of a row gets its solid run |
| OchreProps.ScheduleHasCallsAt | nari-ochre/src/lib.rs:127-183 | the calls of a bin appear in the schedule |
| OchreProps.RowPrefixZero | nari-ochre/src/lib.rs:140-149 | helper for `OchreProps.EmptyPathSchedule`: a row of zero heights accumulates to zero |
| OchreProps.EmptyPathSchedule | nari-ochre/src/lib.rs:86-151 | an empty path yields one all-zero mask at tile (0, 0) and nothing else |
| SvgEncoder.PixelBound | nari-ochre/examples/svg.rs:22-55 | a pixel inside the range has an index inside the image |
| SvgEncoder.RowOrder | nari-ochre/examples/svg.rs:22-55 | a pixel of an earlier row has a smaller index than every pixel of a later row |
| SvgEncoder.PixelInjective | nari-ochre/examples/svg.rs:22-55 | distinct pixels have distinct image indices |
| SvgEncoder.ImageEncoder.Pixel | nari-ochre/examples/svg.rs:33 | the linear index of a pixel of the range lies inside the image |
| SvgEncoder.ImageEncoder.constructor | nari-ochre/examples/svg.rs:11-18 | the image holds `nx * 8 * ny * 8` bytes, every byte 5 |
| SvgEncoder.ImageEncoder.WriteTile | nari-ochre/examples/svg.rs:28-35 | the tile's 64 pixels take the tile's bytes and no other pixel changes |
| SvgEncoder.ImageEncoder.Solid | nari-ochre/examples/svg.rs:22-38 | every pixel of the run's tiles becomes 255 and no other pixel changes |
| SvgEncoder.ImageEncoder.Mask | nari-ochre/examples/svg.rs:40-55 | the tile's pixels take the mask's bytes, row for row, and no other pixel changes |
| Atlas.AllocPages | nari-canvas/src/atlas.rs:36-119 | an allocation always leaves a page |
| Atlas.Atlas.constructor | nari-canvas/src/atlas.rs:22-26 | a new atlas has no pages |
| Atlas.Atlas.HasFreeTile | nari-canvas/src/atlas.rs:29-34 | false with no pages, otherwise whether the last page still has a slot |
| Atlas.Atlas.Allocate | nari-canvas/src/atlas.rs:36-119 | opens a page exactly when none is free; earlier pages are untouched; the slot is in range; the pages stay valid |
| Atlas.PageConstants | nari-canvas/src/atlas.rs:4-6 | a page is 128 x 128 slots: 16384 |
| Atlas.SlotSucc | nari-canvas/src/atlas.rs:110-118 | arithmetic helper for `Atlas.AllocManyShape`: counting slots up by one either stays on the page or starts the next |
| Atlas.AllocManyShape | nari-canvas/src/atlas.rs:36-119 | after `n` allocations every page but the last is full and the last holds the rest |
| Atlas.NthAllocation | nari-canvas/src/atlas.rs:110-118 | allocation `n` returns page `n / 16384`, column `n % 16384 % 128` and row `n % 16384 / 128` |
| Atlas.SecondPageStarts | nari-canvas/src/atlas.rs:36-119 | the 16385th allocation returns the first slot of page 1 |
| Atlas.AllocationsDistinct | nari-canvas/src/atlas.rs:110-118 | distinct allocations get distinct slots while the page index fits in `u16` |
| Atlas.SplitSlot | nari-canvas/src/atlas.rs:110-118 | an allocation number is recovered from its page, column and row |
| CanvasTypes.EncodeUv | nari-canvas/src/lib.rs:163 | the texel fits in 32 bits, and `u` and `v` read back from its halves |
| Scene.Quad | nari-canvas/src/lib.rs:199-227 | a quad is six vertices; what they are is stated by `Scene.QuadShape` |
| Scene.QuadShape | nari-canvas/src/lib.rs:199-227 | two triangles sharing the diagonal; every vertex is on the page given, on one of the two rows, and on the left edge with `c0` or the right edge with `c1` |
| Scene.MirrorX | nari-canvas/src/lib.rs:95-197 | mirroring keeps the vertex count; what it does to each vertex is stated by `Scene.MirrorShape` |
| Scene.MirrorY | nari-canvas/src/lib.rs:95-197 | mirroring keeps the vertex count; what it does to each vertex is stated by `Scene.MirrorShape` |
| Scene.MirrorShape | nari-canvas/src/lib.rs:95-197 | each vertex goes to the same distance on the other side of the mirror line, and nothing else about it changes |
| Scene.MirrorInvolutions | nari-canvas/src/lib.rs:95-197 | mirroring twice in the same line gives the vertices back |
| Scene.Scene.constructor | nari-canvas/src/lib.rs:83-88 | a new scene has no vertices and no pending upload |
| Scene.Scene.Hrect | nari-canvas/src/lib.rs:199-227 | appends the quad of `r`; the upload queue is untouched |
| Scene.Scene.Rect | nari-canvas/src/lib.rs:91-93 | appends the single-colour quad of `r`; the upload queue is untouched |
| Scene.Scene.PathFlip | nari-canvas/src/lib.rs:95-197 | appends the solid quads then the mask quads of the tiles; the upload queue is untouched |
| Scene.Scene.PushSolids | nari-canvas/src/lib.rs:106-144 | appends one quad per solid run, in order |
| Scene.Scene.PushMasks | nari-canvas/src/lib.rs:146-196 | appends one quad per mask tile, in order |
| Scene.Scene.PushSolid | nari-canvas/src/lib.rs:107-143 | appends the quad of one solid run |
| Scene.Scene.PushMask | nari-canvas/src/lib.rs:147-195 | appends the quad of one mask tile |
| Scene.HrectShape | nari-canvas/src/lib.rs:199-227 | the quad is two triangles over the corners of `r`, sharing the diagonal; the left corners carry `c0`, the right ones `c1`; no vertex samples the atlas |
| Scene.PathFlipLength | nari-canvas/src/lib.rs:95-197 | six vertices per solid run and per mask tile |
| Scene.SolidLength | nari-canvas/src/lib.rs:106-144 | six vertices per solid run |
| Scene.MaskLength | nari-canvas/src/lib.rs:146-196 | six vertices per mask tile |
| Scene.SolidMirror | nari-canvas/src/lib.rs:106-144 | with `flip_x`, the solid quads are the unflipped ones reflected in `x` |
| Scene.MaskMirror | nari-canvas/src/lib.rs:146-196 | with `flip_x`, the mask quads are the unflipped ones reflected in `x` |
| Scene.PathFlipMirrorX | nari-canvas/src/lib.rs:95-197 | `flip_x` reflects the whole path in the vertical line through `x`, with the same texels and colours |
| Scene.SolidMirrorY | nari-canvas/src/lib.rs:106-144 | with `flip_y`, the solid quads reflect in `y` |
| Scene.MaskMirrorY | nari-canvas/src/lib.rs:146-196 | with `flip_y`, the mask quads reflect in `y` |
| Scene.PathFlipMirrorY | nari-canvas/src/lib.rs:95-197 | `flip_y` reflects the whole path in the horizontal line through `y` |
| Scene.MaskTexels | nari-canvas/src/lib.rs:146-196 | every vertex samples its slot's page, at a texel as far from the slot's corner as the vertex is from the tile's corner: the tile is drawn unscaled |
| Raster.TileKeys | nari-canvas/src/lib.rs:979-983 | one key per mask tile |
| Raster.Slots | nari-canvas/src/lib.rs:979-983 | one slot per mask tile |
| Raster.PathEncoder.constructor | nari-canvas/src/lib.rs:897-903 | the encoder shares the canvas atlas and scene and starts with no tiles |
| Raster.PathEncoder.Solid | nari-canvas/src/lib.rs:1003-1009 | appends the run with width `x1 - x0`; the atlas and scene are untouched |
| Raster.PathEncoder.Mask | nari-canvas/src/lib.rs:1011-1020 | exactly one atlas allocation, whose slot goes to the tile list and, with the coverage, to the upload queue; no vertex added |
| Raster.PathEncoder.Replay | nari-canvas/src/lib.rs:1002-1021 | replaying a log has the effect of its callbacks in order, and keeps the atlas valid |
| Raster.Render | nari-canvas/src/lib.rs:896-908 | one mask tile per touched tile, in strictly increasing row-major order; the state is what the callbacks make of it; the tiles are drawable against the atlas |
| Raster.UploadAtlas | nari-canvas/src/lib.rs:910-969 | nothing when no tile waits; otherwise the staged bytes are the pending tiles in order, one copy per pending slot, and both queues are emptied |
| Raster.CopiesDisjoint | nari-canvas/src/lib.rs:931-952 | copy `i` reads exactly bytes `64i..64i+64`; copies of distinct slots on one page write disjoint squares inside it |
| Raster.EncodeSolids | nari-canvas/src/lib.rs:1003-1009 | the solid runs encoded are those the `solid` calls name, in order |
| Raster.EncodeMaskKeys | nari-canvas/src/lib.rs:1011-1020 | the mask tiles lie at the positions of the `mask` calls, in order |
| Raster.EncodeQueue | nari-canvas/src/lib.rs:1011-1020 | the upload queue gains exactly the new mask tiles' slots, with the calls' coverage |
| Raster.AllocKeepsConsistent | nari-canvas/src/atlas.rs:36-119 | one allocation keeps the pages valid, gives an in-range slot on an existing page, and removes no page |
| Raster.EncodeConsistent | nari-canvas/src/lib.rs:1002-1021 | encoding keeps the encoder state consistent and only adds pages |
| Typo.GlyphCache.constructor | nari-canvas/src/typo.rs:55 | a new glyph cache is empty |
| Typo.DefaultPen | nari-canvas/src/typo.rs:24-33 | the default pen is at the origin, left-aligned, opaque black |
| Typo.AlignmentHeight | nari-canvas/src/typo.rs:45-47 | the alignment height spans ascent to descent |
| Typo.Round | nari-canvas/src/typo.rs:79-81 | rounds to within one half, and keeps non-negative values non-negative |
| Typo.OffsetX | nari-canvas/src/typo.rs:83-89 | 0 for left alignment, minus the width for right, minus the rounded half width for centre |
| Typo.Bounds | nari-canvas/src/typo.rs:91-100 | the box starts at the aligned start, is the run's width wide, and spans from ascent to descent above the baseline |
| Typo.BoundsAlign | nari-canvas/src/typo.rs:83-100 | the pen sits at the box's left edge, at its right edge, or within half a pixel of its middle |
| Typo.Hittest | nari-canvas/src/typo.rs:102-120 | `None` exactly for points off the box; otherwise the first cluster whose advances contain the point, or one past the last |
| Typo.ClusterAdvance | nari-canvas/src/typo.rs:122-134 | the loop returns what the advance specification gives for the position |
| Typo.AdvanceBeforeFirst | nari-canvas/src/typo.rs:122-134 | before the first cluster the advance is 0 |
| Typo.AdvanceAtCluster | nari-canvas/src/typo.rs:122-134 | at a cluster's byte position the advance is that cluster's start |
| Typo.AdvanceBetween | nari-canvas/src/typo.rs:122-134 | strictly between two clusters the advance is the earlier cluster's start |
| Typo.AdvancePastLast | nari-canvas/src/typo.rs:122-134 | past every cluster the advance is the run's width |
| Engine.LayoutText | nari-canvas/src/engine.rs:149-184 | the run is the layout of the shaper's output: each glyph at the sum of the advances before it, each cluster's advances from the whole pixels before it to those after it, width the total advance |
| Engine.LayoutContiguous | nari-canvas/src/engine.rs:165-178 | each cluster's advances end where the next one's begin |
| Engine.LayoutUnique | nari-canvas/src/engine.rs:149-184 | a shaper output has exactly one layout |
| Engine.RunCachedIff | nari-canvas/src/engine.rs:198-213 | a run's lookups all succeed exactly when the cache holds every key the run needs |
| Engine.CacheStoredGrows | nari-canvas/src/engine.rs:206-212 | cached tiles drawable against `n` pages stay drawable against more pages |
| Engine.GetOrRender | nari-canvas/src/engine.rs:206-212 | rasterises only for a missing key, never replaces an entry, and afterwards holds the key |
| Engine.RenderedStep | nari-canvas/src/engine.rs:198-213 | after one more cluster, the keys rendered so far are still the new keys seen, each once |
| Engine.CacheCluster | nari-canvas/src/engine.rs:199-212 | every glyph key of the cluster is cached afterwards; only the missing keys are rendered, each once |
| Engine.BuildTextRun | nari-canvas/src/engine.rs:186-217 | returns the layout; afterwards every lookup `text_run` makes succeeds; each missing key is rendered exactly once; existing entries are kept |
| Engine.BuildGlyph | nari-canvas/src/engine.rs:219-246 | returns the glyph with offset 0 and caches its key at subpixel offset 0, which is the key `text_run` looks up |
| Canvas.ClampRadius | nari-canvas/src/lib.rs:310-313 | the radius is at most the requested one and at most half the width and half the height |
| Canvas.SquircleLength | nari-canvas/src/lib.rs:336-390 | five quads and four copies of the corner path |
| Canvas.SquircleRectsTile | nari-canvas/src/lib.rs:336-380 | the five rectangles are well formed, do not overlap, and cover the squircle's rectangle except exactly the four corner squares |
| Canvas.GlyphPlacement | nari-canvas/src/lib.rs:407-415 | the whole pixels of the draw position plus the cached tiles' subpixel fraction equal the glyph's layout offset |
| Canvas.TextMasksFlipped | nari-canvas/src/lib.rs:452-497 | a glyph's mask quads are `path_flip`'s at the glyph position with `y` mirrored |
| Canvas.GlyphMasksFlipped | nari-canvas/src/lib.rs:452-497 | all of a glyph's mask quads are `path_flip`'s mask quads mirrored on `y` |
| Canvas.TextSolidsFlipped | nari-canvas/src/lib.rs:453-456 | the corrected half of the solid-run finding: solid quads placed as the mask quads of lines 453-456 place theirs are `path_flip`'s solid quads mirrored on `y` |
| Canvas.GlyphIsPathFlip | nari-canvas/src/lib.rs:453-456 | the corrected half of the solid-run finding: a glyph drawn with its solid runs placed as the mask tiles are is its cached tiles drawn by `path_flip` at its position with `y` mirrored |
| Canvas.GlyphAsWritten | nari-canvas/src/lib.rs:406-498 | a glyph as `text_run` draws it is its as-written solid quads followed by exactly `path_flip`'s mask quads mirrored on `y`; a glyph without solid runs is `path_flip`'s drawing and equals the corrected drawing |
| Canvas.TextSolidMisplaced | nari-canvas/src/lib.rs:417-421 | as written, a one-tile solid run at tile (0, 0) does not cover the square of a mask tile at (0, 0) |
| Canvas.IntendedTextSolidMatchesSolid | nari-canvas/src/lib.rs:417-421 | the intended solid quad is `path_flip`'s solid quad mirrored on `y` |
| Canvas.IntendedTextSolidMatchesMask | nari-canvas/src/lib.rs:417-470 | an intended one-tile solid run covers exactly the square of a mask tile at the same position |
| Canvas.Canvas.constructor | nari-canvas/src/lib.rs:824-826 | an empty scene, glyph cache and squircle cache |
| Canvas.Canvas.Squircle | nari-canvas/src/lib.rs:309-391 | caches the corner under its key and keeps every other entry; uploads nothing and opens no page when the key was cached; appends the five rectangles and the four mirrored corners |
| Canvas.Canvas.CacheCorner | nari-canvas/src/lib.rs:318-332 | on a cache miss the rendered corner is cached under its key, every other entry is kept, and nothing is drawn |
| Canvas.Canvas.DrawSquircle | nari-canvas/src/lib.rs:336-390 | appends the five rectangles, then the four corners |
| Canvas.Canvas.DrawSquircleRects | nari-canvas/src/lib.rs:343-380 | appends the rectangles left, right, top, bottom, centre |
| Canvas.Canvas.DrawCorners | nari-canvas/src/lib.rs:383-390 | appends the corner path at the inner corners, mirrored away from the centre |
| Canvas.Canvas.TextRun | nari-canvas/src/lib.rs:402-500 | appends every glyph of every cluster, from the aligned start, each as the source draws it (solid quads as written, see `Canvas.GlyphAsWritten`) |
| Canvas.Canvas.DrawCluster | nari-canvas/src/lib.rs:406-499 | appends the glyphs of one cluster, in order, each as the source draws it |
| Canvas.Canvas.DrawGlyph | nari-canvas/src/lib.rs:407-498 | appends the glyph's cached solid quads as the source computes them, then its mask quads |
| Canvas.Canvas.DrawTextSolids | nari-canvas/src/lib.rs:417-450 | appends one quad per solid run of the glyph, in order, with the source's corners: `x0` and `y0` from the advance, `x1` and `y1` from `pen.y`, `y1` a tile above the run's row |
| Canvas.Canvas.DrawTextMasks | nari-canvas/src/lib.rs:452-497 | appends one quad per mask tile of the glyph, in order, sampling the tile's atlas slot |
| Canvas.Canvas.Path | nari-canvas/src/lib.rs:510-513 | appends the tiles at `(x, y)` without mirroring |
| Canvas.Canvas.BuildPath | nari-canvas/src/lib.rs:293-307 | one mask tile per touched tile, in order; the upload copies exactly their slots, tile `i` from offset `64i`; nothing stays pending |
| Canvas.Canvas.BuildTextRun | nari-canvas/src/lib.rs:271-291 | returns the layout with every glyph key cached and existing entries kept; afterwards no tile waits for upload, and nothing is uploaded when every key was already cached |
| Canvas.Canvas.Text | nari-canvas/src/lib.rs:397-400 | builds the run, then appends exactly the vertices `text_run` draws for it, solid quads as written |
| Canvas.Canvas.CompositionEnd | nari-canvas/src/lib.rs:519-681 | no upload is pending; the frame's vertices are drawn exactly when there are any; the vertex list is then empty |
| Device.FirstInState | nari-gpu/src/device.rs:871 | the first pool in the state, or the pool count when there is none |
| Device.DrainLogComplete | nari-gpu/src/device.rs:831-866 | `wait` destroys a resource exactly when it sits in the shrine of a pool whose submission is done |
| Device.PushConstantRanges | nari-gpu/src/device.rs:634-641 | no push-constant range for size 0, otherwise one range of that size |
| Device.Gpu.constructor | nari-gpu/src/device.rs:241-263 | no pools, timeline 0, empty caches, fresh descriptor heaps |
| Device.Gpu.FindPool | nari-gpu/src/device.rs:871 | the loop finds the first pool in the state |
| Device.Gpu.AcquirePool | nari-gpu/src/device.rs:870-909 | the first free pool, or else a new pool, starts recording; nothing else changes |
| Device.Gpu.SubmitPool | nari-gpu/src/device.rs:914-958 | the timeline advances by one and the pool executes under the new value, which is returned |
| Device.Gpu.RetireBuffer | nari-gpu/src/device.rs:323-337 | parked in the shrine of the pool running the latest submission, or destroyed at once when there is none |
| Device.Gpu.RetireImage | nari-gpu/src/device.rs:339-357 | like `retire_buffer`; an image without its own allocation parks or frees only the image |
| Device.Gpu.RetireImageView | nari-gpu/src/device.rs:359-371 | parked or destroyed as for `retire_buffer` |
| Device.Gpu.CmdRetireBuffer | nari-gpu/src/device.rs:373-379 | always parked in the given pool's shrine |
| Device.Gpu.CmdRetireImage | nari-gpu/src/device.rs:381-386 | always parked in the given pool's shrine |
| Device.Gpu.Wait | nari-gpu/src/device.rs:831-866 | every shrine of a pool whose submission is done by `t` is destroyed and emptied; no pool changes state; `wait(0)` does nothing |
| Device.Gpu.DrainAt | nari-gpu/src/device.rs:844-865 | a due pool has its shrine destroyed in the order views, buffers, images, allocations and emptied; any other pool is left as it was; no pool changes state |
| Device.Gpu.StorageImageAddress | nari-gpu/src/device.rs:299-321 | a view's descriptor is created on its first request and returned unchanged afterwards; distinct views get distinct descriptors |
| Device.Gpu.SampledImageAddress | nari-gpu/src/device.rs:273-297 | a new descriptor on every call, remembered for the pair |
| Device.Gpu.PipelineLayout | nari-gpu/src/device.rs:631-655 | a layout per push-constant size, created on the first request only |
| Device.ExecutingUnique | nari-gpu/src/device.rs:914-921 | submissions carry distinct timestamps, so the pool `retire_*` finds is the only one executing that submission |
| Device.WaitCaughtUp | nari-gpu/src/device.rs:831-866 | with the wait caught up to the timeline, every executing pool's shrine is emptied |
| FibIr.Cache.constructor | nari-ir/examples/fib.rs:15-22 | an empty, valid cache |
| FibIr.Cache.Insert | nari-ir/examples/fib.rs:25-36 | the index stored for the value; a hit changes nothing, a miss appends the value and indexes it at the old length |
| FibIr.Cache.IndexedStored | nari-ir/examples/fib.rs:10-36 | every indexed value is stored |
| FibIr.Cache.NoDuplicates | nari-ir/examples/fib.rs:25-36 | no value is stored twice |
| FibIr.Func.constructor | nari-ir/examples/fib.rs:104-108 | the function with the given identifier and registers and no instructions |
| FibIr.Func.Append | nari-ir/examples/fib.rs:111-130 | the new entry goes last with a back link to the old last entry, which links forward to it; an intact chain stays a chain |
| FibIr.Eval | nari-ir/examples/fib.rs:203-293 | an immediate evaluates to itself, a register in range to its value, anything else to nothing |
| FibIr.Step | nari-ir/examples/fib.rs:198-295 | a running step keeps the register count, moves `pc` to `pc + 1` or to a label, and changes no register it does not write; `RET` is the only way to return |
| FibIr.Interpret | nari-ir/examples/fib.rs:198-295 | the loop gives the outcome of `fuel` interpreter turns |
| FibIr.LoopFromCond | nari-ir/examples/fib.rs:163-188 | from the loop test with a count below the target, the program returns `max(num, 0)` within three turns per remaining iteration plus two |
| FibIr.LoopReturnsNum | nari-ir/examples/fib.rs:163-196 | started with `num` and 0, the program returns `max(num, 0)` after `3 * num + 3` turns |
| FibIr.LoopNeedsTurns | nari-ir/examples/fib.rs:163-196 | with fewer turns, a non-negative `num`'s loop is still running |
| FibIr.ChainOfIndices | nari-ir/examples/fib.rs:111-130 | a five-entry chain whose entry `i` holds instruction `i` is the loop's body |
| FibIr.Emit | nari-ir/examples/fib.rs:162-185 | a new instruction is interned at the next index and appended to the body |
| FibIr.DeclareLoop | nari-ir/examples/fib.rs:133-154 | the strings `loop`, `num`, `count`, the type `i64`, and `loop` with registers `num` and `count` and an empty body |
| FibIr.BuildBody | nari-ir/examples/fib.rs:162-188 | the body is the five loop instructions chained in order, and the labels are `[end, cond]` |
| FibIr.RunLoop | nari-ir/examples/fib.rs:133-296 | `main` returns 5 |

## Left out

- Floating point:
  - the line walker's DDA in `line_to`, `quad_to`/`curve_to` flattening and `lerp` are left out; `LineTo` and `Close` take the walker's increments as input.
  - area and height accumulation uses `real`, not `f32`.
  - `Typo.Round` and the `f32` width of a run use `real` arithmetic.
  - `fxp6::from_f32` is left out.
- Narrowing:
  - Engine.LayoutText: requires the running advance to stay inside `i32` (`Fits`), since the source's `+=` panics there in debug builds.
  - Canvas coordinates and pen positions are unbounded integers; `i32` overflow is not modelled.
  - Device.Gpu.SubmitPool: the `u64` timeline is unbounded, so its overflow is not modelled.
  - FibIr.Step: an overflowing `i64` `ADD` is a panic (`Overflow`), as in a debug build; release-mode wrap-around is not modelled.
- Vulkan, FreeType and the shaper:
  - every GPU call is left out (image and buffer creation, barriers, command recording, queue submission, the timeline semaphore wait, `reset_command_pool`);
  - allocator failures are left out;
  - the `anyhow` error results are left out, and the calls are modelled as succeeding;
  - pool handles and descriptor addresses are plain numbers.
- Device.Gpu.Wait: models the effect of `wait` once the semaphore has reached `t`; the blocking wait itself is left out.
- Device.Gpu.Wait: as in the source, no pool returns to `Free`, so slots are never reused once executing.
- Descriptor.Descriptors.Create: the source's assertion on an exhausted list becomes a `None` result.
- Device.Gpu.StorageImageAddress and Device.Gpu.SampledImageAddress: a descriptor heap exhausted by `create` returns `None`, where the source panics.
- The `Encoder` trait becomes a replayed call log.
- The SVG example's `Sink` encoder, which discards every callback, is not modelled.
- The example's `main`, its usvg parsing and PNG output are not modelled.
- SvgEncoder.ImageEncoder.Solid and SvgEncoder.ImageEncoder.Mask require the tile inside the range. The source only panics when a linear index exceeds the buffer, so a tile outside the range would wrap into the next row there. The `i16` subtractions and `usize` casts are not modelled.
- `Canvas::rect` and `Canvas::hrect` only forward to the scene, so they are modelled as Scene.Scene.Rect and Scene.Scene.Hrect.
- `Canvas::layout_text` and `char_height` are left out: they forward to layout and to `build_glyph`'s font metrics.
- `Engine::char_extent`, font creation and the shaper's font handling are left out.
- Engine.BuildGlyph: takes the glyph index as input (FreeType's `glyph_index`).
- `Canvas::new`, `resize`, `composition_begin`, the colour-space conversions and the recorded draw of `composition_end` are GPU set-up and are left out; Canvas.Canvas.CompositionEnd keeps the vertex and upload bookkeeping.
- FibIr.Interpret: the source loop has no bound, so the model runs at most `fuel` turns and reports `Running` when the fuel runs out.
- FibIr.Step: the interpreter follows `pc + 1`, as the source does, not the list's `next` links.
- The `dbg!` output of the IR example is not modelled.
- `Cache::insert` would share one index between two identical instructions. The example program has none, so the model does not cover that case.
- OchreTypes.SortByKey: `sort_unstable_by_key` may order equal keys in any way; the model uses one stable insertion sort. The sweep's properties are proved for any key-sorted input, but `Rasterizer.End` is stated for this sort.

## Findings

| source | as written | input that shows it | evidently intended | confidence | as-written member | corrected member |
|---|---|---|---|---|---|---|
| nari-canvas/src/layout.rs:51-52 | `dy` is computed from `x0`/`x1`, like `dx` | a 4x4 box centred in a rectangle spanning x 0..10, y 100..120 lands at y 3..7, outside the rectangle | `dy = self.y0 - rect.y0 + self.y1` | high; not executed | Layout.CenterUsesHorizontalExtentForY | Layout.CenterIntendedCentres |
| nari-canvas/src/lib.rs:418-421 | a glyph's solid run has `x1` offset by `pen.y`, `y0` offset by the `x` advance, and `y1` one tile above the run's row | a one-tile run at tile (0, 0) of a glyph at pen (0, 100) has corner (108, ...) and starts at y 0, where the mask tile at (0, 0) spans x 0..8 from y 100 | the placement of the mask tiles: `x` from the advance, rows growing up from `pen.y`, as `path_flip` does with `flip_y` | high; not executed | Canvas.TextSolidMisplaced | Canvas.IntendedTextSolidMatchesMask |

The drawing members (`Canvas.Canvas.TextRun`, `DrawGlyph`, `DrawTextSolids`) emit the solid quads as written (`Canvas.TextSolidQuad`), so the vertices they promise are those the program draws. The corrected placement is `Canvas.IntendedTextSolidQuad`; `Canvas.IntendedGlyphVertices` draws a glyph with it, and `Canvas.GlyphIsPathFlip` proves that this is `path_flip`'s drawing.
