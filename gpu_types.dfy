/** Value records of the GPU layer (`nari-gpu/src/lib.rs`): image subresource ranges,
    buffer views and the byte view of a slice. Handles are opaque numbers. */
module GpuTypes {
  import opened Wrappers

  type U32 = x: int | 0 <= x < 0x1_0000_0000
  type U64 = x: int | 0 <= x < 0x1_0000_0000_0000_0000
  type Byte = b: int | 0 <= b < 256

  /** `vk::WHOLE_SIZE`, all bits of a 64-bit word set. */
  const WholeSize: U64 := 0xFFFF_FFFF_FFFF_FFFF

  datatype SubresourceRange = SubresourceRange(
    aspectMask: U32, baseMipLevel: U32, levelCount: U32, baseArrayLayer: U32, layerCount: U32)

  datatype ImageRange = ImageRange(image: nat, range: SubresourceRange)

  /** `gpu::Image`: a handle, an optional memory allocation and its mip and layer counts (`usize`). */
  datatype Image = Image(image: nat, allocation: Option<nat>, mipLevels: nat, arrayLayers: nat)

  /** `usize as u32` keeps the low 32 bits. */
  function AsU32(n: nat): (r: U32)
    ensures n < 0x1_0000_0000 ==> r == n
  {
    n % 0x1_0000_0000
  }

  /** `Image::aspect`: the whole image (every mip level and array layer) under one aspect mask. */
  function Aspect(img: Image, aspectMask: U32): (r: ImageRange)
    ensures r.image == img.image && r.range.aspectMask == aspectMask
    ensures r.range.baseMipLevel == 0 && r.range.baseArrayLayer == 0
    ensures img.mipLevels < 0x1_0000_0000 ==> r.range.levelCount == img.mipLevels
    ensures img.arrayLayers < 0x1_0000_0000 ==> r.range.layerCount == img.arrayLayers
  {
    ImageRange(img.image, SubresourceRange(aspectMask, 0, AsU32(img.mipLevels), 0, AsU32(img.arrayLayers)))
  }

  /** `ImageRange::levels(start..end)`; the `u32` subtraction needs `start <= end`. */
  function Levels(r: ImageRange, start: U32, end: U32): (s: ImageRange)
    requires start <= end
    ensures s.image == r.image
    ensures s.range.baseMipLevel == start && s.range.baseMipLevel + s.range.levelCount == end
    ensures s.range.aspectMask == r.range.aspectMask
    ensures s.range.baseArrayLayer == r.range.baseArrayLayer && s.range.layerCount == r.range.layerCount
  {
    ImageRange(r.image, r.range.(baseMipLevel := start, levelCount := end - start))
  }

  /** `ImageRange::layers(start..end)`; the `u32` subtraction needs `start <= end`. */
  function Layers(r: ImageRange, start: U32, end: U32): (s: ImageRange)
    requires start <= end
    ensures s.image == r.image
    ensures s.range.baseArrayLayer == start && s.range.baseArrayLayer + s.range.layerCount == end
    ensures s.range.aspectMask == r.range.aspectMask
    ensures s.range.baseMipLevel == r.range.baseMipLevel && s.range.levelCount == r.range.levelCount
  {
    ImageRange(r.image, r.range.(baseArrayLayer := start, layerCount := end - start))
  }

  /** Selecting levels and then layers touches disjoint fields, so the order does not matter. */
  lemma LevelsLayersCommute(r: ImageRange, l0: U32, l1: U32, a0: U32, a1: U32)
    requires l0 <= l1 && a0 <= a1
    ensures Layers(Levels(r, l0, l1), a0, a1) == Levels(Layers(r, a0, a1), l0, l1)
  {
  }

  datatype Buffer = Buffer(buffer: nat, allocation: nat)

  datatype BufferView = BufferView(buffer: nat, offset: U64, range: U64)

  /** `BufferView::whole`: the view over the whole buffer. */
  function Whole(b: Buffer): (v: BufferView)
    ensures v.buffer == b.buffer && v.offset == 0 && v.range == WholeSize
  {
    BufferView(b.buffer, 0, WholeSize)
  }

  /** `as_u8_slice`: the bytes of a slice whose elements each occupy `size` bytes, in order. */
  function AsU8Slice(data: seq<seq<Byte>>, size: nat): (r: seq<Byte>)
    requires forall i :: 0 <= i < |data| ==> |data[i]| == size
    ensures |r| == size * |data|
  {
    if data == [] then [] else data[0] + AsU8Slice(data[1..], size)
  }

  /** Element `i`'s byte `j` sits at offset `i * size + j` of the byte view. */
  lemma {:induction false} AsU8SliceAt(data: seq<seq<Byte>>, size: nat, i: nat, j: nat)
    requires forall k :: 0 <= k < |data| ==> |data[k]| == size
    requires i < |data| && j < size
    ensures i * size + j < |AsU8Slice(data, size)|
    ensures AsU8Slice(data, size)[i * size + j] == data[i][j]
  {
    if i > 0 {
      AsU8SliceAt(data[1..], size, i - 1, j);
      assert i * size + j == size + ((i - 1) * size + j);
    }
  }
}
