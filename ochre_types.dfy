/** Values of the tile rasterizer (`nari-ochre/src/lib.rs`): pixel increments, tile-row
    crossings, bins, the row-major tile order with the sort that establishes it, and the
    calls the rasterizer makes on its encoder. */
module OchreTypes {

  /** `TILE_SIZE`: tiles are 8 x 8 pixels. */
  const TileSize: int := 8

  type I16 = x: int | -0x8000 <= x < 0x8000
  type Byte = b: int | 0 <= b < 256

  /** One pixel cell touched by a segment, with the area and height the segment adds to it
      (the `f32` values of the original, here reals computed by the line walker). */
  datatype Increment = Increment(x: I16, y: I16, area: real, height: real)

  /** A segment crossing from one tile row into another: the tile at the upper of the two
      rows and the signed number of rows crossed. */
  datatype TileIncrement = TileIncrement(tileX: int, tileY: int, sign: int)

  /** A run `[start, end)` of increments that lie in one tile. */
  datatype Bin = Bin(tileX: int, tileY: int, start: nat, end: nat)

  /** A tile position ordered row-major: first by row `ty`, then by column `tx`. */
  datatype Key = Key(ty: int, tx: int)

  /** What the rasterizer calls on its encoder: `solid(y, x0..x1)` and `mask(y, x, tile)`. */
  datatype EncoderCall =
    | Solid(y: int, x0: int, x1: int)
    | Mask(y: int, x: int, tile: seq<seq<Byte>>)

  /** Tile coordinates use Euclidean division by the tile size (`wrapping_div_euclid`,
      which cannot wrap for the divisor 8). */
  function IncKey(inc: Increment): Key { Key(inc.y / TileSize, inc.x / TileSize) }
  function BinKey(b: Bin): Key { Key(b.tileY, b.tileX) }
  function TileIncKey(t: TileIncrement): Key { Key(t.tileY, t.tileX) }
  function CallKey(c: EncoderCall): Key { Key(c.y, if c.Solid? then c.x0 else c.x) }

  predicate KeyLe(a: Key, b: Key) { a.ty < b.ty || (a.ty == b.ty && a.tx <= b.tx) }
  predicate KeyLt(a: Key, b: Key) { a.ty < b.ty || (a.ty == b.ty && a.tx < b.tx) }

  /** The position inside its tile of an increment: `(y % 8) * 8 + x % 8` with the
      Euclidean remainder, which is what `(x as usize).wrapping_rem_euclid(8)` yields for a
      sign-extended negative `i16`, since 2^64 is a multiple of 8. */
  function CellIndex(inc: Increment): (c: nat)
    ensures c < TileSize * TileSize
    ensures c % TileSize == inc.x % TileSize && c / TileSize == inc.y % TileSize
  {
    (inc.y % TileSize) * TileSize + inc.x % TileSize
  }

  predicate SortedBy<T>(s: seq<T>, key: T -> Key)
  {
    forall i, j :: 0 <= i < j < |s| ==> KeyLe(key(s[i]), key(s[j]))
  }

  /** The library sort used for `sort_unstable_by_key`, written as an insertion sort.
      Any order of elements with equal keys is allowed by the original; this one keeps them
      in input order. */
  function Insert<T>(x: T, s: seq<T>, key: T -> Key): (r: seq<T>)
    ensures |r| == |s| + 1
    ensures multiset(r) == multiset(s) + multiset{x}
  {
    if s == [] then [x]
    else if KeyLe(key(x), key(s[0])) then [x] + s
    else
      assert s == [s[0]] + s[1..];
      [s[0]] + Insert(x, s[1..], key)
  }

  function SortByKey<T>(s: seq<T>, key: T -> Key): (r: seq<T>)
    ensures multiset(r) == multiset(s)
  {
    if s == [] then []
    else
      assert s == [s[0]] + s[1..];
      Insert(s[0], SortByKey(s[1..], key), key)
  }

  /** A lower bound on `x` and on every element of `s` bounds every element of the insertion. */
  lemma {:induction false} InsertLowerBound<T>(x: T, s: seq<T>, key: T -> Key, b: Key)
    requires KeyLe(b, key(x)) && forall i :: 0 <= i < |s| ==> KeyLe(b, key(s[i]))
    ensures forall i :: 0 <= i < |Insert(x, s, key)| ==> KeyLe(b, key(Insert(x, s, key)[i]))
    decreases |s|
  {
    if s != [] && !KeyLe(key(x), key(s[0])) {
      InsertLowerBound(x, s[1..], key, b);
      assert forall i :: 0 <= i < |s[1..]| ==> s[1..][i] == s[i + 1];
    }
  }

  lemma {:induction false} InsertSorted<T>(x: T, s: seq<T>, key: T -> Key)
    requires SortedBy(s, key)
    ensures SortedBy(Insert(x, s, key), key)
    decreases |s|
  {
    if s != [] && !KeyLe(key(x), key(s[0])) {
      var t := s[1..];
      assert forall i :: 0 <= i < |t| ==> t[i] == s[i + 1];
      assert SortedBy(t, key);
      InsertSorted(x, t, key);
      InsertLowerBound(x, t, key, key(s[0]));
      var r := Insert(x, t, key);
      assert Insert(x, s, key) == [s[0]] + r;
      forall i, j | 0 <= i < j < |[s[0]] + r|
        ensures KeyLe(key(([s[0]] + r)[i]), key(([s[0]] + r)[j]))
      {
        if i > 0 {
          assert ([s[0]] + r)[i] == r[i - 1] && ([s[0]] + r)[j] == r[j - 1];
        } else {
          assert ([s[0]] + r)[j] == r[j - 1];
        }
      }
    }
  }

  /** The sort yields a nondecreasing sequence that is a permutation of its input. */
  lemma {:induction false} SortByKeySorted<T>(s: seq<T>, key: T -> Key)
    ensures SortedBy(SortByKey(s, key), key)
    ensures multiset(SortByKey(s, key)) == multiset(s)
    ensures |SortByKey(s, key)| == |s|
  {
    if s != [] {
      SortByKeySorted(s[1..], key);
      InsertSorted(s[0], SortByKey(s[1..], key), key);
    }
    assert |SortByKey(s, key)| == |multiset(SortByKey(s, key))|;
  }
}
