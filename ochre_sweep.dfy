/** The sweep at the heart of `Rasterizer::end` (`nari-ochre/src/lib.rs`): over bins sorted
    row-major it accumulates the increments of each tile, emits one coverage mask per
    populated tile, and emits a solid run for each winding-covered gap between two
    populated tiles of one row. */
module OchreSweep {
  import opened OchreTypes

  /** The per-pixel `areas` and `heights` accumulators of one tile (two `[f32; 64]`). */
  datatype Cells = Cells(areas: seq<real>, heights: seq<real>)

  predicate Sized(c: Cells) { |c.areas| == 64 && |c.heights| == 64 }

  function Zeros(n: nat): (z: seq<real>)
    ensures |z| == n && forall i :: 0 <= i < n ==> z[i] == 0.0
  {
    seq(n, _ => 0.0)
  }

  function ZeroCells(): (c: Cells)
    ensures Sized(c)
  {
    Cells(Zeros(64), Zeros(64))
  }

  /** Every bin's range lies inside the increments, as `&increments[start..end]` demands. */
  predicate BinsIn(bins: seq<Bin>, incs: seq<Increment>)
  {
    forall i :: 0 <= i < |bins| ==> bins[i].start <= bins[i].end <= |incs|
  }

  /** Adds one increment to the cell it falls in. */
  function Add(c: Cells, inc: Increment): (r: Cells)
    requires Sized(c)
    ensures Sized(r)
  {
    var k := CellIndex(inc);
    Cells(c.areas[k := c.areas[k] + inc.area], c.heights[k := c.heights[k] + inc.height])
  }

  /** Adds the increments `incs[lo..hi]` in order. */
  function AddRun(c: Cells, incs: seq<Increment>, lo: nat, hi: nat): (r: Cells)
    requires Sized(c) && lo <= hi <= |incs|
    ensures Sized(r)
    decreases hi - lo
  {
    if hi == lo then c else Add(AddRun(c, incs, lo, hi - 1), incs[hi - 1])
  }

  /** A bin that is the last of its tile in the sorted order, where the tile is complete. */
  predicate IsGroupEnd(bins: seq<Bin>, i: nat)
    requires i < |bins|
  {
    i + 1 == |bins| || bins[i + 1].tileX != bins[i].tileX || bins[i + 1].tileY != bins[i].tileY
  }

  /** Whether bin `i` is followed, in the same tile row, by a bin at least two tiles further right. */
  predicate HasGap(bins: seq<Bin>, i: nat)
    requires i < |bins|
  {
    i + 1 < |bins| && bins[i + 1].tileY == bins[i].tileY && bins[i + 1].tileX > bins[i].tileX + 1
  }

  /** The accumulators before bin `i`: empty at the start of each tile. */
  function Pending(bins: seq<Bin>, incs: seq<Increment>, i: nat): (c: Cells)
    requires i <= |bins| && BinsIn(bins, incs)
    ensures Sized(c)
    decreases i, 0
  {
    if i == 0 then ZeroCells()
    else if IsGroupEnd(bins, i - 1) then ZeroCells()
    else Full(bins, incs, i - 1)
  }

  /** The accumulators after adding bin `i`. */
  function Full(bins: seq<Bin>, incs: seq<Increment>, i: nat): (c: Cells)
    requires i < |bins| && BinsIn(bins, incs)
    ensures Sized(c)
    decreases i, 1
  {
    AddRun(Pending(bins, incs, i), incs, bins[i].start, bins[i].end)
  }

  /** The sum of the first `x` heights of row `y` of a tile. */
  function RowPrefix(h: seq<real>, y: nat, x: nat): real
    requires |h| == 64 && y < 8 && x <= 8
  {
    if x == 0 then 0.0 else RowPrefix(h, y, x - 1) + h[y * 8 + x - 1]
  }

  /** The coverage byte of an accumulated signed area: `min(|v| * 256, 255)` as `u8`. */
  function Coverage(v: real): (b: Byte)
    ensures b == 0 <==> (if v < 0.0 then -v else v) * 256.0 < 1.0
    ensures b == 255 <==> (if v < 0.0 then -v else v) * 256.0 >= 255.0
    ensures b as real <= (if v < 0.0 then -v else v) * 256.0
  {
    var c := (if v < 0.0 then -v else v) * 256.0;
    if c >= 255.0 then 255 else c.Floor
  }

  /** Pixel `(x, y)` of a tile covers the row carry, the heights to its left and its own area. */
  function Pixel(prev: seq<real>, c: Cells, y: nat, x: nat): Byte
    requires |prev| == 8 && Sized(c) && y < 8 && x < 8
  {
    Coverage(prev[y] + RowPrefix(c.heights, y, x) + c.areas[y * 8 + x])
  }

  function MaskRow(prev: seq<real>, c: Cells, y: nat): seq<Byte>
    requires |prev| == 8 && Sized(c) && y < 8
  {
    seq(8, x requires 0 <= x < 8 => Pixel(prev, c, y, x))
  }

  /** The tile handed to `mask`: each pixel covers the row carry, the heights to its left,
      and its own area. */
  function MaskTile(prev: seq<real>, c: Cells): seq<seq<Byte>>
    requires |prev| == 8 && Sized(c)
  {
    seq(8, y requires 0 <= y < 8 => MaskRow(prev, c, y))
  }

  /** `next`: the carry a tile passes to its right neighbour, per pixel row. */
  function RowSums(prev: seq<real>, c: Cells): (r: seq<real>)
    requires |prev| == 8 && Sized(c)
    ensures |r| == 8
  {
    seq(8, y requires 0 <= y < 8 => prev[y] + RowPrefix(c.heights, y, 8))
  }

  /** The row carry `prev` before bin `i`: handed on from a finished tile only to the next
      tile of the same row, and reset to zero otherwise. */
  function Carry(bins: seq<Bin>, incs: seq<Increment>, i: nat): (p: seq<real>)
    requires i <= |bins| && BinsIn(bins, incs)
    ensures |p| == 8
  {
    if i == 0 then Zeros(8)
    else if !IsGroupEnd(bins, i - 1) then Carry(bins, incs, i - 1)
    else if i < |bins| && bins[i].tileY == bins[i - 1].tileY then
      RowSums(Carry(bins, incs, i - 1), Full(bins, incs, i - 1))
    else Zeros(8)
  }

  /** The sum of all signs. */
  function SignSum(tis: seq<TileIncrement>): int
  {
    if tis == [] then 0 else SignSum(tis[..|tis| - 1]) + tis[|tis| - 1].sign
  }

  /** The winding number at tile `k`: the signs of all row crossings at or before `k`
      in row-major order. */
  function WindingAt(tis: seq<TileIncrement>, k: Key): int
  {
    if tis == [] then 0
    else WindingAt(tis[..|tis| - 1], k) + (if KeyLe(TileIncKey(tis[|tis| - 1]), k) then tis[|tis| - 1].sign else 0)
  }

  /** The encoder calls made when bin `i` has been accumulated. */
  function CallsAt(bins: seq<Bin>, incs: seq<Increment>, tis: seq<TileIncrement>, i: nat): seq<EncoderCall>
    requires i < |bins| && BinsIn(bins, incs)
  {
    if !IsGroupEnd(bins, i) then []
    else
      [Mask(bins[i].tileY, bins[i].tileX, MaskTile(Carry(bins, incs, i), Full(bins, incs, i)))]
      + (if HasGap(bins, i) && WindingAt(tis, BinKey(bins[i])) != 0
         then [Solid(bins[i].tileY, bins[i].tileX + 1, bins[i + 1].tileX)] else [])
  }

  /** The calls made for the first `m` bins. */
  function Schedule(bins: seq<Bin>, incs: seq<Increment>, tis: seq<TileIncrement>, m: nat): seq<EncoderCall>
    requires m <= |bins| && BinsIn(bins, incs)
  {
    if m == 0 then [] else Schedule(bins, incs, tis, m - 1) + CallsAt(bins, incs, tis, m - 1)
  }

  // ---- the sweep, as the original runs it ----

  /** The inner loop over `&increments[start..end]`. */
  method AccumulateBin(c0: Cells, incs: seq<Increment>, lo: nat, hi: nat) returns (c: Cells)
    requires Sized(c0) && lo <= hi <= |incs|
    ensures c == AddRun(c0, incs, lo, hi)
  {
    c := c0;
    for j := lo to hi
      invariant c == AddRun(c0, incs, lo, j)
    {
      var inc := incs[j];
      var k := CellIndex(inc);
      c := Cells(c.areas[k := c.areas[k] + inc.area], c.heights[k := c.heights[k] + inc.height]);
    }
  }

  /** The inner pixel loop of one row: `accum` starts at the row carry and gathers heights. */
  method EmitRow(prev: seq<real>, c: Cells, y: nat) returns (row: seq<Byte>, accum: real)
    requires |prev| == 8 && Sized(c) && y < 8
    ensures row == MaskRow(prev, c, y) && accum == prev[y] + RowPrefix(c.heights, y, 8)
  {
    accum := prev[y];
    row := [];
    for x := 0 to 8
      invariant |row| == x && accum == prev[y] + RowPrefix(c.heights, y, x)
      invariant forall k :: 0 <= k < x ==> row[k] == Pixel(prev, c, y, k)
    {
      row := row + [Coverage(accum + c.areas[y * 8 + x])];
      assert row[x] == Pixel(prev, c, y, x);
      accum := accum + c.heights[y * 8 + x];
    }
  }

  /** The pixel loops that fill `tile` and `next` from `prev`, `areas` and `heights`. */
  method EmitTile(prev: seq<real>, c: Cells) returns (tile: seq<seq<Byte>>, next: seq<real>)
    requires |prev| == 8 && Sized(c)
    ensures tile == MaskTile(prev, c) && next == RowSums(prev, c)
  {
    tile := [];
    next := [];
    for y := 0 to 8
      invariant |tile| == y && |next| == y
      invariant forall r :: 0 <= r < y ==> tile[r] == MaskRow(prev, c, r)
      invariant forall r :: 0 <= r < y ==> next[r] == prev[r] + RowPrefix(c.heights, r, 8)
    {
      var row, accum := EmitRow(prev, c, y);
      tile := tile + [row];
      next := next + [accum];
    }
  }

  /** The `while tile_increments_i < len` loop: advances the cursor over the crossings at or
      before tile `k`, summing their signs into the winding number. */
  method CatchUp(tis: seq<TileIncrement>, cursor0: nat, winding0: int, k: Key) returns (cursor: nat, winding: int)
    requires SortedBy(tis, TileIncKey)
    requires cursor0 <= |tis| && winding0 == SignSum(tis[..cursor0])
    requires forall j :: 0 <= j < cursor0 ==> KeyLe(TileIncKey(tis[j]), k)
    ensures cursor0 <= cursor <= |tis|
    ensures winding == SignSum(tis[..cursor]) && winding == WindingAt(tis, k)
    ensures forall j :: 0 <= j < cursor ==> KeyLe(TileIncKey(tis[j]), k)
  {
    cursor, winding := cursor0, winding0;
    while cursor < |tis|
      invariant cursor0 <= cursor <= |tis| && winding == SignSum(tis[..cursor])
      invariant forall j :: 0 <= j < cursor ==> KeyLe(TileIncKey(tis[j]), k)
    {
      var t := tis[cursor];
      if KeyLt(k, TileIncKey(t)) {
        break;
      }
      assert tis[..cursor + 1][..cursor] == tis[..cursor];
      winding := winding + t.sign;
      cursor := cursor + 1;
    }
    WindingAtSorted(tis, k, cursor);
  }

  /** The body of `if i + 1 == len || <next bin in another tile>`: emits the finished tile,
      resets the accumulators, hands the row carry on or resets it, and for a gap in the
      row advances the winding cursor and emits the solid run. */
  method FinishTile(bins: seq<Bin>, incs: seq<Increment>, tis: seq<TileIncrement>, i: nat,
                    c: Cells, prev: seq<real>, cursor0: nat, winding0: int)
    returns (step: seq<EncoderCall>, c': Cells, prev': seq<real>, cursor: nat, winding: int)
    requires BinsIn(bins, incs) && i < |bins| && IsGroupEnd(bins, i)
    requires SortedBy(tis, TileIncKey)
    requires c == Full(bins, incs, i) && prev == Carry(bins, incs, i)
    requires cursor0 <= |tis| && winding0 == SignSum(tis[..cursor0])
    requires forall j :: 0 <= j < cursor0 ==> KeyLe(TileIncKey(tis[j]), BinKey(bins[i]))
    ensures step == CallsAt(bins, incs, tis, i)
    ensures c' == Pending(bins, incs, i + 1) && prev' == Carry(bins, incs, i + 1)
    ensures cursor0 <= cursor <= |tis| && winding == SignSum(tis[..cursor])
    ensures forall j :: 0 <= j < cursor ==> KeyLe(TileIncKey(tis[j]), BinKey(bins[i]))
  {
    var bin := bins[i];
    var tile, next := EmitTile(prev, c);
    step := [Mask(bin.tileY, bin.tileX, tile)];
    c' := ZeroCells();
    if i + 1 < |bins| && bins[i + 1].tileY == bin.tileY {
      prev' := next;
    } else {
      prev' := Zeros(8);
    }
    next := Zeros(8);
    cursor, winding := cursor0, winding0;
    if i + 1 < |bins| && bins[i + 1].tileY == bin.tileY && bins[i + 1].tileX > bin.tileX + 1 {
      cursor, winding := CatchUp(tis, cursor, winding, BinKey(bin));
      if winding != 0 {
        var width := bins[i + 1].tileX - bin.tileX - 1;
        var x0 := bin.tileX + 1;
        var x1 := x0 + width;
        step := step + [Solid(bin.tileY, x0, x1)];
      }
    }
  }

  /** The loop over the sorted bins. */
  method Sweep(bins: seq<Bin>, incs: seq<Increment>, tis: seq<TileIncrement>) returns (calls: seq<EncoderCall>)
    requires BinsIn(bins, incs)
    requires SortedBy(bins, BinKey) && SortedBy(tis, TileIncKey)
    ensures calls == Schedule(bins, incs, tis, |bins|)
  {
    var c := ZeroCells();
    var prev := Zeros(8);
    var cursor: nat := 0;
    var winding := 0;
    calls := [];
    for i := 0 to |bins|
      invariant c == Pending(bins, incs, i)
      invariant prev == Carry(bins, incs, i)
      invariant cursor <= |tis| && winding == SignSum(tis[..cursor])
      invariant i < |bins| ==> forall j :: 0 <= j < cursor ==> KeyLe(TileIncKey(tis[j]), BinKey(bins[i]))
      invariant calls == Schedule(bins, incs, tis, i)
    {
      var bin := bins[i];
      c := AccumulateBin(c, incs, bin.start, bin.end);
      if i + 1 == |bins| || bins[i + 1].tileX != bin.tileX || bins[i + 1].tileY != bin.tileY {
        var step;
        step, c, prev, cursor, winding := FinishTile(bins, incs, tis, i, c, prev, cursor, winding);
        calls := calls + step;
      } else {
        WithinGroup(bins, incs, tis, i);
      }
      assert Schedule(bins, incs, tis, i + 1) == Schedule(bins, incs, tis, i) + CallsAt(bins, incs, tis, i);
      if i + 1 < |bins| {
        CursorStaysBefore(tis, cursor, BinKey(bins[i]), BinKey(bins[i + 1]));
      }
    }
  }

  /** A bin that does not end its group hands its cells and row carry on and emits nothing. */
  lemma WithinGroup(bins: seq<Bin>, incs: seq<Increment>, tis: seq<TileIncrement>, i: nat)
    requires BinsIn(bins, incs) && i + 1 < |bins| && BinKey(bins[i + 1]) == BinKey(bins[i])
    ensures !IsGroupEnd(bins, i)
    ensures Pending(bins, incs, i + 1) == Full(bins, incs, i) && Carry(bins, incs, i + 1) == Carry(bins, incs, i)
    ensures CallsAt(bins, incs, tis, i) == []
  {
  }

  /** Crossings at or before tile `a` are at or before every later tile `b`. */
  lemma CursorStaysBefore(tis: seq<TileIncrement>, cursor: nat, a: Key, b: Key)
    requires cursor <= |tis| && KeyLe(a, b)
    requires forall j :: 0 <= j < cursor ==> KeyLe(TileIncKey(tis[j]), a)
    ensures forall j :: 0 <= j < cursor ==> KeyLe(TileIncKey(tis[j]), b)
  {
  }

  // ---- winding sums ----

  lemma {:induction false} WindingAtAppend(s: seq<TileIncrement>, t: seq<TileIncrement>, k: Key)
    ensures WindingAt(s + t, k) == WindingAt(s, k) + WindingAt(t, k)
    decreases |t|
  {
    if t == [] {
      assert s + t == s;
    } else {
      assert (s + t)[..|s + t| - 1] == s + t[..|t| - 1];
      assert (s + t)[|s + t| - 1] == t[|t| - 1];
      WindingAtAppend(s, t[..|t| - 1], k);
    }
  }

  lemma {:induction false} WindingAtAllBefore(s: seq<TileIncrement>, k: Key)
    requires forall j :: 0 <= j < |s| ==> KeyLe(TileIncKey(s[j]), k)
    ensures WindingAt(s, k) == SignSum(s)
  {
    if s != [] {
      WindingAtAllBefore(s[..|s| - 1], k);
    }
  }

  lemma {:induction false} WindingAtAllAfter(s: seq<TileIncrement>, k: Key)
    requires forall j :: 0 <= j < |s| ==> KeyLt(k, TileIncKey(s[j]))
    ensures WindingAt(s, k) == 0
  {
    if s != [] {
      WindingAtAllAfter(s[..|s| - 1], k);
    }
  }

  /** On sorted crossings the winding number at `k` is the sign sum of the prefix at or before `k`,
      which is what the cursor loop computes. */
  lemma WindingAtSorted(tis: seq<TileIncrement>, k: Key, cursor: nat)
    requires SortedBy(tis, TileIncKey) && cursor <= |tis|
    requires forall j :: 0 <= j < cursor ==> KeyLe(TileIncKey(tis[j]), k)
    requires cursor == |tis| || KeyLt(k, TileIncKey(tis[cursor]))
    ensures WindingAt(tis, k) == SignSum(tis[..cursor])
  {
    assert tis == tis[..cursor] + tis[cursor..];
    WindingAtAppend(tis[..cursor], tis[cursor..], k);
    WindingAtAllBefore(tis[..cursor], k);
    forall j | 0 <= j < |tis[cursor..]|
      ensures KeyLt(k, TileIncKey(tis[cursor..][j]))
    {
      assert tis[cursor..][j] == tis[cursor + j];
      if j > 0 {
        assert KeyLe(TileIncKey(tis[cursor]), TileIncKey(tis[cursor + j]));
      }
    }
    WindingAtAllAfter(tis[cursor..], k);
  }
}
