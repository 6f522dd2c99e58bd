/** The tile rasterizer `Rasterizer` (`nari-ochre/src/lib.rs`): the path builder records
    pixel increments and tile-row crossings, and `end` bins, sorts and sweeps them into
    encoder calls. The floating-point line walker is not modelled: `line_to` receives the
    increments it produces as an argument. The `Encoder` callbacks are returned as the
    sequence of calls `end` makes. */
module Ochre {
  import opened OchreTypes
  import opened OchreSweep
  import opened OchreProps

  datatype Point = Point(x: real, y: real)

  /** A pixel position reached by the line walker. */
  datatype Cell = Cell(x: int, y: int)

  /** The tile bounding box returned by `range`, with exclusive `bottom` and `right`. */
  datatype TileRange = TileRange(top: int, left: int, bottom: int, right: int)

  function Min(a: int, b: int): int { if a <= b then a else b }
  function Max(a: int, b: int): int { if a >= b then a else b }

  /** `v.floor() as i16`: Rust's float-to-integer cast saturates at the bounds of `i16`. */
  function Floor16(v: real): (r: I16)
    ensures -0x8000 <= v.Floor < 0x8000 ==> r == v.Floor
  {
    if v.Floor < -0x8000 then -0x8000 else if v.Floor >= 0x8000 then 0x7FFF else v.Floor
  }

  /** `d as i8`: keeps the low eight bits, read as two's complement. */
  function Wrap8(d: int): (r: int)
    ensures -128 <= r < 128
    ensures -128 <= d < 128 ==> r == d
  {
    (d + 128) % 256 - 128
  }

  /** The pixel the walker stands on after each increment: the cell of the next increment,
      and after the last one the cell of the end point (the walker snaps to `to.floor()`). */
  function Positions(path: seq<Increment>, to: Point): (ps: seq<Cell>)
    ensures |ps| == |path|
  {
    seq(|path|, j requires 0 <= j < |path| =>
      if j + 1 < |path| then Cell(path[j + 1].x, path[j + 1].y) else Cell(Floor16(to.x), Floor16(to.y)))
  }

  /** The tile row the walker is in after the positions `ps`, starting in row `row`. */
  function RowAfter(row: int, ps: seq<Cell>): int
  {
    if ps == [] then row else ps[|ps| - 1].y / TileSize
  }

  /** The crossing recorded when the walker reaches `p` from tile row `row`, if it changed row. */
  function Crossing(row: int, p: Cell): seq<TileIncrement>
  {
    var ty := p.y / TileSize;
    if ty == row then [] else [TileIncrement(p.x / TileSize, Min(row, ty), Wrap8(ty - row))]
  }

  /** All crossings recorded along the positions `ps`, starting in tile row `row`. */
  function Crossings(row: int, ps: seq<Cell>): seq<TileIncrement>
  {
    if ps == [] then []
    else Crossings(row, ps[..|ps| - 1]) + Crossing(RowAfter(row, ps[..|ps| - 1]), ps[|ps| - 1])
  }

  /** The bin ranges partition `0..n` in order. */
  predicate Partition(bins: seq<Bin>, n: nat)
  {
    && |bins| >= 1
    && bins[0].start == 0 && bins[|bins| - 1].end == n
    && (forall k :: 0 <= k < |bins| - 1 ==> bins[k].end == bins[k + 1].start)
    && (forall k :: 0 <= k < |bins| ==> bins[k].start <= bins[k].end <= n)
  }

  predicate NonEmptyBins(bins: seq<Bin>)
  {
    forall k :: 0 <= k < |bins| ==> bins[k].start < bins[k].end
  }

  /** Every increment of a bin lies in the bin's tile. */
  predicate InTile(incs: seq<Increment>, bins: seq<Bin>)
  {
    forall k, j :: 0 <= k < |bins| && bins[k].start <= j < bins[k].end && j < |incs| ==> IncKey(incs[j]) == BinKey(bins[k])
  }

  /** Neighbouring bins lie in different tiles, so each bin is a maximal run. */
  predicate Maximal(bins: seq<Bin>)
  {
    forall k :: 0 <= k < |bins| - 1 ==> BinKey(bins[k]) != BinKey(bins[k + 1])
  }

  /** The binning of `end`: the bins are the maximal runs of consecutive increments in one
      tile, and their ranges partition `0..|incs|`; with no increments the single bin is the
      empty one at tile (0, 0). */
  predicate IsBinning(incs: seq<Increment>, bins: seq<Bin>)
  {
    && Partition(bins, |incs|)
    && (incs != [] ==> NonEmptyBins(bins))
    && InTile(incs, bins)
    && Maximal(bins)
    && (incs == [] ==> bins == [Bin(0, 0, 0, 0)])
  }

  /** The tiles touched by the increments, or tile (0, 0) for none. */
  predicate Touched(incs: seq<Increment>, k: Key)
  {
    if incs == [] then k == Key(0, 0) else exists j :: 0 <= j < |incs| && IncKey(incs[j]) == k
  }

  class Rasterizer {
    var start: Point
    var cur: Point
    var rowPrev: int
    var increments: seq<Increment>
    var tileIncrements: seq<TileIncrement>
    var bins: seq<Bin>

    /** `Rasterizer::default()`. */
    constructor ()
      ensures start == Point(0.0, 0.0) && cur == Point(0.0, 0.0) && rowPrev == 0
      ensures increments == [] && tileIncrements == [] && bins == []
    {
      start := Point(0.0, 0.0);
      cur := Point(0.0, 0.0);
      rowPrev := 0;
      increments := [];
      tileIncrements := [];
      bins := [];
    }

    /** `begin`: forgets the increments and crossings of the previous path. */
    method Begin()
      modifies this
      ensures increments == [] && tileIncrements == []
      ensures start == old(start) && cur == old(cur) && rowPrev == old(rowPrev) && bins == old(bins)
    {
      increments := [];
      tileIncrements := [];
    }

    /** `range`: the tightest tile box around all increments, or the sentinel box
        `top = left = i16::MAX`, `bottom = right = i16::MIN` when there are none. */
    method Range() returns (r: TileRange)
      ensures increments == [] ==> r == TileRange(0x7FFF, 0x7FFF, -0x8000, -0x8000)
      ensures forall j :: 0 <= j < |increments| ==>
        r.left <= increments[j].x / TileSize < r.right && r.top <= increments[j].y / TileSize < r.bottom
      ensures increments != [] ==>
        && (exists j :: 0 <= j < |increments| && increments[j].x / TileSize == r.left)
        && (exists j :: 0 <= j < |increments| && increments[j].x / TileSize + 1 == r.right)
        && (exists j :: 0 <= j < |increments| && increments[j].y / TileSize == r.top)
        && (exists j :: 0 <= j < |increments| && increments[j].y / TileSize + 1 == r.bottom)
    {
      r := TileRange(0x7FFF, 0x7FFF, -0x8000, -0x8000);
      for i := 0 to |increments|
        invariant i == 0 ==> r == TileRange(0x7FFF, 0x7FFF, -0x8000, -0x8000)
        invariant forall j :: 0 <= j < i ==>
          r.left <= increments[j].x / TileSize < r.right && r.top <= increments[j].y / TileSize < r.bottom
        invariant i > 0 ==>
          && (exists j :: 0 <= j < i && increments[j].x / TileSize == r.left)
          && (exists j :: 0 <= j < i && increments[j].x / TileSize + 1 == r.right)
          && (exists j :: 0 <= j < i && increments[j].y / TileSize == r.top)
          && (exists j :: 0 <= j < i && increments[j].y / TileSize + 1 == r.bottom)
      {
        var inc := increments[i];
        var tx := inc.x / TileSize;
        var ty := inc.y / TileSize;
        r := TileRange(Min(r.top, ty), Min(r.left, tx), Max(r.bottom, ty + 1), Max(r.right, tx + 1));
      }
    }

    /** `current_point` reports the start of the current subpath, not the pen position. */
    function CurrentPoint(): (p: Point)
      reads this
      ensures p == start
    {
      start
    }

    /** `move_to`: starts a subpath at `to` in the tile row of `to`. */
    method MoveTo(to: Point)
      modifies this
      ensures start == to && cur == to && rowPrev == Floor16(to.y) / TileSize
      ensures increments == old(increments) && tileIncrements == old(tileIncrements) && bins == old(bins)
    {
      rowPrev := Floor16(to.y) / TileSize;
      start := to;
      cur := to;
    }

    /** `line_to`: a segment to the current point records nothing; otherwise the increments
        of the segment (`path`, computed by the line walker) are appended, each step that
        changes tile row records a crossing, and the pen moves to `to`. */
    method LineTo(to: Point, path: seq<Increment>)
      requires cur != to ==> |path| > 0
      modifies this
      ensures start == old(start) && bins == old(bins)
      ensures old(cur) == to ==>
        cur == old(cur) && increments == old(increments) && tileIncrements == old(tileIncrements) && rowPrev == old(rowPrev)
      ensures old(cur) != to ==>
        && cur == to
        && increments == old(increments) + path
        && tileIncrements == old(tileIncrements) + Crossings(old(rowPrev), Positions(path, to))
        && rowPrev == RowAfter(old(rowPrev), Positions(path, to))
    {
      if cur == to {
        return;
      }
      ghost var ps := Positions(path, to);
      ghost var row0, incs0, tis0 := rowPrev, increments, tileIncrements;
      for j := 0 to |path|
        invariant increments == incs0 + path[..j]
        invariant tileIncrements == tis0 + Crossings(row0, ps[..j])
        invariant rowPrev == RowAfter(row0, ps[..j])
        invariant cur == old(cur) && start == old(start) && bins == old(bins)
      {
        assert path[..j + 1] == path[..j] + [path[j]];
        var x, y;
        if j + 1 < |path| {
          x, y := path[j + 1].x, path[j + 1].y;
        } else {
          x, y := Floor16(to.x), Floor16(to.y);
        }
        assert ps[j] == Cell(x, y);
        CrossingsSnoc(row0, ps, j);
        Walk(path[j], x, y);
      }
      assert path[..|path|] == path && ps[..|path|] == ps;
      cur := to;
    }

    /** One step of the walker in `line_to`: the increment is recorded, and moving on to pixel
        `(x, y)` records a crossing when it lies in another tile row. */
    method Walk(inc: Increment, x: I16, y: I16)
      modifies this
      ensures increments == old(increments) + [inc]
      ensures tileIncrements == old(tileIncrements) + Crossing(old(rowPrev), Cell(x, y))
      ensures rowPrev == y / TileSize
      ensures start == old(start) && cur == old(cur) && bins == old(bins)
    {
      increments := increments + [inc];
      var tileY := y / TileSize;
      if tileY != rowPrev {
        tileIncrements := tileIncrements + [TileIncrement(x / TileSize, Min(rowPrev, tileY), Wrap8(tileY - rowPrev))];
        rowPrev := tileY;
      }
    }

    /** `close`: draws the closing segment back to `start` only when the pen is elsewhere. */
    method Close(path: seq<Increment>)
      requires start != cur ==> |path| > 0
      modifies this
      ensures cur == start && start == old(start) && bins == old(bins)
      ensures old(start) == old(cur) ==>
        increments == old(increments) && tileIncrements == old(tileIncrements) && rowPrev == old(rowPrev)
      ensures old(start) != old(cur) ==>
        && increments == old(increments) + path
        && tileIncrements == old(tileIncrements) + Crossings(old(rowPrev), Positions(path, old(start)))
        && rowPrev == RowAfter(old(rowPrev), Positions(path, old(start)))
    {
      if start != cur {
        LineTo(start, path);
      }
    }

    /** The first half of `end`: the increments are cut into maximal runs per tile. */
    method BuildBins()
      modifies this
      ensures IsBinning(increments, bins)
      ensures increments == old(increments) && tileIncrements == old(tileIncrements)
      ensures start == old(start) && cur == old(cur) && rowPrev == old(rowPrev)
    {
      bins := [];
      var bin := Bin(0, 0, 0, 0);
      if |increments| > 0 {
        var first := increments[0];
        bin := Bin(first.x / TileSize, first.y / TileSize, 0, 0);
      }
      for i := 0 to |increments|
        invariant increments == old(increments) && tileIncrements == old(tileIncrements)
        invariant start == old(start) && cur == old(cur) && rowPrev == old(rowPrev)
        invariant bin.end == i
        invariant i == 0 ==> bins == [] && bin.start == 0
        invariant i == 0 && increments != [] ==> BinKey(bin) == IncKey(increments[0])
        invariant increments == [] ==> bin == Bin(0, 0, 0, 0)
        invariant i > 0 ==> bin.start < i && Partition(bins + [bin], i) && NonEmptyBins(bins + [bin])
        invariant InTile(increments, bins + [bin]) && Maximal(bins + [bin])
      {
        var inc := increments[i];
        var tileX := inc.x / TileSize;
        var tileY := inc.y / TileSize;
        if tileX != bin.tileX || tileY != bin.tileY {
          OpenBin(increments, i, bins, bin);
          bins := bins + [bin];
          bin := Bin(tileX, tileY, i, i);
        } else {
          ExtendBin(increments, i, bins, bin);
        }
        bin := bin.(end := bin.end + 1);
      }
      bins := bins + [bin];
      BinningDone(increments, bins);
    }

    /** `end`: closes the path, bins the increments, sorts bins and crossings row-major and
        sweeps them. The calls mask every touched tile exactly once, in row-major order, and
        fill with solid runs exactly the gaps of nonzero winding between touched tiles. */
    method End(closePath: seq<Increment>) returns (calls: seq<EncoderCall>)
      requires start != cur ==> |closePath| > 0
      modifies this
      ensures cur == start && start == old(start)
      ensures increments == (if old(start) != old(cur) then old(increments) + closePath else old(increments))
      ensures SortedBy(bins, BinKey) && SortedBy(tileIncrements, TileIncKey)
      ensures BinsIn(bins, increments)
      ensures calls == Schedule(bins, increments, tileIncrements, |bins|)
      ensures StrictlyIncreasing(MaskKeys(calls))
      ensures forall k :: k in MaskKeys(calls) <==> Touched(increments, k)
      ensures forall k :: Populated(bins, k) <==> Touched(increments, k)
      ensures forall c :: c in calls && c.Solid? ==> WindingGap(bins, tileIncrements, c.y, c.x0, c.x1)
      ensures forall y, x0, x1 :: WindingGap(bins, tileIncrements, y, x0, x1) ==> Solid(y, x0, x1) in calls
    {
      Close(closePath);
      BuildBins();
      ghost var binned := bins;
      ghost var crossings := tileIncrements;
      bins := SortByKey(bins, BinKey);
      tileIncrements := SortByKey(tileIncrements, TileIncKey);
      SortedBinsAndCrossings(increments, binned, crossings);
      calls := Sweep(bins, increments, tileIncrements);
      SweepProperties(increments, bins, tileIncrements, calls);
    }
  }

  /** Sorting a binning and the crossings gives the sweep what it needs. */
  lemma SortedBinsAndCrossings(incs: seq<Increment>, binned: seq<Bin>, tis: seq<TileIncrement>)
    requires IsBinning(incs, binned)
    ensures SortedBy(SortByKey(binned, BinKey), BinKey) && SortedBy(SortByKey(tis, TileIncKey), TileIncKey)
    ensures BinsIn(SortByKey(binned, BinKey), incs)
    ensures forall k :: Populated(SortByKey(binned, BinKey), k) <==> Touched(incs, k)
  {
    SortByKeySorted(binned, BinKey);
    SortByKeySorted(tis, TileIncKey);
    BinningTouched(incs, binned);
    PermutedBins(incs, binned, SortByKey(binned, BinKey));
  }

  /** What the calls of the sweep over sorted bins promise. */
  lemma SweepProperties(incs: seq<Increment>, bins: seq<Bin>, tis: seq<TileIncrement>, calls: seq<EncoderCall>)
    requires BinsIn(bins, incs) && SortedBy(bins, BinKey)
    requires forall k :: Populated(bins, k) <==> Touched(incs, k)
    requires calls == Schedule(bins, incs, tis, |bins|)
    ensures StrictlyIncreasing(MaskKeys(calls))
    ensures forall k :: k in MaskKeys(calls) <==> Touched(incs, k)
    ensures forall c :: c in calls && c.Solid? ==> WindingGap(bins, tis, c.y, c.x0, c.x1)
    ensures forall y, x0, x1 :: WindingGap(bins, tis, y, x0, x1) ==> Solid(y, x0, x1) in calls
  {
    ScheduleMaskKeys(bins, incs, tis, |bins|);
    GroupKeysIncreasing(bins, |bins|);
    GroupKeysCoverBins(bins);
    ScheduleSolids(bins, incs, tis, |bins|);
    forall y, x0, x1 | WindingGap(bins, tis, y, x0, x1)
      ensures Solid(y, x0, x1) in calls
    {
      GapsAreFilled(bins, incs, tis, y, x0, x1);
    }
  }

  /** Extending the positions by one extends the crossings by that step's crossing. */
  lemma CrossingsSnoc(row: int, ps: seq<Cell>, j: nat)
    requires j < |ps|
    ensures Crossings(row, ps[..j + 1]) == Crossings(row, ps[..j]) + Crossing(RowAfter(row, ps[..j]), ps[j])
    ensures RowAfter(row, ps[..j + 1]) == ps[j].y / TileSize
  {
    assert ps[..j + 1][..j] == ps[..j];
  }

  /** A step of the binning loop that stays in the tile of the current bin extends it. */
  lemma ExtendBin(incs: seq<Increment>, i: nat, bins: seq<Bin>, bin: Bin)
    requires i < |incs| && bin.end == i && IncKey(incs[i]) == BinKey(bin)
    requires i == 0 ==> bins == [] && bin.start == 0
    requires i > 0 ==> bin.start < i && Partition(bins + [bin], i) && NonEmptyBins(bins + [bin])
    requires InTile(incs, bins + [bin]) && Maximal(bins + [bin])
    ensures var after := bins + [bin.(end := i + 1)];
      Partition(after, i + 1) && NonEmptyBins(after) && InTile(incs, after) && Maximal(after)
  {
    var before := bins + [bin];
    var after := bins + [bin.(end := i + 1)];
    assert forall k :: 0 <= k < |bins| ==> after[k] == before[k];
    assert BinKey(after[|bins|]) == BinKey(before[|bins|]);
  }

  /** A step of the binning loop that leaves the tile of the current bin closes it and opens
      a bin for the new tile. */
  lemma OpenBin(incs: seq<Increment>, i: nat, bins: seq<Bin>, bin: Bin)
    requires i < |incs| && bin.end == i && IncKey(incs[i]) != BinKey(bin)
    requires i > 0 && bin.start < i && Partition(bins + [bin], i) && NonEmptyBins(bins + [bin])
    requires InTile(incs, bins + [bin]) && Maximal(bins + [bin])
    ensures var after := bins + [bin] + [Bin(IncKey(incs[i]).tx, IncKey(incs[i]).ty, i, i + 1)];
      Partition(after, i + 1) && NonEmptyBins(after) && InTile(incs, after) && Maximal(after)
  {
    var before := bins + [bin];
    var after := before + [Bin(IncKey(incs[i]).tx, IncKey(incs[i]).ty, i, i + 1)];
    assert forall k :: 0 <= k < |before| ==> after[k] == before[k];
  }

  /** The loop's final state is a binning of all increments. */
  lemma BinningDone(incs: seq<Increment>, bins: seq<Bin>)
    requires incs != [] ==> Partition(bins, |incs|) && NonEmptyBins(bins)
    requires incs == [] ==> bins == [Bin(0, 0, 0, 0)]
    requires InTile(incs, bins) && Maximal(bins)
    ensures IsBinning(incs, bins)
  {
  }

  /** Every increment lies in some bin. */
  lemma {:induction false} BinContaining(incs: seq<Increment>, bins: seq<Bin>, j: nat, m: nat) returns (k: nat)
    requires IsBinning(incs, bins) && m < |bins| && j < bins[m].end
    ensures k <= m && bins[k].start <= j < bins[k].end
  {
    if j >= bins[m].start {
      k := m;
    } else {
      k := BinContaining(incs, bins, j, m - 1);
    }
  }

  /** The bins of a binning populate exactly the touched tiles. */
  lemma BinningTouched(incs: seq<Increment>, bins: seq<Bin>)
    requires IsBinning(incs, bins)
    ensures forall k :: Populated(bins, k) <==> Touched(incs, k)
  {
    if incs != [] {
      forall k | Populated(bins, k) ensures Touched(incs, k) {
        var b :| 0 <= b < |bins| && BinKey(bins[b]) == k;
        assert IncKey(incs[bins[b].start]) == k;
      }
      forall k | Touched(incs, k) ensures Populated(bins, k) {
        var j :| 0 <= j < |incs| && IncKey(incs[j]) == k;
        var b := BinContaining(incs, bins, j, |bins| - 1);
      }
    } else {
      assert bins == [Bin(0, 0, 0, 0)];
      assert BinKey(bins[0]) == Key(0, 0);
    }
  }

  /** A permutation of the bins keeps their ranges and their tiles. */
  lemma PermutedBins(incs: seq<Increment>, bins: seq<Bin>, sorted: seq<Bin>)
    requires IsBinning(incs, bins) && multiset(sorted) == multiset(bins)
    ensures BinsIn(sorted, incs)
    ensures forall k :: Populated(sorted, k) <==> Populated(bins, k)
  {
    forall i | 0 <= i < |sorted| ensures sorted[i].start <= sorted[i].end <= |incs| {
      assert sorted[i] in multiset(bins);
    }
    forall k | Populated(sorted, k) ensures Populated(bins, k) {
      var i :| 0 <= i < |sorted| && BinKey(sorted[i]) == k;
      assert sorted[i] in multiset(bins);
      var j :| 0 <= j < |bins| && bins[j] == sorted[i];
    }
    forall k | Populated(bins, k) ensures Populated(sorted, k) {
      var i :| 0 <= i < |bins| && BinKey(bins[i]) == k;
      assert bins[i] in multiset(sorted);
      var j :| 0 <= j < |sorted| && sorted[j] == bins[i];
    }
  }

  lemma {:induction false} SignSumAppend(s: seq<TileIncrement>, t: seq<TileIncrement>)
    ensures SignSum(s + t) == SignSum(s) + SignSum(t)
    decreases |t|
  {
    if t == [] {
      assert s + t == s;
    } else {
      assert (s + t)[..|s + t| - 1] == s + t[..|t| - 1];
      assert (s + t)[|s + t| - 1] == t[|t| - 1];
      SignSumAppend(s, t[..|t| - 1]);
    }
  }

  /** The crossings telescope: as long as no single step jumps 128 tile rows or more (so
      the `i8` cast keeps the difference), their signs add up to the net change of tile row.
      In particular a closed subpath, which ends in the tile row it started in, contributes
      winding zero in total. */
  lemma {:induction false} CrossingsTelescope(row: int, ps: seq<Cell>)
    requires forall j :: 0 <= j < |ps| ==> -128 <= ps[j].y / TileSize - RowAfter(row, ps[..j]) < 128
    ensures SignSum(Crossings(row, ps)) == RowAfter(row, ps) - row
  {
    if ps != [] {
      var n := |ps| - 1;
      var init := ps[..n];
      forall j | 0 <= j < |init|
        ensures -128 <= init[j].y / TileSize - RowAfter(row, init[..j]) < 128
      {
        assert init[..j] == ps[..j];
      }
      CrossingsTelescope(row, init);
      var c := Crossing(RowAfter(row, init), ps[n]);
      SignSumAppend(Crossings(row, init), c);
      if c != [] {
        assert c[..0] == [];
      }
    }
  }
}
