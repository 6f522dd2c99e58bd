/** What the sweep promises about its calls, proved of `OchreSweep.Schedule` over bins sorted
    row-major: one mask per populated tile in strictly increasing order, and a solid run
    exactly for each winding-covered gap between two horizontally adjacent populated tiles. */
module OchreProps {
  import opened OchreTypes
  import opened OchreSweep

  /** The tiles passed to `mask`, in call order. */
  function MaskKeys(calls: seq<EncoderCall>): seq<Key>
  {
    if calls == [] then []
    else MaskKeys(calls[..|calls| - 1])
         + (var c := calls[|calls| - 1]; if c.Mask? then [Key(c.y, c.x)] else [])
  }

  /** The tiles of the group ends among the first `m` bins. */
  function GroupKeys(bins: seq<Bin>, m: nat): seq<Key>
    requires m <= |bins|
  {
    if m == 0 then []
    else GroupKeys(bins, m - 1) + (if IsGroupEnd(bins, m - 1) then [BinKey(bins[m - 1])] else [])
  }

  predicate StrictlyIncreasing(ks: seq<Key>)
  {
    forall a, b :: 0 <= a < b < |ks| ==> KeyLt(ks[a], ks[b])
  }

  /** Some bin lies in tile `k`. */
  predicate Populated(bins: seq<Bin>, k: Key)
  {
    exists j :: 0 <= j < |bins| && BinKey(bins[j]) == k
  }

  /** A solid run in row `y` over tile columns `[x0, x1)`: its left and right neighbours are
      populated, no tile in it is, and the winding number at the left neighbour is not zero. */
  predicate WindingGap(bins: seq<Bin>, tis: seq<TileIncrement>, y: int, x0: int, x1: int)
  {
    && x0 < x1
    && Populated(bins, Key(y, x0 - 1)) && Populated(bins, Key(y, x1))
    && (forall j :: 0 <= j < |bins| && bins[j].tileY == y ==> !(x0 <= bins[j].tileX < x1))
    && WindingAt(tis, Key(y, x0 - 1)) != 0
  }

  lemma {:induction false} MaskKeysAppend(a: seq<EncoderCall>, b: seq<EncoderCall>)
    ensures MaskKeys(a + b) == MaskKeys(a) + MaskKeys(b)
    decreases |b|
  {
    if b == [] {
      assert a + b == a;
    } else {
      assert (a + b)[..|a + b| - 1] == a + b[..|b| - 1];
      assert (a + b)[|a + b| - 1] == b[|b| - 1];
      MaskKeysAppend(a, b[..|b| - 1]);
    }
  }

  /** The calls made at bin `i` hold one mask, for the bin's tile, exactly when the bin ends
      its group. */
  lemma CallsAtMaskKeys(bins: seq<Bin>, incs: seq<Increment>, tis: seq<TileIncrement>, i: nat)
    requires i < |bins| && BinsIn(bins, incs)
    ensures MaskKeys(CallsAt(bins, incs, tis, i)) == if IsGroupEnd(bins, i) then [BinKey(bins[i])] else []
  {
    var step := CallsAt(bins, incs, tis, i);
    if IsGroupEnd(bins, i) {
      var mask := [Mask(bins[i].tileY, bins[i].tileX, MaskTile(Carry(bins, incs, i), Full(bins, incs, i)))];
      var rest := step[1..];
      assert step == mask + rest;
      MaskKeysAppend(mask, rest);
      assert MaskKeys(mask) == [BinKey(bins[i])] by {
        assert mask[..0] == [];
      }
      assert MaskKeys(rest) == [] by {
        if rest != [] {
          assert rest[..0] == [];
        }
      }
    }
  }

  /** The masks are emitted at the group ends, in bin order. */
  lemma {:induction false} ScheduleMaskKeys(bins: seq<Bin>, incs: seq<Increment>, tis: seq<TileIncrement>, m: nat)
    requires m <= |bins| && BinsIn(bins, incs)
    ensures MaskKeys(Schedule(bins, incs, tis, m)) == GroupKeys(bins, m)
  {
    if m > 0 {
      var i := m - 1;
      var before, step := Schedule(bins, incs, tis, i), CallsAt(bins, incs, tis, i);
      calc {
        MaskKeys(Schedule(bins, incs, tis, m));
        MaskKeys(before + step);
        { MaskKeysAppend(before, step); }
        MaskKeys(before) + MaskKeys(step);
        { ScheduleMaskKeys(bins, incs, tis, i); CallsAtMaskKeys(bins, incs, tis, i); }
        GroupKeys(bins, i) + (if IsGroupEnd(bins, i) then [BinKey(bins[i])] else []);
        GroupKeys(bins, m);
      }
    }
  }

  /** Every group key among the first `m` bins comes strictly before a later bin of a sorted sequence. */
  lemma {:induction false} GroupKeysBefore(bins: seq<Bin>, m: nat)
    requires SortedBy(bins, BinKey) && m < |bins|
    ensures forall a :: 0 <= a < |GroupKeys(bins, m)| ==> KeyLt(GroupKeys(bins, m)[a], BinKey(bins[m]))
  {
    if m > 0 {
      GroupKeysBefore(bins, m - 1);
      assert KeyLe(BinKey(bins[m - 1]), BinKey(bins[m]));
    }
  }

  /** On sorted bins the masked tiles strictly increase row-major, so no tile is masked twice. */
  lemma {:induction false} GroupKeysIncreasing(bins: seq<Bin>, m: nat)
    requires SortedBy(bins, BinKey) && m <= |bins|
    ensures StrictlyIncreasing(GroupKeys(bins, m))
  {
    if m > 0 {
      GroupKeysIncreasing(bins, m - 1);
      if IsGroupEnd(bins, m - 1) {
        GroupKeysBefore(bins, m - 1);
        var g := GroupKeys(bins, m - 1);
        forall a | 0 <= a < |g| ensures KeyLt(g[a], BinKey(bins[m - 1])) {
          assert a < |GroupKeys(bins, m - 1)|;
        }
      }
    }
  }

  /** Every group key is the tile of a group-end bin. */
  lemma {:induction false} GroupKeysAreGroupEnds(bins: seq<Bin>, m: nat, a: nat)
    requires m <= |bins| && a < |GroupKeys(bins, m)|
    ensures exists i :: 0 <= i < m && IsGroupEnd(bins, i) && GroupKeys(bins, m)[a] == BinKey(bins[i])
  {
    if a < |GroupKeys(bins, m - 1)| {
      GroupKeysAreGroupEnds(bins, m - 1, a);
    } else {
      assert IsGroupEnd(bins, m - 1) && GroupKeys(bins, m)[a] == BinKey(bins[m - 1]);
    }
  }

  /** The key of a group end `i < m` appears among the group keys of the first `m` bins. */
  lemma {:induction false} GroupEndInGroupKeys(bins: seq<Bin>, m: nat, i: nat)
    requires m <= |bins| && i < m && IsGroupEnd(bins, i)
    ensures BinKey(bins[i]) in GroupKeys(bins, m)
  {
    if i < m - 1 {
      GroupEndInGroupKeys(bins, m - 1, i);
    }
  }

  /** Every bin shares its tile with a group end at or after it. */
  lemma {:induction false} GroupEndOf(bins: seq<Bin>, i: nat) returns (j: nat)
    requires i < |bins|
    ensures i <= j < |bins| && IsGroupEnd(bins, j) && BinKey(bins[j]) == BinKey(bins[i])
    decreases |bins| - i
  {
    if IsGroupEnd(bins, i) {
      j := i;
    } else {
      j := GroupEndOf(bins, i + 1);
    }
  }

  /** The masked tiles are exactly the tiles of the bins. */
  lemma GroupKeysCoverBins(bins: seq<Bin>)
    ensures forall k :: k in GroupKeys(bins, |bins|) <==> Populated(bins, k)
  {
    forall k | k in GroupKeys(bins, |bins|) ensures Populated(bins, k) {
      var a :| 0 <= a < |GroupKeys(bins, |bins|)| && GroupKeys(bins, |bins|)[a] == k;
      GroupKeysAreGroupEnds(bins, |bins|, a);
    }
    forall k | Populated(bins, k) ensures k in GroupKeys(bins, |bins|) {
      var i :| 0 <= i < |bins| && BinKey(bins[i]) == k;
      var j := GroupEndOf(bins, i);
      GroupEndInGroupKeys(bins, |bins|, j);
    }
  }

  /** On sorted bins each bin's tile is at or before or at or after any other bin's. */
  lemma SortedSplit(bins: seq<Bin>, i: nat, j: nat)
    requires SortedBy(bins, BinKey) && i < |bins| && j < |bins|
    ensures j <= i ==> KeyLe(BinKey(bins[j]), BinKey(bins[i]))
    ensures j >= i ==> KeyLe(BinKey(bins[i]), BinKey(bins[j]))
  {
  }

  /** A solid emitted at group end `i` covers a winding gap. */
  lemma SolidAtIsGap(bins: seq<Bin>, tis: seq<TileIncrement>, i: nat)
    requires SortedBy(bins, BinKey) && i < |bins| && IsGroupEnd(bins, i) && HasGap(bins, i)
    requires WindingAt(tis, BinKey(bins[i])) != 0
    ensures WindingGap(bins, tis, bins[i].tileY, bins[i].tileX + 1, bins[i + 1].tileX)
  {
    var y, x0, x1 := bins[i].tileY, bins[i].tileX + 1, bins[i + 1].tileX;
    assert BinKey(bins[i]) == Key(y, x0 - 1);
    assert BinKey(bins[i + 1]) == Key(y, x1);
    forall j | 0 <= j < |bins| && bins[j].tileY == y
      ensures !(x0 <= bins[j].tileX < x1)
    {
      if j <= i {
        SortedSplit(bins, i, j);
      } else {
        SortedSplit(bins, i + 1, j);
      }
    }
  }

  /** Every solid run in the calls for the first `m` bins covers a winding gap. */
  lemma {:induction false} ScheduleSolids(bins: seq<Bin>, incs: seq<Increment>, tis: seq<TileIncrement>, m: nat)
    requires m <= |bins| && BinsIn(bins, incs) && SortedBy(bins, BinKey)
    ensures forall c :: c in Schedule(bins, incs, tis, m) && c.Solid? ==> WindingGap(bins, tis, c.y, c.x0, c.x1)
  {
    if m > 0 {
      var i := m - 1;
      ScheduleSolids(bins, incs, tis, i);
      if IsGroupEnd(bins, i) && HasGap(bins, i) && WindingAt(tis, BinKey(bins[i])) != 0 {
        SolidAtIsGap(bins, tis, i);
      }
    }
  }

  /** Conversely, every winding gap between populated tiles of one row gets its solid run. */
  lemma GapsAreFilled(bins: seq<Bin>, incs: seq<Increment>, tis: seq<TileIncrement>, y: int, x0: int, x1: int)
    requires BinsIn(bins, incs) && SortedBy(bins, BinKey)
    requires WindingGap(bins, tis, y, x0, x1)
    ensures Solid(y, x0, x1) in Schedule(bins, incs, tis, |bins|)
  {
    var l :| 0 <= l < |bins| && BinKey(bins[l]) == Key(y, x0 - 1);
    var r :| 0 <= r < |bins| && BinKey(bins[r]) == Key(y, x1);
    var i := GroupEndOf(bins, l);
    if r <= i {
      SortedSplit(bins, i, r);
      assert false;
    }
    assert i + 1 < |bins|;
    SortedSplit(bins, i + 1, r);
    SortedSplit(bins, i, i + 1);
    assert bins[i + 1].tileY == y && bins[i + 1].tileX == x1;
    assert HasGap(bins, i);
    ScheduleHasCallsAt(bins, incs, tis, |bins|, i);
    assert CallsAt(bins, incs, tis, i)[1] == Solid(y, x0, x1);
  }

  lemma {:induction false} ScheduleHasCallsAt(bins: seq<Bin>, incs: seq<Increment>, tis: seq<TileIncrement>, m: nat, i: nat)
    requires m <= |bins| && BinsIn(bins, incs) && i < m
    ensures forall c :: c in CallsAt(bins, incs, tis, i) ==> c in Schedule(bins, incs, tis, m)
  {
    if i < m - 1 {
      ScheduleHasCallsAt(bins, incs, tis, m - 1, i);
    }
  }

  lemma {:induction false} RowPrefixZero(y: nat, x: nat)
    requires y < 8 && x <= 8
    ensures RowPrefix(Zeros(64), y, x) == 0.0
  {
    if x > 0 {
      RowPrefixZero(y, x - 1);
    }
  }

  /** An empty path still yields one bin, at tile (0, 0), and so one all-zero mask there and
      nothing else. */
  lemma EmptyPathSchedule(tis: seq<TileIncrement>)
    ensures Schedule([Bin(0, 0, 0, 0)], [], tis, 1) == [Mask(0, 0, seq(8, _ => seq(8, _ => 0)))]
  {
    var bins := [Bin(0, 0, 0, 0)];
    var t := MaskTile(Carry(bins, [], 0), Full(bins, [], 0));
    assert Full(bins, [], 0) == ZeroCells();
    var zero: seq<seq<Byte>> := seq(8, _ => seq(8, _ => 0));
    forall y | 0 <= y < 8 ensures t[y] == zero[y] {
      forall x | 0 <= x < 8 ensures t[y][x] == 0 {
        RowPrefixZero(y, x);
      }
    }
    assert t == zero;
    assert CallsAt(bins, [], tis, 0) == [Mask(0, 0, t)];
  }
}
