/** The tile atlas of the canvas (`nari-canvas/src/atlas.rs`): pages of 128 x 128 tile slots
    of 8 x 8 pixels, filled by a bump allocator that always serves the last page and opens a
    new page when that one is full. Creating a page's GPU image, view and barrier is not
    modelled; the bindless address of the new page is an argument of `Allocate`. */
module Atlas {
  import OchreTypes
  import opened Wrappers

  const PageWidth: nat := 1024 / OchreTypes.TileSize
  const PageHeight: nat := 1024 / OchreTypes.TileSize
  const PageTiles: nat := PageWidth * PageHeight

  /** A slot: page index (`u16`) and tile column and row in the page (`u8` each). */
  datatype AtlasTile = AtlasTile(page: int, tx: int, ty: int)

  /** A page: its bindless image address and the number of slots handed out. */
  datatype AtlasPage = AtlasPage(address: nat, nextTile: nat)

  /** No page has handed out more than its slots. */
  predicate PagesValid(pages: seq<AtlasPage>)
  {
    forall i :: 0 <= i < |pages| ==> pages[i].nextTile <= PageTiles
  }

  /** `has_free_tile`: false without pages, else whether the last page has a free slot. */
  predicate HasFree(pages: seq<AtlasPage>)
  {
    pages != [] && pages[|pages| - 1].nextTile < PageTiles
  }

  /** The pages after one allocation: the last page's counter grows, or a new page is
      opened with its first slot taken. */
  function AllocPages(pages: seq<AtlasPage>, address: nat): (r: seq<AtlasPage>)
    ensures r != []
  {
    if HasFree(pages) then
      pages[..|pages| - 1] + [pages[|pages| - 1].(nextTile := pages[|pages| - 1].nextTile + 1)]
    else
      pages + [AtlasPage(address, 1)]
  }

  /** The slot one allocation returns: slot number `id` of the last page lies at column
      `id % 128` and row `id / 128`; the page index is cast to `u16`. */
  function AllocTile(pages: seq<AtlasPage>): AtlasTile
  {
    var count := if HasFree(pages) then |pages| else |pages| + 1;
    var id := if HasFree(pages) then pages[|pages| - 1].nextTile else 0;
    AtlasTile((count - 1) % 0x1_0000, id % PageWidth, id / PageWidth)
  }

  class Atlas {
    var pages: seq<AtlasPage>

    /** `Atlas::default()`: no pages. */
    constructor ()
      ensures pages == []
    {
      pages := [];
    }

    /** `has_free_tile`. */
    function HasFreeTile(): (b: bool)
      reads this
      ensures b <==> HasFree(pages)
    {
      match if pages == [] then None else Some(pages[|pages| - 1])
      case Some(page) => page.nextTile < PageTiles
      case None => false
    }

    /** `allocate`: opens a page exactly when there is no free slot, then takes the next slot
        of the last page. */
    method Allocate(newAddress: nat) returns (tile: AtlasTile)
      requires PagesValid(pages)
      modifies this
      ensures PagesValid(pages)
      ensures pages == AllocPages(old(pages), newAddress) && tile == AllocTile(old(pages))
      ensures old(HasFree(pages)) ==> |pages| == |old(pages)|
      ensures !old(HasFree(pages)) ==> pages == old(pages) + [AtlasPage(newAddress, 1)]
      ensures forall i :: 0 <= i < |old(pages)| - 1 ==> pages[i] == old(pages)[i]
      ensures 0 <= tile.tx < PageWidth && 0 <= tile.ty < PageHeight
    {
      ghost var before := pages;
      PageConstants();
      if !HasFreeTile() {
        pages := pages + [AtlasPage(newAddress, 0)];
      }
      var last := |pages| - 1;
      var tileId := pages[last].nextTile;
      assert tileId < PageTiles;
      pages := pages[last := pages[last].(nextTile := tileId + 1)];
      assert HasFree(before) ==> pages == before[..last] + [before[last].(nextTile := tileId + 1)];
      assert !HasFree(before) ==> pages == before + [AtlasPage(newAddress, 1)];
      tile := AtlasTile((|pages| - 1) % 0x1_0000, tileId % PageWidth, tileId / PageWidth);
    }
  }

  /** `n` allocations in a row, with the addresses a newly opened page would get. */
  function AllocMany(pages: seq<AtlasPage>, addresses: seq<nat>): seq<AtlasPage>
  {
    if addresses == [] then pages
    else AllocPages(AllocMany(pages, addresses[..|addresses| - 1]), addresses[|addresses| - 1])
  }

  lemma PageConstants()
    ensures PageWidth == 128 && PageHeight == 128 && PageTiles == 16384
  {
  }

  /** Counting slots up by one either stays on the same page or starts the next one. */
  lemma SlotSucc(m: nat)
    ensures m % 16384 + 1 < 16384 ==> (m + 1) / 16384 == m / 16384 && (m + 1) % 16384 == m % 16384 + 1
    ensures m % 16384 + 1 == 16384 ==> (m + 1) / 16384 == m / 16384 + 1 && (m + 1) % 16384 == 0
  {
  }

  /** After `n > 0` allocations from an empty atlas, every page but the last is full and the
      last holds the remaining slots. */
  lemma {:induction false} AllocManyShape(addresses: seq<nat>)
    requires addresses != []
    ensures var n := |addresses|; var pages := AllocMany([], addresses);
      && |pages| == (n - 1) / PageTiles + 1
      && (forall i :: 0 <= i < |pages| - 1 ==> pages[i].nextTile == PageTiles)
      && pages[|pages| - 1].nextTile == (n - 1) % PageTiles + 1
  {
    var n := |addresses|;
    var init := addresses[..n - 1];
    PageConstants();
    if init == [] {
      assert AllocMany([], init) == [];
    } else {
      var prev := AllocMany([], init);
      AllocManyShape(init);
      SlotSucc(n - 2);
      AllocPagesShape(prev, addresses[n - 1]);
      if (n - 2) % PageTiles + 1 < PageTiles {
        assert HasFree(prev);
      } else {
        assert !HasFree(prev);
      }
    }
  }

  /** One allocation either counts up the last page, leaving the others, or appends a page with
      one slot taken. */
  lemma AllocPagesShape(pages: seq<AtlasPage>, address: nat)
    ensures var r := AllocPages(pages, address);
      && (HasFree(pages) ==>
            && |r| == |pages| && r[|r| - 1].nextTile == pages[|pages| - 1].nextTile + 1
            && forall i :: 0 <= i < |pages| - 1 ==> r[i] == pages[i])
      && (!HasFree(pages) ==>
            && |r| == |pages| + 1 && r[|pages|].nextTile == 1
            && forall i :: 0 <= i < |pages| ==> r[i] == pages[i])
  {
  }

  /** From an empty atlas, allocation number `n` (counting from 0) returns page `n / 16384`,
      column `(n % 16384) % 128` and row `(n % 16384) / 128`; the 16385th (n = 16384) is the
      first slot of the second page. */
  lemma NthAllocation(addresses: seq<nat>)
    ensures var n := |addresses|;
      AllocTile(AllocMany([], addresses)) ==
        AtlasTile((n / PageTiles) % 0x1_0000, (n % PageTiles) % PageWidth, (n % PageTiles) / PageWidth)
  {
    var n := |addresses|;
    PageConstants();
    var pages := AllocMany([], addresses);
    if n == 0 {
      assert pages == [] && !HasFree(pages);
    } else {
      AllocManyShape(addresses);
      SlotSucc(n - 1);
      var id := (n - 1) % PageTiles + 1;
      assert pages[|pages| - 1].nextTile == id;
      if id < PageTiles {
        assert HasFree(pages);
        assert n / PageTiles == |pages| - 1 && n % PageTiles == id;
      } else {
        assert !HasFree(pages);
        assert n / PageTiles == |pages| && n % PageTiles == 0;
      }
    }
  }

  /** The 16385th allocation from an empty atlas opens the second page at its first slot. */
  lemma SecondPageStarts(addresses: seq<nat>)
    requires |addresses| == 16384
    ensures AllocTile(AllocMany([], addresses)) == AtlasTile(1, 0, 0)
  {
    NthAllocation(addresses);
    PageConstants();
  }

  /** Distinct allocations from an empty atlas get distinct slots, as long as the page index
      fits in `u16`. */
  lemma AllocationsDistinct(a: seq<nat>, b: seq<nat>)
    requires |a| != |b| && |a| < 0x1_0000 * PageTiles && |b| < 0x1_0000 * PageTiles
    ensures AllocTile(AllocMany([], a)) != AllocTile(AllocMany([], b))
  {
    NthAllocation(a);
    NthAllocation(b);
    PageConstants();
    var i, j := |a|, |b|;
    SplitSlot(i);
    SplitSlot(j);
  }

  /** An allocation number is recovered from its page, column and row. */
  lemma SplitSlot(n: nat)
    requires n < 0x1_0000 * PageTiles
    ensures n == ((n / PageTiles) % 0x1_0000) * PageTiles
      + ((n % PageTiles) / PageWidth) * PageWidth + (n % PageTiles) % PageWidth
  {
    PageConstants();
    var p, s := n / PageTiles, n % PageTiles;
    assert n == p * PageTiles + s;
    assert p < 0x1_0000;
    assert s == (s / PageWidth) * PageWidth + s % PageWidth;
  }
}
