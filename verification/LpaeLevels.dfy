/** Levels, blocks and indices of an ARM LPAE table. Level lvl of the hardware is height 3 - lvl here, so pages are at
    height 0. */
module LpaeLevels {
  import opened Arith

  /** Entries hold at most 13 bits of count. */
  const COUNTS: nat := 0x2000

  /** Granule in bytes, entries per table, height of the first table, entries of the first table. */
  datatype Geom = Geom(page: nat, n: nat, H: nat, top: nat) {
    predicate Ok() { 0 < page && 2 <= n <= COUNTS && H <= 3 && 1 <= top <= n }

    /** Granules of 4K, 16K or 64K, each table one granule of 8-byte entries, and no more levels than addresses have
        bits for. */
    predicate Real() {
      && Ok() && (page == 0x1000 || page == 0x4000 || page == 0x1_0000) && n == page / 8
      && (page == 0x1_0000 ==> H <= 2)
    }

    /** ARM_LPAE_BLOCK_SIZE */
    function Block(h: nat): (size: nat)
      requires Ok()
      ensures size > 0
      decreases h
    {
      if h == 0 then page else MulPositive(n, Block(h - 1)); n * Block(h - 1)
    }

    /** Bytes in k blocks of height h. */
    function Span(h: nat, k: nat): nat requires Ok() { k * Block(h) }

    predicate Aligned(h: nat, x: nat) requires Ok() { x % Block(h) == 0 }

    /** Offset of x within its block of height h. */
    function Off(h: nat, x: nat): (o: nat)
      requires Ok()
      ensures o < Block(h)
    {
      x % Block(h)
    }

    /** Entries of a table at height h. */
    function Size(h: nat): nat { if h == H then top else n }

    /** Number of the block of height h that holds address x. */
    function Cell(h: nat, x: nat): nat
      requires Ok()
    {
      x / Block(h)
    }

    /** ARM_LPAE_LVL_IDX */
    function Index(h: nat, x: nat): (i: nat)
      requires Ok()
      ensures i < n
    {
      Cell(h, x) % n
    }

    /** First address past the ones the table can translate. */
    function Limit(): nat requires Ok() { top * Block(H) }
  }

  lemma CellUp(g: Geom, h: nat, x: nat)
    requires g.Ok()
    ensures g.Cell(h + 1, x) == g.Cell(h, x) / g.n
    ensures g.Cell(h, x) == g.Cell(h + 1, x) * g.n + g.Index(h, x)
  {
    DivDiv(x, g.Block(h), g.n);
    DivTimes(g.Cell(h, x), g.n);
  }

  lemma Child(n: nat, b: nat, i: nat)
    requires i < n
    ensures (b * n + i) / n == b && (b * n + i) % n == i
  {
    DivUnique(b * n + i, n, b);
  }

  /** Within the first k blocks from an aligned address, blocks are numbered one after the other. */
  lemma CellRange(g: Geom, h: nat, a: nat, k: nat, x: nat)
    requires g.Ok() && g.Aligned(h, a)
    ensures a <= x < a + g.Span(h, k) <==> g.Cell(h, a) <= g.Cell(h, x) < g.Cell(h, a) + k
  {
    var B := g.Block(h);
    var q, r := a / B, x / B;
    DivTimes(a, B);
    DivTimes(x, B);
    assert (q + k) * B == q * B + k * B;
    if q <= r { MulMonotone(q, r, B); } else { MulMonotone(r + 1, q, B); }
    assert (r + 1) * B == r * B + B;
    if r < q + k { MulMonotone(r + 1, q + k, B); } else { MulMonotone(q + k, r, B); }
  }

  /** Offset of x from an aligned address, by block number and offset within the block. */
  lemma CellOffset(g: Geom, h: nat, a: nat, x: nat)
    requires g.Ok() && g.Aligned(h, a) && g.Cell(h, a) <= g.Cell(h, x)
    ensures x - a == (g.Cell(h, x) - g.Cell(h, a)) * g.Block(h) + g.Off(h, x)
  {
    var B := g.Block(h);
    DivTimes(a, B);
    DivTimes(x, B);
    var q, r := a / B, x / B;
    assert (r - q) * B == r * B - q * B;
  }

  /** Addresses below the limit have a cell in the first table. */
  lemma UnderLimit(g: Geom, x: nat)
    requires g.Ok() && x < g.Limit()
    ensures g.Cell(g.H, x) < g.top && g.Cell(g.H + 1, x) == 0 && g.Index(g.H, x) == g.Cell(g.H, x)
  {
    DivBelow(x, g.Block(g.H), g.top);
    CellUp(g, g.H, x);
    DivUnique(g.Cell(g.H, x), g.n, 0);
  }

  lemma {:induction false} BlockDivides(g: Geom, h: nat, k: nat, x: nat)
    requires g.Ok() && h <= k && g.Aligned(k, x)
    ensures g.Aligned(h, x)
    decreases k - h
  {
    if h < k {
      var q := x / g.Block(k);
      DivTimes(x, g.Block(k));
      Regroup(q, g.n, g.Block(k - 1));
      DivUnique(x, g.Block(k - 1), q * g.n);
      BlockDivides(g, h, k - 1, x);
    }
  }

  lemma {:induction false} BlockGrows(g: Geom, h: nat, k: nat)
    requires g.Ok() && h < k
    ensures g.Block(h) < g.Block(k)
    decreases k
  {
    MulMonotone(2, g.n, g.Block(k - 1));
    if h < k - 1 { BlockGrows(g, h, k - 1); }
  }

  /** Blocks of different heights have different sizes. */
  lemma SameHeight(g: Geom, h: nat, k: nat)
    requires g.Ok()
    ensures g.Block(h) == g.Block(k) <==> h == k
  {
    if h < k { BlockGrows(g, h, k); }
    if k < h { BlockGrows(g, k, h); }
  }

  /** A range of blocks below the limit fits the first table. */
  lemma TopFits(g: Geom, x: nat, k: nat)
    requires g.Ok() && g.Aligned(g.H, x) && x + g.Span(g.H, k) <= g.Limit()
    ensures g.Cell(g.H, x) + k <= g.top
  {
    var B := g.Block(g.H);
    DivTimes(x, B);
    var q := x / B;
    assert (q + k) * B == q * B + k * B;
    assert (g.top + 1) * B == g.top * B + B;
    if q + k > g.top { MulMonotone(g.top + 1, q + k, B); }
  }
}
