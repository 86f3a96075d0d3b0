/** Runs in which the page table answers otherwise than one would expect. */
module LpaeExamples {
  import opened Arith
  import opened Counting
  import opened LpaeLevels
  import opened LpaeAddr
  import opened LpaeTable
  import opened LpaeOps
  import opened LpaeSplit
  import opened LpaeMem
  import opened LpaeSteps
  import opened LpaeBusy
  import opened Lpae

  lemma NothingBusy(g: Geom, s: nat, x: nat, k: nat)
    requires g.Ok()
    ensures !Busy(g, map[Label(g.H, 0) := Zeros(g.top)], g.H, s, x, k)
  {
  }

  /** What a real geometry gives for a request at address 0. */
  lemma FirstRequest(g: Geom, s: nat, k: nat)
    requires g.Ok() && 0 < k <= g.n
    ensures IsBlock(g, g.Block(s)) && Height(g, g.Block(s)) == s && 0 % g.Block(s) == 0 && g.Aligned(s, 0)
    ensures g.Index(s, 0) == 0
    ensures Count(g, 0, g.Block(s), k) == k && Batch(g, 0, g.Block(s), k) == Bytes(g.Block(s), k) == g.Span(s, k)
    ensures g.Span(s, 1) == g.Block(s) && g.Span(s, g.n) == g.Block(s + 1)
  {
    SameHeight(g, s, Height(g, g.Block(s)));
  }

  lemma UpTo(g: Geom, s: nat)
    requires g.Ok() && s <= g.H
    ensures 0 < g.Block(s) <= g.Block(g.H) && g.Block(s) <= g.Limit()
  {
    if s < g.H { BlockGrows(g, s, g.H); }
    MulAtLeast(g.top, g.Block(g.H));
  }

  /** What a first mapping leaves: its range is translated, and nothing else. */
  lemma OnlyThere(g: Geom, t: Tab, t': Tab, len: nat, step: nat, pa: nat)
    requires g.Ok() && step > 0 && (forall x: nat :: Trans(g, t, x) == Fault) && Written(g, t, t', 0, len, step, pa, 0)
    ensures AllThere(g, t', 0, len) && forall y: nat :: y >= len ==> Trans(g, t', y) == Fault
  {
    hide Trans, Shown;
  }

  lemma AllGoneAgain(g: Geom, t: Tab, t': Tab, len: nat)
    requires g.Ok() && (forall y: nat :: y >= len ==> Trans(g, t, y) == Fault) && Unmapped(g, t, t', 0, len)
    ensures forall y: nat :: Trans(g, t', y) == Fault
  {
    hide Trans;
  }

  lemma NoneCovers(pt: PageTable, s: nat)
    requires pt.Valid() && Slot(pt.g, s, 0) in pt.at
    ensures !Covered(pt.g, pt.T(), s, 0) && (s < pt.g.H ==> Entry(pt.g, pt.T(), s + 1, 0).Table?)
  {
    TabKeys(pt.mem, pt.at);
    MemParts(pt.g, pt.root, pt.mem, pt.at, pt.pool, pt.queue);
    hide PagesOk, Shape, Slot;
    forall u | s < u <= pt.g.H ensures Entry(pt.g, pt.T(), u, 0).Table? { TablesAbove(pt.g, pt.at, pt.T(), s, 0, u); }
  }

  lemma BusyTable(g: Geom, t: Tab, s: nat)
    requires g.Ok() && s <= g.H && Entry(g, t, s, 0).Table?
    ensures Busy(g, t, g.H, s, 0, 1)
  {
    NoSpan(g, s);
    assert BlockPte(g, t, s, 0, 0) != Empty;
  }

  /** What a page table is made of. */
  ghost predicate Parts(g: Geom, root: nat, pool: seq<nat>, sizes: set<nat>, out: nat) {
    && g.Real() && Distinct(pool) && root !in pool && (forall z :: z in sizes ==> IsBlock(g, z)) &&
      0 < out <= Reach(g.page)
    && TablePage(g, root) && forall a :: a in pool ==> TablePage(g, a)
  }

  /**
   * Map a block of height 1 and unmap it again. Then a block of height 2, of which nothing is translated, cannot be
   * mapped: the table made for the smaller block is still there, without an entry. With 4K pages these are blocks of 2M
   * and 1G.
   */
  method StaleTable(g: Geom, root: nat, pool: seq<nat>, sizes: set<nat>, out: nat) returns (pt: PageTable, r: Ret)
    requires Parts(g, root, pool, sizes, out) && g.H >= 2 && |pool| >= g.H && g.Block(1) in sizes && g.Block(2) in sizes
    ensures fresh(pt) && pt.Valid() && pt.g == g && AllFault(g, pt.T(), 0, g.Block(2)) && r == EEXIST
  {
    hide Geom.Block, Geom.Limit, Geom.Real, MemOk, TabOf, Trans, Busy, Written, Mapped, Parted, Covered, Encodable,
         PagesOk, Ahead, Straight, HasLeaves;
    hide Geom.Index, Slot, Batch, Count, Bytes, AllThere, SameTrans, IsBlock, SamePages, Entry, Grown, Geom.Span,
         Geom.Aligned, Zeros;
    assert g.Ok() by { RealOk(g); }
    pt := new PageTable(g, root, pool, sizes, out);
    FirstRequest(g, 1, 1);
    FirstRequest(g, 2, 1);
    UpTo(g, 1);
    UpTo(g, 2);
    NothingBusy(g, 1, 0, 1);
    ghost var t0 := pt.T();
    var mapped;
    r, mapped := pt.MapPages(0, 0, g.Block(1), 1, 0, true);
    assert r == Ok;
    ghost var t1 := pt.T();
    OnlyThere(g, t0, t1, g.Block(1), g.Block(1), 0);
    NoneCovers(pt, 1);
    ghost var at1 := pt.at;
    var unmapped := pt.Unmap(0, g.Block(1), 1);
    assert unmapped == g.Block(1);
    AllGoneAgain(g, t1, pt.T(), g.Block(1));
    assert Slot(g, 1, 0) in at1 && Slot(g, 1, 0).h == 1 by { SlotHeight(g, 1, 0); }
    NoneCovers(pt, 1);
    BusyTable(g, pt.T(), 2);
    ghost var t2 := pt.T();
    r, mapped := pt.MapPages(0, 0, g.Block(2), 1, 0, true);
    assert r == EEXIST;
    StillFault(g, t2, pt.T());
  }

  lemma StillFault(g: Geom, t: Tab, t': Tab)
    requires g.Ok() && (forall y: nat :: Trans(g, t, y) == Fault) && SameTrans(g, t, t')
    ensures forall y: nat :: Trans(g, t', y) == Fault
  {
    hide Trans;
  }

  lemma SlotHeight(g: Geom, h: nat, x: nat)
    requires g.Ok()
    ensures Slot(g, h, x).h == h
  {
  }

  /** With two levels, the blocks after the first. */
  lemma LaterBlocks(g: Geom)
    requires g.Ok() && g.H == 1 && g.top == g.n
    ensures var B := g.Block(1);
      && B % B == 0 && 0 < B < g.Limit() == g.Block(2) && Bytes(B, g.n - 1) + B == g.Block(2)
      && Count(g, B, B, g.n - 1) == g.n - 1 && Batch(g, B, B, g.n - 1) == Bytes(B, g.n - 1)
  {
    var B := g.Block(1);
    DivUnique(B, B, 1);
    DivUnique(1, g.n, 0);
    Distribute(g.n - 1, 1, B);
    MulMonotone(2, g.n, B);
  }

  /** Entries further on stay free, so the blocks after the first can be mapped. */
  lemma LaterFree(g: Geom, t: Tab)
    requires g.Ok() && g.H == 1 && Ahead(g, map[Label(g.H, 0) := Zeros(g.top)], t, g.Block(1))
    ensures !Busy(g, t, g.H, 1, g.Block(1), g.n - 1)
  {
    var t0: Tab := map[Label(g.H, 0) := Zeros(g.top)];
    assert forall u: nat, y: nat :: Entry(g, t0, u, y) == Empty;
    hide Entry, Geom.Block, Geom.Span;
    forall j: nat ensures BlockPte(g, t, 1, g.Block(1), j) == Empty {
      var y := g.Block(1) + g.Span(1, j);
      assert g.Aligned(1, y) by { BlocksAligned(g, j); }
      assert Entry(g, t0, 1, y) == Empty;
    }
  }

  lemma BlocksAligned(g: Geom, j: nat)
    requires g.Ok()
    ensures g.Aligned(1, g.Block(1) + g.Span(1, j))
  {
    var B := g.Block(1);
    Distribute(1, j, B);
    DivUnique(B + j * B, B, 1 + j);
  }

  lemma BothThere(g: Geom, t: Tab, t': Tab, len: nat, more: nat, step: nat, pa: nat)
    requires g.Ok() && step > 0 && AllThere(g, t, 0, len) && Written(g, t, t', len, more, step, pa, 0)
    ensures AllThere(g, t', 0, len + more)
  {
    hide Trans, Shown;
  }

  lemma NotAllGone(g: Geom, t: Tab, t': Tab, len: nat, more: nat)
    requires g.Ok() && len < more && AllThere(g, t, 0, more) && Unmapped(g, t, t', 0, len)
    ensures Trans(g, t', len) == Trans(g, t, len) != Fault && !Unmapped(g, t, t', 0, more)
  {
    hide Trans;
  }

  lemma SlotStays(g: Geom, at: Where, at': Where, l: Label)
    requires Grown(at, at') && l in at
    ensures l in at'
  {
  }

  /**
   * Two levels, with the first stretch mapped as pages and the rest as blocks. Unmapping all of it as one block of a
   * level that is not there clears one page and says it cleared everything. With 4K pages that is a table for 30 bits
   * of address, and 1G.
   */
  method Oversize(g: Geom, root: nat, pool: seq<nat>, sizes: set<nat>, out: nat)
    returns (pt: PageTable, unmapped: nat, ghost before: Tab)
    requires Parts(g, root, pool, sizes, out) && g.H == 1 && g.top == g.n && |pool| >= 1 && g.Block(2) <= out
    requires g.Block(0) in sizes && g.Block(1) in sizes && g.Block(2) in sizes
    ensures fresh(pt) && pt.Valid() && pt.g == g && AllThere(g, before, 0, g.Block(2))
    ensures unmapped == g.Block(2) && Unmapped(g, before, pt.T(), 0, g.page)
    ensures Trans(g, pt.T(), g.page) == Trans(g, before, g.page) != Fault && !Unmapped(g, before, pt.T(), 0, unmapped)
  {
    hide Geom.Block, Geom.Limit, Geom.Real, MemOk, TabOf, Trans, Busy, Written, Mapped, Parted, Covered, Encodable,
         PagesOk, Ahead, Straight, HasLeaves;
    hide Geom.Index, Slot, Batch, Count, Bytes, AllThere, SameTrans, IsBlock, SamePages, Entry, Grown, Geom.Span,
         Geom.Aligned, Zeros, Unmapped;
    assert g.Ok() by { RealOk(g); }
    pt := new PageTable(g, root, pool, sizes, out);
    FirstRequest(g, 0, g.n);
    FirstRequest(g, 0, 1);
    FirstRequest(g, 1, 1);
    FirstRequest(g, 2, 1);
    PageFirst(g);
    UpTo(g, 0);
    UpTo(g, 1);
    LaterBlocks(g);
    NothingBusy(g, 0, 0, g.n);
    ghost var t0 := pt.T();
    var r, mapped := pt.MapPages(0, 0, g.Block(0), g.n, 0, true);
    assert r == Ok;
    ghost var t1, at1 := pt.T(), pt.at;
    OnlyThere(g, t0, t1, g.Block(1), g.Block(0), 0);
    LaterFree(g, t1);
    r, mapped := pt.MapPages(g.Block(1), g.Block(1), g.Block(1), g.n - 1, 0, true);
    assert r == Ok;
    BothThere(g, t1, pt.T(), g.Block(1), Bytes(g.Block(1), g.n - 1), g.Block(1), g.Block(1));
    before := pt.T();
    SlotStays(g, at1, pt.at, Slot(g, 0, 0));
    NoneCovers(pt, 0);
    unmapped := pt.Unmap(0, g.Block(2), 1);
    NotAllGone(g, before, pt.T(), g.page, g.Block(2));
  }

  lemma PageFirst(g: Geom)
    requires g.Ok()
    ensures g.Block(0) == g.page && g.page < g.Block(1) < g.Block(2) && Count(g, 0, g.page, 1) == 1
    ensures forall size: nat :: Bytes(size, 1) == size
  {
    BlockGrows(g, 0, 1);
    BlockGrows(g, 1, 2);
  }

  /** The block of height 1 at address 0, and its second page, when it is for the second page of memory. */
  lemma SecondPage(g: Geom)
    requires g.Real()
    ensures g.Cell(1, g.page) == g.Cell(1, 0) == 0 && g.Index(0, g.page) == 1 && g.Off(0, g.page) == 0
    ensures Stored(g.page, g.page) == g.page && Stored(g.page, 2 * g.page) == 2 * g.page
  {
    hide Stored;
    PageFirst(g);
    DivUnique(g.page, g.Block(1), 0);
    DivUnique(g.page, g.page, 1);
    StoredIff(g.page, g.page);
    StoredIff(g.page, 2 * g.page);
  }

  /** What the second page is found at before and after the first is split off. */
  lemma SecondMoves(g: Geom, t0: Tab, t1: Tab, t2: Tab)
    requires g.Real() && Written(g, t0, t1, 0, g.Block(1), g.Block(1), g.page, 0)
    requires Entry(g, t1, 1, 0) == Leaf(g.page, 0) && Torn(g, t1, t2, 0, g.page, 1, 0)
    ensures Trans(g, t1, g.page) == Phys(g.page, 0) && Trans(g, t2, g.page) == Phys(2 * g.page, 0)
    ensures !Unmapped(g, t1, t2, 0, g.page)
  {
    hide Trans, Stored, Or, Geom.Index, Geom.Off, Geom.Cell, Entry, Shown, Tracked;
    SecondPage(g);
    PageFirst(g);
    ShownExample(g);
    TrackedOnce(g, 1, g.page, 0, g.page);
    OrZero(2 * g.page);
    assert Trans(g, t2, g.page) == TornTrans(g, t1, 0, 1, 0, g.page);
  }

  lemma FirstLeaf(g: Geom, t: Tab, pa: nat)
    requires g.Ok() && HasLeaves(g, t, 1, 0, 1, pa, 0)
    ensures Entry(g, t, 1, 0) == Leaf(Stored(g.page, pa), 0)
  {
    hide Entry, Stored;
    NoSpan(g, 1);
    assert BlockPte(g, t, 1, 0, 0) == Leaf(Stored(g.page, pa + 0 * g.Block(1)), 0);
  }

  /** The block at height 1 is split in one step. */
  lemma OneSplit(g: Geom, t: Tab, t': Tab, p: nat)
    requires g.Ok() && p > 0 && Entry(g, t, 1, 0).Leaf? && Parted(g, t, t', 0, 0, 1, 1, p)
    ensures Torn(g, t, t', 0, g.page, 1, 0)
  {
    hide Entry, Torn;
    assert g.Span(0, 1) == g.page;
  }

  /**
   * Map one block to the second page of memory, and unmap its first page. The second page was found at the second page
   * of memory, and is now found at the third. With 4K pages the block is one of 2M.
   */
  method Moved(g: Geom, root: nat, pool: seq<nat>, sizes: set<nat>, out: nat)
    returns (pt: PageTable, unmapped: nat, ghost before: Tab)
    requires Parts(g, root, pool, sizes, out) && g.H == 1 && |pool| >= 1 && g.page < out
    requires g.Block(0) in sizes && g.Block(1) in sizes
    ensures fresh(pt) && pt.Valid() && pt.g == g && unmapped == g.page && AllThere(g, before, 0, g.Block(1))
    ensures Trans(g, before, g.page) == Phys(g.page, 0) && Trans(g, pt.T(), g.page) == Phys(2 * g.page, 0)
    ensures !Unmapped(g, before, pt.T(), 0, unmapped)
  {
    hide Geom.Block, Geom.Limit, Geom.Real, MemOk, TabOf, Trans, Busy, Written, Mapped, Parted, Covered, Encodable,
         PagesOk, Ahead, Straight, HasLeaves;
    hide Geom.Index, Slot, Batch, Count, Bytes, SameTrans, IsBlock, SamePages, Entry, Grown, Geom.Span, Geom.Aligned,
         Zeros, Unmapped, Torn, Stored;
    assert g.Ok() by { RealOk(g); }
    pt := new PageTable(g, root, pool, sizes, out);
    FirstRequest(g, 0, 1);
    FirstRequest(g, 1, 1);
    PageFirst(g);
    UpTo(g, 0);
    UpTo(g, 1);
    SecondPage(g);
    NothingBusy(g, 1, 0, 1);
    ghost var t0 := pt.T();
    var r, mapped := pt.MapPages(0, g.page, g.Block(1), 1, 0, true);
    assert r == Ok;
    before := pt.T();
    OnlyThere(g, t0, before, g.Block(1), g.Block(1), g.page);
    FirstLeaf(g, before, g.page);
    ghost var p := |pt.pool|;
    unmapped := pt.Unmap(0, g.Block(0), 1);
    OneSplit(g, before, pt.T(), p);
    SecondMoves(g, t0, before, pt.T());
  }
}
