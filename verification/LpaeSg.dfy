/** Mapping a scatterlist: runs merged, the biggest pages chosen, and a shortcut to the last table used. */
module LpaeSg {
  import opened Arith
  import opened LpaeLevels
  import opened LpaeAddr
  import opened LpaeTable
  import opened LpaeOps
  import opened LpaeMem
  import opened LpaeFree
  import opened LpaeSteps
  import opened LpaeSize
  import opened LpaeBusy
  import opened Lpae

  /** The last-level table of the last page mapped, up to which address it serves, and the entry above it. */
  datatype MapState = NoState | State(end: nat, table: nat, prev: Prev)

  /** The remembered table is the one a walk would reach, and x is past the first page it serves. */
  ghost predicate StateOk(g: Geom, at: Where, ms: MapState, x: nat) {
    g.Ok() && (ms.State? ==>
      && g.Block(1) <= ms.end < x + g.Block(1) && g.Aligned(1, ms.end)
      && forall y: nat :: ms.end - g.Block(1) <= y < ms.end ==>
        Here(g, at, 0, y, ms.table) && PrevOk(g, at, 0, y, ms.prev))
  }

  /** The supported sizes are blocks of the table, pages among them. */
  ghost predicate SizesOk(g: Geom, exps: set<nat>, p: nat) { Sizes(g, exps) && p in exps && Pow2(p) == g.page }

  ghost predicate Sizes(g: Geom, exps: set<nat>) { g.Ok() && forall e :: e in exps ==> IsBlock(g, Pow2(e)) }

  lemma SameTable(g: Geom, at: Where, x: nat, y: nat, a: nat, prev: Prev)
    requires Here(g, at, 0, x, a) && PrevOk(g, at, 0, x, prev) && g.Cell(1, x) == g.Cell(1, y)
    ensures Here(g, at, 0, y, a) && PrevOk(g, at, 0, y, prev)
  {
    CellUp(g, 1, x);
    CellUp(g, 1, y);
  }

  /** The state after a page was mapped at x. */
  lemma NewState(g: Geom, at: Where, x: nat, a: nat, prev: Prev)
    requires g.Ok() && Here(g, at, 0, x, a) && PrevOk(g, at, 0, x, prev)
    ensures StateOk(g, at, State(x / g.Block(1) * g.Block(1) + g.Block(1), a, prev), x + g.page)
  {
    var B := g.Block(1);
    var q := x / B;
    DivTimes(x, B);
    Distribute(q, 1, B);
    DivUnique(q * B + B, B, q + 1);
    forall y: nat | q * B <= y < q * B + B ensures Here(g, at, 0, y, a) && PrevOk(g, at, 0, y, prev) {
      DivUnique(y, B, q);
      SameTable(g, at, x, y, a, prev);
    }
  }

  lemma StateKept(g: Geom, at: Where, at': Where, ms: MapState, x: nat, x': nat)
    requires StateOk(g, at, ms, x) && Grown(at, at') && x <= x'
    ensures StateOk(g, at', ms, x')
  {
    if ms.State? {
      forall y: nat | ms.end - g.Block(1) <= y < ms.end
        ensures Here(g, at', 0, y, ms.table) && PrevOk(g, at', 0, y, ms.prev) {
        assert Here(g, at, 0, y, ms.table) && PrevOk(g, at, 0, y, ms.prev);
      }
    }
  }

  /** Under the remembered table, past its first page, only pages are aligned. */
  lemma OnlyPages(g: Geom, at: Where, ms: MapState, x: nat, h: nat)
    requires StateOk(g, at, ms, x) && ms.State? && x < ms.end && g.Aligned(h, x)
    ensures h == 0
  {
    if h > 0 {
      BlockDivides(g, 1, h, x);
      BetweenBlocks(g.Block(1), x, ms.end);
    }
  }

  lemma BetweenBlocks(b: nat, x: nat, end: nat)
    requires b > 0 && x % b == 0 && end % b == 0 && x < end
    ensures x + b <= end
  {
    DivTimes(x, b);
    DivTimes(end, b);
    var q, r := x / b, end / b;
    Distribute(q, 1, b);
    if r <= q { MulMonotone(r, q, b); } else { MulMonotone(q + 1, r, b); }
  }

  lemma MappedMore(g: Geom, t0: Tab, t1: Tab, t2: Tab, x: nat, len: nat, more: nat, pa: nat, prot: nat)
    requires g.Ok() && Mapped(g, t0, t1, x, len, pa, prot) && AllFault(g, t0, x, len)
    requires Mapped(g, t1, t2, x + len, more, pa + len, prot) && AllFault(g, t1, x + len, more)
    ensures Mapped(g, t0, t2, x, len + more, pa, prot) && AllFault(g, t0, x, len + more)
  {
    hide Trans;
  }

  lemma MappedSame(g: Geom, t0: Tab, t1: Tab, t2: Tab, x: nat, len: nat, pa: nat, prot: nat)
    requires g.Ok() && Mapped(g, t0, t1, x, len, pa, prot) && SameTrans(g, t1, t2)
    ensures Mapped(g, t0, t2, x, len, pa, prot)
  {
    hide Trans;
  }

  lemma MappedNone(g: Geom, t: Tab, x: nat, pa: nat, prot: nat)
    requires g.Ok()
    ensures Mapped(g, t, t, x, 0, pa, prot) && AllFault(g, t, x, 0) && SameTrans(g, t, t)
  {
  }

  /** A page size found for an address is a block it is aligned to. */
  lemma ChosenBlock(g: Geom, exps: set<nat>, p: nat, iova: nat, paddr: nat, size: nat, e: nat)
    requires SizesOk(g, exps, p) && Usable(exps, iova, paddr, size, e)
    ensures IsBlock(g, Pow2(e)) && g.Aligned(Height(g, Pow2(e)), iova) && Pow2(e) <= size
  {
    hide Pow2;
  }

  lemma PageUsable(g: Geom, exps: set<nat>, p: nat, iova: nat, paddr: nat, size: nat)
    requires SizesOk(g, exps, p) && size > 0 && iova % g.page == 0 && paddr % g.page == 0 && size % g.page == 0
    ensures Usable(exps, iova, paddr, size, p)
  {
    hide Pow2;
    if size < g.page { DivUnique(size, g.page, 0); }
  }

  /** What is left stays page-aligned. */
  lemma StepAligned(g: Geom, exps: set<nat>, p: nat, a: nat, size: nat, e: nat)
    requires SizesOk(g, exps, p) && e in exps && Pow2(e) <= size && a % g.page == 0 && size % g.page == 0
    ensures (a + Pow2(e)) % g.page == 0 && (size - Pow2(e)) % g.page == 0 && Pow2(e) > 0
  {
    var h := Height(g, Pow2(e));
    assert g.Aligned(h, Pow2(e));
    BlockDivides(g, 0, h, Pow2(e));
    ModAdd(a, Pow2(e), g.page);
    ModSub(size, Pow2(e), g.page);
  }

  lemma FineUsable(g: Geom, exps: set<nat>, p: nat, out: nat, x: nat, pa: nat, size: nat)
    requires SizesOk(g, exps, p) && size > 0 && Fine(g, out, x, pa, size)
    ensures Usable(exps, x, pa, size, p)
  {
    PageUsable(g, exps, p, x, pa, size);
  }

  lemma FineNext(g: Geom, exps: set<nat>, p: nat, out: nat, x: nat, pa: nat, size: nat, e: nat)
    requires SizesOk(g, exps, p) && Fine(g, out, x, pa, size) && e in exps && Pow2(e) <= size
    ensures Pow2(e) > 0 && x + Pow2(e) <= g.Limit() && pa + Pow2(e) <= out
    ensures Fine(g, out, x + Pow2(e), pa + Pow2(e), size - Pow2(e))
  {
    hide Pow2;
    StepAligned(g, exps, p, x, size, e);
    StepAligned(g, exps, p, pa, size, e);
  }

  lemma ModSub(a: nat, b: nat, m: nat)
    requires m > 0 && a % m == 0 && b % m == 0 && b <= a
    ensures (a - b) % m == 0
  {
    DivTimes(a, m);
    DivTimes(b, m);
    var q, r := a / m, b / m;
    if q < r { MulMonotone(q + 1, r, m); Distribute(q, 1, m); }
    Distribute(q - r, r, m);
    DivUnique(a - b, m, q - r);
  }

  /** One turn of the loop of arm_lpae_map_by_pgsize: one block, through the remembered table or down from the top. */
  method MapBlock(pt: PageTable, iova: nat, paddr: nat, size: nat, prot: nat, ms: MapState)
    returns (r: Ret, ms': MapState)
    requires pt.Valid() && IsBlock(pt.g, size) && pt.g.Aligned(Height(pt.g, size), iova) && iova + size <= pt.g.Limit()
    requires StateOk(pt.g, pt.at, ms, iova) && size > 0 && paddr % size == 0 && paddr + size <= pt.out
    modifies pt`mem, pt`pool, pt`at
    ensures pt.Valid() && pt.PagesKept() && Grown(old(pt.at), pt.at)
    ensures r == EEXIST <==> Busy(pt.g, old(pt.T()), pt.g.H, Height(pt.g, size), iova, 1)
    ensures (r == ENOMEM ==> pt.pool == []) && (r == EINVAL ==> size > pt.g.Block(pt.g.H)) && r != ERANGE
    ensures Ahead(pt.g, old(pt.T()), pt.T(), iova + size)
    ensures r == Ok ==>
      && Mapped(pt.g, old(pt.T()), pt.T(), iova, size, paddr, prot) && AllFault(pt.g, old(pt.T()), iova, size)
      && StateOk(pt.g, pt.at, ms', iova + size)
    ensures r != Ok ==> SameTrans(pt.g, old(pt.T()), pt.T())
  {
    hide Geom.Limit, MemOk, Geom.Ok, Trans, Geom.Aligned, Geom.Block, TabOf, Here, Geom.Span, SamePages, IsBlock,
         Mapped, SameTrans, StateOk, PrevOk;
    hide Busy, Frame, Ahead, Written, PagesOk, Geom.Real, Encodable, Flat, Geom.Index, Straight, HasLeaves, AllFault;
    var g := pt.g;
    ghost var s := Height(g, size);
    ghost var t0 := pt.T();
    OneBlock(g, s, size, iova);
    PagesRefl(pt.at, pt.pool, pt.queue);
    MappedNone(g, pt.T(), iova, paddr, prot);
    ms' := ms;
    if ms.State? && iova < ms.end {
      OnlyPages(g, pt.at, ms, iova, s);
      StateHere(g, pt.at, ms, iova);
      IndexFits(g, pt.root, pt.mem, pt.at, pt.pool, pt.queue, 0, iova, ms.table);
      ShortcutTop(g, pt.root, pt.mem, pt.at, pt.pool, pt.queue, iova, ms.table);
      r := pt.InitPtes(iova, paddr, prot, 0, 1, ms.table, ms.prev);
      StateKept(g, pt.at, pt.at, ms, iova, iova + size);
      FrameStraight(g, t0, pt.T(), iova, 0, 1, paddr);
      SameTransRefl(g, t0);
    } else {
      RootHere(g, pt.root, pt.mem, pt.at, pt.pool, pt.queue, iova);
      TopPrev(g, pt.at, iova);
      var mapped, ta, tp;
      r, mapped, ta, tp := pt.MapAt(iova, paddr, size, s, 1, prot, g.H, pt.root, NoPrev);
      FrameStraight(g, t0, pt.T(), iova, s, 1, paddr);
      if g.H < s { BlockGrows(g, g.H, s); }
      if r == Ok {
        SameHeight(g, s, 0);
        if size == g.Block(0) {
          NewState(g, pt.at, iova, ta, tp);
          ms' := State(iova / g.Block(1) * g.Block(1) + g.Block(1), ta, tp);
        } else {
          ms' := NoState;
          NothingKept(g, pt.at, iova + size);
        }
      }
    }
    if r == Ok {
      assert Encodable(g, paddr, size, size) by { InReach(g, paddr, size, pt.out); }
      WrittenMapped(g, t0, pt.T(), iova, s, 1, paddr, prot);
    }
  }

  lemma InReach(g: Geom, pa: nat, size: nat, out: nat)
    requires size > 0 && pa % size == 0 && pa + size <= out <= Reach(g.page)
    ensures Encodable(g, pa, size, size)
  {
  }

  /** The remembered table is met by a walk from the top, so no block is in the way above it. */
  lemma ShortcutTop(g: Geom, root: nat, mem: Mem, at: Where, pool: seq<nat>, queue: seq<nat>, x: nat, a: nat)
    requires g.Ok() && Here(g, at, 0, x, a) && MemOk(g, root, mem, at, pool, queue)
    ensures Busy(g, TabOf(mem, at), g.H, 0, x, 1) <==> Busy(g, TabOf(mem, at), 0, 0, x, 1)
  {
    TabKeys(mem, at);
    hide Busy;
    BusyTop(g, at, TabOf(mem, at), 0, 0, x, 1);
  }

  // ---------------------------------------------------------------------------------------------
  // Pieces.

  /** The page size arm_lpae_pgsize chooses. */
  ghost predicate Best(exps: set<nat>, x: nat, pa: nat, size: nat, e: nat) {
    Usable(exps, x, pa, size, e) && forall m: nat :: Usable(exps, x, pa, size, m) ==> m <= e
  }

  /** That size in bytes, or 0 if there is none. */
  ghost function Chosen(exps: set<nat>, x: nat, pa: nat, size: nat): (step: nat)
    ensures step <= size
  {
    if exists e: nat :: Best(exps, x, pa, size, e) then
      var e: nat :| Best(exps, x, pa, size, e);
      Pow2(e)
    else 0
  }

  lemma ChosenIs(exps: set<nat>, x: nat, pa: nat, size: nat, e: nat)
    requires Best(exps, x, pa, size, e)
    ensures Chosen(exps, x, pa, size) == Pow2(e) > 0
  {
    hide Usable;
  }

  /** A block of `step` bytes at x would meet an entry in use or a bigger block. */
  ghost predicate BlockBusy(g: Geom, t: Tab, step: nat, x: nat) requires g.Ok() {
    IsBlock(g, step) && Busy(g, t, g.H, Height(g, step), x, 1)
  }

  /** So would one of the pieces the range is cut into. */
  ghost predicate PiecesBusy(g: Geom, t: Tab, exps: set<nat>, x: nat, pa: nat, size: nat)
    requires g.Ok()
    decreases size
  {
    var step := Chosen(exps, x, pa, size);
    step > 0 && (BlockBusy(g, t, step, x) || PiecesBusy(g, t, exps, x + step, pa + step, size - step))
  }

  lemma PiecesStep(g: Geom, t: Tab, exps: set<nat>, x: nat, pa: nat, size: nat, step: nat)
    requires g.Ok() && step == Chosen(exps, x, pa, size) > 0
    ensures PiecesBusy(g, t, exps, x, pa, size) <==>
      BlockBusy(g, t, step, x) || PiecesBusy(g, t, exps, x + step, pa + step, size - step)
  {
    hide BlockBusy, Chosen;
  }

  lemma NoPieces(g: Geom, t: Tab, exps: set<nat>, x: nat, pa: nat, size: nat)
    requires g.Ok() && Chosen(exps, x, pa, size) == 0
    ensures !PiecesBusy(g, t, exps, x, pa, size)
  {
    hide BlockBusy, Chosen;
  }

  lemma ChosenAligned(g: Geom, exps: set<nat>, p: nat, x: nat, pa: nat, size: nat)
    requires SizesOk(g, exps, p) && Chosen(exps, x, pa, size) > 0
    ensures var step := Chosen(exps, x, pa, size); IsBlock(g, step) && g.Aligned(Height(g, step), x)
  {
    hide Pow2;
    var e: nat :| Best(exps, x, pa, size, e) && Chosen(exps, x, pa, size) == Pow2(e);
    ChosenBlock(g, exps, p, x, pa, size, e);
  }

  /** What was mapped before makes no difference to the pieces further on. */
  lemma {:induction false} PiecesAhead(g: Geom, t: Tab, t': Tab, exps: set<nat>, p: nat, end: nat, x: nat, pa: nat,
      size: nat)
    requires SizesOk(g, exps, p) && Ahead(g, t, t', end) && end <= x
    ensures PiecesBusy(g, t', exps, x, pa, size) <==> PiecesBusy(g, t, exps, x, pa, size)
    decreases size
  {
    assert g.Ok();
    hide Ahead, PiecesBusy, SizesOk, Geom.Ok, Chosen, BlockBusy;
    var step := Chosen(exps, x, pa, size);
    if step > 0 {
      BlockAhead(g, t, t', exps, p, end, x, pa, size);
      PiecesAhead(g, t, t', exps, p, end, x + step, pa + step, size - step);
      PiecesStep(g, t, exps, x, pa, size, step);
      PiecesStep(g, t', exps, x, pa, size, step);
    } else {
      NoPieces(g, t, exps, x, pa, size);
      NoPieces(g, t', exps, x, pa, size);
    }
  }

  lemma BlockAhead(g: Geom, t: Tab, t': Tab, exps: set<nat>, p: nat, end: nat, x: nat, pa: nat, size: nat)
    requires SizesOk(g, exps, p) && Ahead(g, t, t', end) && end <= x && Chosen(exps, x, pa, size) > 0
    ensures var step := Chosen(exps, x, pa, size); BlockBusy(g, t', step, x) <==> BlockBusy(g, t, step, x)
  {
    hide Ahead, Chosen, Busy, IsBlock, Geom.Aligned;
    ChosenAligned(g, exps, p, x, pa, size);
    BusyAhead(g, t, t', end, Height(g, Chosen(exps, x, pa, size)), x);
  }

  /** No supported size is bigger than a block of the first table. */
  ghost predicate SizesFit(g: Geom, exps: set<nat>)
    requires g.Ok()
  {
    forall e :: e in exps ==> Pow2(e) <= g.Block(g.H)
  }

  lemma TooBig(g: Geom, exps: set<nat>, e: nat)
    requires g.Ok() && e in exps
    ensures Pow2(e) > g.Block(g.H) ==> !SizesFit(g, exps)
  {
  }

  lemma BusyBlock(g: Geom, t: Tab, step: nat, x: nat)
    requires g.Ok() && IsBlock(g, step)
    ensures BlockBusy(g, t, step, x) <==> Busy(g, t, g.H, Height(g, step), x, 1)
  {
  }

  /** A run that passes the checks of arm_lpae_map_by_pgsize. */
  predicate Fine(g: Geom, out: nat, x: nat, pa: nat, size: nat) requires g.Ok() {
    x % g.page == 0 && pa % g.page == 0 && size % g.page == 0 && x + size <= g.Limit() && pa + size <= out
  }

  lemma OneBlock(g: Geom, s: nat, size: nat, x: nat)
    requires g.Ok() && size == g.Block(s)
    ensures g.Span(s, 1) == size && size > 0 && g.Block(0) == g.page && (s == 0 ==> size == g.page)
    ensures g.Span(s, Min(1, g.n - g.Index(s, x))) == size
  {
  }

  lemma TopPrev(g: Geom, at: Where, x: nat)
    requires g.Ok()
    ensures PrevOk(g, at, g.H, x, NoPrev)
  {
  }

  lemma NothingKept(g: Geom, at: Where, x: nat)
    requires g.Ok()
    ensures StateOk(g, at, NoState, x)
  {
  }

  lemma StateHere(g: Geom, at: Where, ms: MapState, x: nat)
    requires StateOk(g, at, ms, x) && ms.State? && x < ms.end
    ensures Here(g, at, 0, x, ms.table) && PrevOk(g, at, 0, x, ms.prev)
  {
  }

  lemma TableOk(pt: PageTable)
    requires pt.Valid()
    ensures pt.g.Ok()
  {
  }

  /** What is known of the block that is tried next. */
  lemma PieceReady(g: Geom, t0: Tab, t1: Tab, exps: set<nat>, p: nat, out: nat, x: nat, pa: nat, left: nat, e: nat)
    requires g.Ok() && SizesOk(g, exps, p) && Fine(g, out, x, pa, left) && Ahead(g, t0, t1, x)
    requires Usable(exps, x, pa, left, e) && forall m: nat :: Usable(exps, x, pa, left, m) ==> m <= e
    ensures 0 < Pow2(e) <= left && IsBlock(g, Pow2(e)) && g.Aligned(Height(g, Pow2(e)), x) && pa % Pow2(e) == 0
    ensures x + Pow2(e) <= g.Limit() && pa + Pow2(e) <= out && Fine(g, out, x + Pow2(e), pa + Pow2(e), left - Pow2(e))
    ensures Pow2(e) > g.Block(g.H) ==> !SizesFit(g, exps)
    ensures PiecesBusy(g, t0, exps, x, pa, left) <==>
      || Busy(g, t1, g.H, Height(g, Pow2(e)), x, 1)
      || PiecesBusy(g, t0, exps, x + Pow2(e), pa + Pow2(e), left - Pow2(e))
  {
    assert Sizes(g, exps);
    hide Geom.Limit, Geom.Ok, Geom.Aligned, Geom.Block, IsBlock, SizesOk, Sizes, Usable, PiecesBusy, Busy, Ahead, Best,
         Pow2, Chosen, Fine, BlockBusy, SizesFit;
    ChosenBlock(g, exps, p, x, pa, left, e);
    InSizes(exps, x, pa, left, e);
    ChosenIs(exps, x, pa, left, e);
    FineNext(g, exps, p, out, x, pa, left, e);
    TooBig(g, exps, e);
    BusyBlock(g, t1, Pow2(e), x);
    BlockAhead(g, t0, t1, exps, p, x, x, pa, left);
    PiecesStep(g, t0, exps, x, pa, left, Pow2(e));
  }

  /** One turn of the loop of arm_lpae_map_by_pgsize: choose a page size and map one block. `t0` is the table before
      the loop. */
  method MapPiece(pt: PageTable, exps: set<nat>, ghost p: nat, x: nat, pa: nat, left: nat, prot: nat, ms: MapState,
      ghost t0: Tab)
    returns (r: Ret, step: nat, ms': MapState)
    requires pt.Valid() && SizesOk(pt.g, exps, p) && StateOk(pt.g, pt.at, ms, x) && left > 0 && pt.g.page > 0
    requires Fine(pt.g, pt.out, x, pa, left) && Ahead(pt.g, t0, pt.T(), x)
    modifies pt`mem, pt`pool, pt`at
    ensures pt.Valid() && pt.PagesKept() && 0 < step <= left
    ensures r == Ok ==>
      && Mapped(pt.g, old(pt.T()), pt.T(), x, step, pa, prot) && AllFault(pt.g, old(pt.T()), x, step)
      && StateOk(pt.g, pt.at, ms', x + step) && Ahead(pt.g, t0, pt.T(), x + step) &&
        Fine(pt.g, pt.out, x + step, pa + step, left - step)
      && (PiecesBusy(pt.g, t0, exps, x, pa, left) <==> PiecesBusy(pt.g, t0, exps, x + step, pa + step, left - step))
    ensures r != Ok ==> SameTrans(pt.g, old(pt.T()), pt.T())
    ensures r == EEXIST ==> PiecesBusy(pt.g, t0, exps, x, pa, left)
    ensures (r == ENOMEM ==> pt.pool == []) && r != ERANGE
    ensures r == EINVAL ==> !SizesFit(pt.g, exps)
  {
    hide Geom.Limit, Geom.Ok, Geom.Aligned, Geom.Block, IsBlock, Mapped, AllFault, SameTrans, PageTable.Valid,
         PageTable.T, SamePages, StateOk, SizesOk, Usable, PiecesBusy, Busy, Ahead, Pow2, Fine, SizesFit, Height;
    var g := pt.g;
    TableOk(pt);
    FineUsable(g, exps, p, pt.out, x, pa, left);
    var e := PgShift(exps, x, pa, left, p);
    ghost var t1 := pt.T();
    PieceReady(g, t0, t1, exps, p, pt.out, x, pa, left, e);
    step := Pow2(e);
    r, ms' := MapBlock(pt, x, pa, step, prot, ms);
    AheadTrans(g, t0, t1, pt.T(), x, x + step);
  }

  /** `done` bytes of the range are mapped, and as to what is in the way only the rest matters. */
  ghost predicate Midway(g: Geom, t0: Tab, t: Tab, exps: set<nat>, iova: nat, paddr: nat, size: nat, prot: nat,
      done: nat) {
    && g.Ok() && done <= size && Mapped(g, t0, t, iova, done, paddr, prot) && AllFault(g, t0, iova, done) &&
      Ahead(g, t0, t, iova + done)
    && (PiecesBusy(g, t0, exps, iova, paddr, size) <==> PiecesBusy(g, t0, exps, iova + done, paddr + done, size - done))
  }

  lemma MidwayStart(g: Geom, t: Tab, exps: set<nat>, iova: nat, paddr: nat, size: nat, prot: nat)
    requires g.Ok()
    ensures Midway(g, t, t, exps, iova, paddr, size, prot, 0)
  {
    hide Mapped, AllFault, Ahead, PiecesBusy;
    MappedNone(g, t, iova, paddr, prot);
    AheadRefl(g, t, iova);
  }

  lemma MidwayNext(g: Geom, t0: Tab, t1: Tab, t2: Tab, exps: set<nat>, iova: nat, paddr: nat, size: nat, prot: nat,
      done: nat, step: nat)
    requires Midway(g, t0, t1, exps, iova, paddr, size, prot, done) && done + step <= size
    requires Mapped(g, t1, t2, iova + done, step, paddr + done, prot) && AllFault(g, t1, iova + done, step)
    requires Ahead(g, t0, t2, iova + done + step)
    requires PiecesBusy(g, t0, exps, iova + done, paddr + done, size - done) <==>
             PiecesBusy(g, t0, exps, iova + done + step, paddr + done + step, size - done - step)
    ensures Midway(g, t0, t2, exps, iova, paddr, size, prot, done + step)
  {
    hide Mapped, AllFault, Ahead, PiecesBusy;
    MappedMore(g, t0, t1, t2, iova, done, step, paddr, prot);
  }

  /** The loop of arm_lpae_map_by_pgsize. */
  method MapPieces(pt: PageTable, exps: set<nat>, ghost p: nat, iova: nat, paddr: nat, size: nat, prot: nat,
      ms: MapState)
    returns (r: Ret, done: nat, ms': MapState)
    requires pt.Valid() && SizesOk(pt.g, exps, p) && StateOk(pt.g, pt.at, ms, iova) && pt.g.page > 0
    requires Fine(pt.g, pt.out, iova, paddr, size)
    modifies pt`mem, pt`pool, pt`at
    ensures pt.Valid() && pt.PagesKept() && done <= size
    ensures Mapped(pt.g, old(pt.T()), pt.T(), iova, done, paddr, prot) && AllFault(pt.g, old(pt.T()), iova, done)
    ensures r == Ok ==>
      && done == size && StateOk(pt.g, pt.at, ms', iova + done) && Ahead(pt.g, old(pt.T()), pt.T(), iova + done)
      && !PiecesBusy(pt.g, old(pt.T()), exps, iova, paddr, size)
    ensures r == EEXIST ==> PiecesBusy(pt.g, old(pt.T()), exps, iova, paddr, size)
    ensures (r == ENOMEM ==> pt.pool == []) && r != ERANGE
    ensures r == EINVAL ==> !SizesFit(pt.g, exps)
  {
    hide Geom.Limit, MemOk, Geom.Ok, Trans, Geom.Aligned, Geom.Block, TabOf, Here, SamePages, IsBlock, Mapped, AllFault,
         SameTrans;
    hide StateOk, SizesOk, Usable, PiecesBusy, Busy, Ahead, Best, PagesOk, Geom.Real, Pow2, Sizes, Fine, Midway,
         SizesFit;
    var g := pt.g;
    done, ms' := 0, ms;
    PagesRefl(pt.at, pt.pool, pt.queue);
    ghost var t0 := pt.T();
    MidwayStart(g, t0, exps, iova, paddr, size, prot);
    while done < size
      invariant pt.Valid() && pt.PagesKept() && done <= size
      invariant Fine(g, pt.out, iova + done, paddr + done, size - done) && StateOk(g, pt.at, ms', iova + done)
      invariant Midway(g, t0, pt.T(), exps, iova, paddr, size, prot, done)
      decreases size - done
    {
      ghost var t1, at1, pool1, queue1 := pt.T(), pt.at, pt.pool, pt.queue;
      MidwayAhead(g, t0, t1, exps, iova, paddr, size, prot, done);
      var step;
      r, step, ms' := MapPiece(pt, exps, p, iova + done, paddr + done, size - done, prot, ms', t0);
      PagesTrans(old(pt.at), old(pt.pool), old(pt.queue), at1, pool1, queue1, pt.at, pt.pool, pt.queue);
      if r != Ok {
        MidwayStop(g, t0, t1, pt.T(), exps, iova, paddr, size, prot, done);
        return;
      }
      MidwayNext(g, t0, t1, pt.T(), exps, iova, paddr, size, prot, done, step);
      done := done + step;
    }
    MidwayEnd(g, t0, pt.T(), exps, iova, paddr, size, prot);
    r := Ok;
  }

  lemma MidwayAhead(g: Geom, t0: Tab, t: Tab, exps: set<nat>, iova: nat, paddr: nat, size: nat, prot: nat, done: nat)
    requires Midway(g, t0, t, exps, iova, paddr, size, prot, done)
    ensures g.Ok() && Ahead(g, t0, t, iova + done)
  {
  }

  lemma MidwayStop(g: Geom, t0: Tab, t1: Tab, t2: Tab, exps: set<nat>, iova: nat, paddr: nat, size: nat, prot: nat,
      done: nat)
    requires Midway(g, t0, t1, exps, iova, paddr, size, prot, done) && SameTrans(g, t1, t2)
    ensures Mapped(g, t0, t2, iova, done, paddr, prot) && AllFault(g, t0, iova, done)
    ensures PiecesBusy(g, t0, exps, iova + done, paddr + done, size - done) ==>
      PiecesBusy(g, t0, exps, iova, paddr, size)
  {
    hide Mapped, AllFault, Ahead, PiecesBusy, SameTrans;
    MappedSame(g, t0, t1, t2, iova, done, paddr, prot);
  }

  lemma MidwayEnd(g: Geom, t0: Tab, t: Tab, exps: set<nat>, iova: nat, paddr: nat, size: nat, prot: nat)
    requires Midway(g, t0, t, exps, iova, paddr, size, prot, size)
    ensures Mapped(g, t0, t, iova, size, paddr, prot) && AllFault(g, t0, iova, size) && Ahead(g, t0, t, iova + size)
    ensures !PiecesBusy(g, t0, exps, iova, paddr, size)
  {
    hide Mapped, AllFault, Ahead, PiecesBusy, Chosen;
    NoPieces(g, t0, exps, iova + size, paddr + size, 0);
  }

  /** arm_lpae_map_by_pgsize */
  method MapByPgsize(pt: PageTable, exps: set<nat>, ghost p: nat, iova: nat, paddr: nat, size: nat, prot: nat,
      access: bool, ms: MapState)
    returns (r: Ret, done: nat, ms': MapState)
    requires pt.Valid() && SizesOk(pt.g, exps, p) && size > 0 && StateOk(pt.g, pt.at, ms, iova)
    modifies pt`mem, pt`pool, pt`at
    ensures pt.Valid() && pt.PagesKept() && done <= size &&
      (r == Ok ==> done == size && StateOk(pt.g, pt.at, ms', iova + done))
    ensures access ==>
      Mapped(pt.g, old(pt.T()), pt.T(), iova, done, paddr, prot) && AllFault(pt.g, old(pt.T()), iova, done)
    ensures !access ==> SameTrans(pt.g, old(pt.T()), pt.T())
    ensures pt.g.page > 0 &&
      (iova % pt.g.page != 0 || paddr % pt.g.page != 0 || size % pt.g.page != 0 ==> r == EINVAL && done == 0)
    ensures !Fine(pt.g, pt.out, iova, paddr, size) ==> (r == EINVAL || r == ERANGE) && done == 0
    ensures Fine(pt.g, pt.out, iova, paddr, size) && !access ==> r == Ok
    ensures Fine(pt.g, pt.out, iova, paddr, size) && access ==>
      && (r == Ok ==> !PiecesBusy(pt.g, old(pt.T()), exps, iova, paddr, size))
      && (r == EEXIST ==> PiecesBusy(pt.g, old(pt.T()), exps, iova, paddr, size))
      && (r == ENOMEM ==> pt.pool == []) && r != ERANGE
      && (r == EINVAL ==> !SizesFit(pt.g, exps))
    ensures r == Ok ==> Ahead(pt.g, old(pt.T()), pt.T(), iova + done)
  {
    hide Geom.Limit, MemOk, Geom.Ok, Trans, Geom.Aligned, Geom.Block, TabOf, Here, SamePages, IsBlock, Mapped, AllFault,
         SameTrans;
    hide StateOk, SizesOk, Usable, PiecesBusy, Busy, Ahead, Best, PagesOk, Geom.Real, Pow2, Sizes;
    var g := pt.g;
    PagesRefl(pt.at, pt.pool, pt.queue);
    MappedNone(g, pt.T(), iova, paddr, prot);
    SizesPositive(g, exps, p);
    if iova % g.page != 0 || paddr % g.page != 0 || size % g.page != 0 { return EINVAL, 0, ms; }
    if iova + size - 1 >= g.Limit() || paddr + size - 1 >= pt.out { return ERANGE, 0, ms; }
    if !access {
      StateKept(g, pt.at, pt.at, ms, iova, iova + size);
      AheadRefl(g, pt.T(), iova + size);
      return Ok, size, ms;
    }
    r, done, ms' := MapPieces(pt, exps, p, iova, paddr, size, prot, ms);
  }

  lemma SizesPositive(g: Geom, exps: set<nat>, p: nat)
    requires SizesOk(g, exps, p)
    ensures g.Ok() && g.page > 0
  {
  }

  lemma InSizes(exps: set<nat>, x: nat, pa: nat, left: nat, e: nat)
    requires Usable(exps, x, pa, left, e) && forall m: nat :: Usable(exps, x, pa, left, m) ==> m <= e
    ensures e in exps && Pow2(e) <= left && pa % Pow2(e) == 0 && Best(exps, x, pa, left, e)
  {
  }

  // ---------------------------------------------------------------------------------------------
  // Scatterlists.

  datatype Sg = Sg(phys: nat, length: nat)

  /** Bytes in a list. */
  function Total(sg: seq<Sg>): nat { if sg == [] then 0 else Total(sg[..|sg| - 1]) + sg[|sg| - 1].length }

  /** Where byte `off` of the concatenated list is. */
  function PhysAt(sg: seq<Sg>, off: nat): nat
    requires off < Total(sg)
  {
    var init := sg[..|sg| - 1];
    if off < Total(init) then PhysAt(init, off) else sg[|sg| - 1].phys + (off - Total(init))
  }

  datatype Run = Run(start: nat, len: nat)

  /** The contiguous run that is still to be mapped after the list. */
  function RunOf(sg: seq<Sg>): (r: Run)
    ensures r.len <= Total(sg)
  {
    if sg == [] then Run(0, 0)
    else
      var before, last := RunOf(sg[..|sg| - 1]), sg[|sg| - 1];
      if before.len > 0 && last.phys == before.start + before.len then Run(before.start, before.len + last.length)
      else Run(last.phys, last.length)
  }

  /** The bytes of the run lie one after the other. */
  lemma {:induction false} RunPhys(sg: seq<Sg>, off: nat)
    requires Total(sg) - RunOf(sg).len <= off < Total(sg)
    ensures PhysAt(sg, off) == RunOf(sg).start + (off - (Total(sg) - RunOf(sg).len))
    decreases |sg|
  {
    var init, last := sg[..|sg| - 1], sg[|sg| - 1];
    if off < Total(init) { RunPhys(init, off); }
  }

  /** The last byte of the list ends the run. */
  lemma RunEnd(sg: seq<Sg>)
    requires sg != []
    ensures RunOf(sg).len > 0 ==> RunOf(sg).start + RunOf(sg).len == sg[|sg| - 1].phys + sg[|sg| - 1].length
  {
  }

  lemma {:induction false} TotalPrefix(sg: seq<Sg>, i: nat)
    requires i <= |sg|
    ensures Total(sg[..i]) <= Total(sg)
    ensures forall off: nat :: off < Total(sg[..i]) ==> PhysAt(sg[..i], off) == PhysAt(sg, off)
    decreases |sg|
  {
    if i < |sg| {
      var init := sg[..|sg| - 1];
      TotalPrefix(init, i);
      assert init[..i] == sg[..i];
    } else {
      assert sg[..i] == sg;
    }
  }

  /** The first len bytes of the list are mapped from iova on, and nothing else changed. */
  ghost predicate ListMapped(g: Geom, t: Tab, t': Tab, iova: nat, len: nat, sg: seq<Sg>, prot: nat) {
    && g.Ok() && len <= Total(sg) && AllFault(g, t, iova, len)
    && forall y: nat :: Trans(g, t', y) == if iova <= y < iova + len then Phys(PhysAt(sg, y - iova), prot)
      else Trans(g, t, y)
  }

  lemma ListMore(g: Geom, t0: Tab, t1: Tab, t2: Tab, iova: nat, len: nat, sg: seq<Sg>, prot: nat, i: nat, done: nat)
    requires ListMapped(g, t0, t1, iova, len, sg, prot) && i <= |sg| && len + RunOf(sg[..i]).len == Total(sg[..i])
    requires done <= RunOf(sg[..i]).len
    requires Mapped(g, t1, t2, iova + len, done, RunOf(sg[..i]).start, prot) && AllFault(g, t1, iova + len, done)
    ensures ListMapped(g, t0, t2, iova, len + done, sg, prot)
  {
    hide Trans, RunOf, PhysAt, Total;
    TotalPrefix(sg, i);
    forall y: nat ensures Trans(g, t2, y) == if iova <= y < iova + len + done then Phys(PhysAt(sg, y - iova), prot)
      else Trans(g, t0, y) {
      if iova + len <= y < iova + len + done { RunPhys(sg[..i], y - iova); }
    }
  }

  /** The extra pass at the end finds an empty last entry at the end of the run, and takes the run for unfinished. */
  predicate Dropped(sg: seq<Sg>) { sg != [] && sg[|sg| - 1].length == 0 && RunOf(sg).len > 0 }

  /** The runs mapped before the one that is still to be mapped after the list. */
  function RunsOf(sg: seq<Sg>): seq<Run> {
    if sg == [] then []
    else
      var init, last := sg[..|sg| - 1], sg[|sg| - 1];
      var before := RunOf(init);
      RunsOf(init) + if before.len > 0 && last.phys != before.start + before.len then [before] else []
  }

  /** All runs that are mapped in the end. */
  function Flushed(sg: seq<Sg>): seq<Run> { RunsOf(sg) + if RunOf(sg).len > 0 && !Dropped(sg) then [RunOf(sg)] else [] }

  function LenOf(runs: seq<Run>): nat { if runs == [] then 0 else LenOf(runs[..|runs| - 1]) + runs[|runs| - 1].len }

  /** The run passes the checks, and nothing is in the way of any of its pieces. */
  ghost predicate RunClear(g: Geom, t: Tab, exps: set<nat>, out: nat, x: nat, run: Run, access: bool)
    requires g.Ok()
  {
    Fine(g, out, x, run.start, run.len) && (access ==> !PiecesBusy(g, t, exps, x, run.start, run.len))
  }

  /** So do all runs, one after the other from iova on. */
  ghost predicate AllClear(g: Geom, t: Tab, exps: set<nat>, out: nat, iova: nat, runs: seq<Run>, access: bool)
    requires g.Ok()
  {
    forall i :: 0 <= i < |runs| ==> RunClear(g, t, exps, out, iova + LenOf(runs[..i]), runs[i], access)
  }

  lemma OneMoreClear(g: Geom, t: Tab, exps: set<nat>, out: nat, iova: nat, runs: seq<Run>, run: Run, access: bool)
    requires g.Ok() && AllClear(g, t, exps, out, iova, runs, access)
    requires RunClear(g, t, exps, out, iova + LenOf(runs), run, access)
    ensures AllClear(g, t, exps, out, iova, runs + [run], access) && LenOf(runs + [run]) == LenOf(runs) + run.len
  {
    hide RunClear, LenOf;
    LenMore(runs, run);
    var more := runs + [run];
    forall i | 0 <= i < |more| ensures RunClear(g, t, exps, out, iova + LenOf(more[..i]), more[i], access) {
      if i < |runs| { ClearAt(g, t, exps, out, iova, runs, run, access, i); }
    }
  }

  lemma LenMore(runs: seq<Run>, run: Run)
    ensures LenOf(runs + [run]) == LenOf(runs) + run.len && (runs + [run])[..|runs|] == runs
  {
    assert (runs + [run])[..|runs|] == runs;
  }

  lemma ClearAt(g: Geom, t: Tab, exps: set<nat>, out: nat, iova: nat, runs: seq<Run>, run: Run, access: bool, i: nat)
    requires g.Ok() && AllClear(g, t, exps, out, iova, runs, access) && i < |runs|
    ensures RunClear(g, t, exps, out, iova + LenOf((runs + [run])[..i]), runs[i], access)
  {
    hide RunClear, LenOf;
    assert (runs + [run])[..i] == runs[..i];
  }

  lemma NotAllClear(g: Geom, t: Tab, exps: set<nat>, out: nat, iova: nat, runs: seq<Run>, run: Run, all: seq<Run>,
      access: bool)
    requires g.Ok() && runs + [run] <= all && !RunClear(g, t, exps, out, iova + LenOf(runs), run, access)
    ensures !AllClear(g, t, exps, out, iova, all, access)
  {
    hide RunClear;
    assert all[..|runs|] == runs && all[|runs|] == run;
  }

  /** Runs are mapped in order. */
  lemma {:induction false} RunsGrow(sg: seq<Sg>, i: nat)
    requires i <= |sg|
    ensures RunsOf(sg[..i]) <= RunsOf(sg)
    decreases |sg|
  {
    if i < |sg| {
      RunsGrow(sg[..|sg| - 1], i);
      assert sg[..|sg| - 1][..i] == sg[..i];
    } else {
      assert sg[..i] == sg;
    }
  }

  /** What a pass over entry i finds and leaves. */
  lemma NextPass(sg: seq<Sg>, i: nat)
    requires i < |sg|
    ensures Total(sg[..i]) <= Total(sg[..i + 1]) == Total(sg[..i]) + sg[i].length <= Total(sg)
    ensures var before := RunOf(sg[..i]);
      if before.len > 0 && sg[i].phys == before.start + before.len then
        RunOf(sg[..i + 1]) == Run(before.start, before.len + sg[i].length) && RunsOf(sg[..i + 1]) == RunsOf(sg[..i])
      else
        RunOf(sg[..i + 1]) == Run(sg[i].phys, sg[i].length)
        && RunsOf(sg[..i + 1]) == RunsOf(sg[..i]) + if before.len > 0 then [before] else []
    ensures RunsOf(sg[..i + 1]) <= Flushed(sg)
  {
    hide RunOf, RunsOf, Total;
    OneMore(sg, i);
    RunsMore(sg[..i], sg[i]);
    RunsGrow(sg, i + 1);
    TotalPrefix(sg, i + 1);
    hide Flushed;
  }

  lemma OneMore(sg: seq<Sg>, i: nat)
    requires i < |sg|
    ensures sg[..i + 1] == sg[..i] + [sg[i]]
  {
  }

  lemma RunsMore(init: seq<Sg>, last: Sg)
    ensures Total(init + [last]) == Total(init) + last.length
    ensures var before := RunOf(init);
      if before.len > 0 && last.phys == before.start + before.len then
        RunOf(init + [last]) == Run(before.start, before.len + last.length) && RunsOf(init + [last]) == RunsOf(init)
      else
        RunOf(init + [last]) == Run(last.phys, last.length)
        && RunsOf(init + [last]) == RunsOf(init) + if before.len > 0 then [before] else []
  {
    assert (init + [last])[..|init|] == init;
  }

  /** What the extra pass finds: the pending run ends where the last entry begins exactly if that entry is empty. */
  lemma LastPass(sg: seq<Sg>)
    requires sg != []
    ensures sg[..|sg|] == sg && RunOf(sg).len <= Total(sg)
    ensures var run, last := RunOf(sg), sg[|sg| - 1];
      && (run.len > 0 && last.phys != run.start + run.len <==> run.len > 0 && !Dropped(sg))
      && Flushed(sg) == RunsOf(sg) + (if run.len > 0 && last.phys != run.start + run.len then [run] else [])
      && (Dropped(sg) ==> run.len > 0)
  {
    assert sg[..|sg|] == sg;
    RunEnd(sg);
  }

  /** Map the pending run, `mapped` bytes into the range. `runs` were mapped before, and `t0` is the table at the
      start. */
  method FlushRun(pt: PageTable, exps: set<nat>, ghost p: nat, iova: nat, mapped: nat, run: Run, prot: nat,
      access: bool, ms: MapState, ghost t0: Tab, ghost runs: seq<Run>)
    returns (r: Ret, done: nat, ms': MapState)
    requires pt.Valid() && SizesOk(pt.g, exps, p) && run.len > 0 && StateOk(pt.g, pt.at, ms, iova + mapped)
    requires Ahead(pt.g, t0, pt.T(), iova + mapped) && mapped == LenOf(runs)
    requires AllClear(pt.g, t0, exps, pt.out, iova, runs, access)
    modifies pt`mem, pt`pool, pt`at
    ensures pt.Valid() && pt.PagesKept() && done <= run.len
    ensures r == Ok ==> done == run.len && StateOk(pt.g, pt.at, ms', iova + mapped + done)
    ensures access ==>
      && Mapped(pt.g, old(pt.T()), pt.T(), iova + mapped, done, run.start, prot)
      && AllFault(pt.g, old(pt.T()), iova + mapped, done)
    ensures !access ==> SameTrans(pt.g, old(pt.T()), pt.T())
    ensures r == Ok ==> Ahead(pt.g, t0, pt.T(), iova + mapped + done) && LenOf(runs + [run]) == mapped + done
    ensures r == Ok ==> AllClear(pt.g, t0, exps, pt.out, iova, runs + [run], access)
    ensures r == ENOMEM ==> pt.pool == []
    ensures r != Ok && r != ENOMEM && SizesFit(pt.g, exps) ==>
      !RunClear(pt.g, t0, exps, pt.out, iova + mapped, run, access)
  {
    hide Geom.Limit, MemOk, Geom.Ok, Trans, Geom.Block, TabOf, SamePages, Mapped, AllFault, SameTrans, Fine;
    hide StateOk, SizesOk, PiecesBusy, Ahead, PagesOk, Geom.Real, Pow2, LenOf, AllClear, SizesFit;
    SizesPositive(pt.g, exps, p);
    ghost var t1 := pt.T();
    PiecesAhead(pt.g, t0, t1, exps, p, iova + mapped, iova + mapped, run.start, run.len);
    r, done, ms' := MapByPgsize(pt, exps, p, iova + mapped, run.start, run.len, prot, access, ms);
    if r == Ok {
      AheadTrans(pt.g, t0, t1, pt.T(), iova + mapped, iova + mapped + done);
      OneMoreClear(pt.g, t0, exps, pt.out, iova, runs, run, access);
    }
  }

  /** qcom_arm_lpae_map_sg */
  method MapSg(pt: PageTable, exps: set<nat>, ghost p: nat, iova: nat, sg: seq<Sg>, prot: nat,
      access: bool) returns (r: Ret, mapped: nat)
    requires pt.Valid() && SizesOk(pt.g, exps, p) && sg != []
    modifies pt`mem, pt`pool, pt`at
    ensures pt.Valid() && pt.PagesKept() && mapped <= Total(sg)
    ensures access ==> ListMapped(pt.g, old(pt.T()), pt.T(), iova, mapped, sg, prot)
    ensures !access ==> SameTrans(pt.g, old(pt.T()), pt.T())
    ensures r == Ok ==> mapped == Total(sg) - if Dropped(sg) then RunOf(sg).len else 0
    ensures r == Ok ==> AllClear(pt.g, old(pt.T()), exps, pt.out, iova, Flushed(sg), access)
    ensures r == ENOMEM ==> pt.pool == []
    ensures r != Ok && r != ENOMEM && SizesFit(pt.g, exps) ==>
      !AllClear(pt.g, old(pt.T()), exps, pt.out, iova, Flushed(sg), access)
  {
    hide MemOk, Geom.Ok, Trans, TabOf, SamePages, Mapped, AllFault, SameTrans, StateOk, SizesOk, ListMapped, AllClear,
         Ahead, PagesOk;
    hide Geom.Real, LenOf, RunClear, RunsOf, SizesFit, RunOf, Total, Flushed, Dropped, AllClear;
    var g := pt.g;
    var n, i: nat, len: nat, start: nat := |sg|, 0, 0, 0;
    var ms := NoState;
    mapped := 0;
    ghost var runs: seq<Run> := [];
    ghost var t0 := pt.T();
    SizesPositive(g, exps, p);
    PagesRefl(pt.at, pt.pool, pt.queue);
    NothingKept(g, pt.at, iova);
    NothingMapped(g, t0, iova, sg, prot);
    AheadRefl(g, t0, iova);
    NoRuns(g, t0, exps, pt.out, iova, access);
    while i <= n
      invariant pt.Valid() && pt.PagesKept() && 0 <= i <= n + 1 && StateOk(g, pt.at, ms, iova + mapped)
      invariant i <= n ==>
        Run(start, len) == RunOf(sg[..i]) && mapped + len == Total(sg[..i]) && runs == RunsOf(sg[..i])
      invariant i == n + 1 ==> mapped == Total(sg) - (if Dropped(sg) then RunOf(sg).len else 0) && runs == Flushed(sg)
      invariant access ==> ListMapped(g, t0, pt.T(), iova, mapped, sg, prot)
      invariant !access ==> SameTrans(g, t0, pt.T())
      invariant Ahead(g, t0, pt.T(), iova + mapped) && mapped == LenOf(runs)
      invariant AllClear(g, t0, exps, pt.out, iova, runs, access)
      decreases n + 1 - i
    {
      var cur := sg[if i < n then i else n - 1];
      if i == n { LastPass(sg); } else { NextPass(sg, i); }
      if len > 0 && cur.phys != start + len {
        ghost var t1, at1, pool1, queue1 := pt.T(), pt.at, pt.pool, pt.queue;
        assert runs + [Run(start, len)] <= Flushed(sg);
        var done;
        r, done, ms := FlushRun(pt, exps, p, iova, mapped, Run(start, len), prot, access, ms, t0, runs);
        PagesTrans(old(pt.at), old(pt.pool), old(pt.queue), at1, pool1, queue1, pt.at, pt.pool, pt.queue);
        if access { ListMore(g, t0, t1, pt.T(), iova, mapped, sg, prot, i, done); }
        if !access { SameTwice(g, t0, t1, pt.T()); }
        if r != Ok && r != ENOMEM && SizesFit(g, exps) {
          NotAllClear(g, t0, exps, pt.out, iova, runs, Run(start, len), Flushed(sg), access);
        }
        mapped := mapped + done;
        if r != Ok { return; }
        runs := runs + [Run(start, len)];
        len := 0;
      }
      if len > 0 {
        len := len + cur.length;
      } else {
        len, start := cur.length, cur.phys;
      }
      i := i + 1;
    }
    r := Ok;
  }

  lemma NoRuns(g: Geom, t: Tab, exps: set<nat>, out: nat, iova: nat, access: bool)
    requires g.Ok()
    ensures AllClear(g, t, exps, out, iova, [], access) && LenOf([]) == 0 && RunsOf([]) == []
    ensures RunOf([]) == Run(0, 0) && Total([]) == 0
  {
  }

  lemma SameTwice(g: Geom, t0: Tab, t1: Tab, t2: Tab)
    requires g.Ok() && SameTrans(g, t0, t1) && SameTrans(g, t1, t2)
    ensures SameTrans(g, t0, t2)
  {
    hide Trans;
  }

  lemma NothingMapped(g: Geom, t: Tab, iova: nat, sg: seq<Sg>, prot: nat)
    requires g.Ok()
    ensures ListMapped(g, t, t, iova, 0, sg, prot) && SameTrans(g, t, t)
  {
  }

  /** Such a list: one page, then an empty entry that begins where the page ends. Nothing of it is mapped. */
  lemma DroppedExample()
    ensures var sg := [Sg(4096, 4096), Sg(8192, 0)]; Dropped(sg) && Total(sg) == RunOf(sg).len == 4096
  {
    var sg := [Sg(4096, 4096), Sg(8192, 0)];
    assert sg[..1] == [Sg(4096, 4096)];
    assert sg[..1][..0] == [];
    assert RunOf(sg[..1]) == Run(4096, 4096);
  }
}
