/** The ARM LPAE page table driver: map, unmap with block split, and lookup, on tables changed in place. */
module Lpae {
  import opened Arith
  import opened Counting
  import opened LpaeLevels
  import opened LpaeAddr
  import opened LpaeTable
  import opened LpaeOps
  import opened LpaeSplit
  import opened LpaeCut
  import opened LpaeMem
  import opened LpaeSteps
  import opened LpaeFree
  import opened LpaeBusy

  datatype Ret = Ok | EINVAL | ERANGE | ENOMEM | EEXIST

  function Min(a: nat, b: nat): nat { if a <= b then a else b }

  class PageTable {
    const g: Geom
    const root: nat
    var mem: Mem
    /** Pages free to be allocated. */
    var pool: seq<nat>
    /** Pages to be freed at the next TLB sync. */
    var queue: seq<nat>
    ghost var at: Where
    /** pgsize_bitmap as a set, and the first physical address out of range. */
    const sizes: set<nat>
    const out: nat

    ghost function T(): Tab reads this { TabOf(mem, at) }

    ghost predicate Valid()
      reads this
    {
      && g.Ok() && g.Real() && MemOk(g, root, mem, at, pool, queue) && PagesOk(g, at, pool, queue)
      && Straight(g, T(), false) && out <= Reach(g.page) && forall z :: z in sizes ==> IsBlock(g, z)
    }

    constructor (g: Geom, root: nat, pool: seq<nat>, sizes: set<nat>, out: nat)
      requires g.Real() && Distinct(pool) && root !in pool && (forall z :: z in sizes ==> IsBlock(g, z)) &&
        out <= Reach(g.page)
      requires TablePage(g, root) && forall a :: a in pool ==> TablePage(g, a)
      ensures Valid() && this.g == g && this.sizes == sizes && this.out == out && this.pool == pool
      ensures Straight(g, T(), true) && T() == map[Label(g.H, 0) := Zeros(g.top)] &&
        forall x: nat :: Trans(g, T(), x) == Fault
    {
      this.g, this.root, this.sizes, this.out := g, root, sizes, out;
      mem, at, this.pool, queue := map[root := Zeros(g.top)], map[Label(g.H, 0) := root], pool, [];
      new;
      assert pool + [] == pool;
      Fresh(g, root, pool);
    }

    /** qcom_io_pgtable_tlb_sync: queued pages go back to the allocator. */
    method Sync()
      requires Valid()
      modifies this`pool, this`queue
      ensures Valid() && PagesKept() && queue == []
    {
      assert pool + queue == pool + queue + [];
      ghost var pool0, queue0 := pool, queue;
      pool, queue := pool + queue, [];
      PagesStay(g, at, pool0, queue0, at, pool, queue);
    }

    /** No page was lost or won. */
    twostate predicate PagesKept()
      reads this
    {
      SamePages(old(at), old(pool), old(queue), at, pool, queue)
    }

    /** arm_lpae_iova_to_phys. The index into the first table is masked, so addresses past the end wrap around. */
    method IovaToPhys(x: nat) returns (p: Phys)
      requires Valid()
      ensures g.Limit() > 0 && p == Trans(g, T(), x % g.Limit())
    {
      hide Geom.Index, Geom.Limit, MemOk, Geom.Ok, Look, Geom.Off, TabOf, Here, Or, PagesOk, Geom.Real, Geom.Cell,
           Straight;
      MemParts(g, root, mem, at, pool, queue);
      LimitPositive(g);
      ghost var y := x % g.Limit();
      RootHere(g, root, mem, at, pool, queue, y);
      WalkLook(g, mem, at, root, g.H, y);
      var a: nat, h: nat := root, g.H;
      while true
        invariant h <= g.H && Walk(g, mem, root, g.H, y) == Walk(g, mem, a, h, y) && Here(g, at, h, y, a)
        decreases h
      {
        IndexFits(g, root, mem, at, pool, queue, h, y, a);
        WrapsAround(g, h, x);
        var pte := mem[a][if h == g.H then g.Cell(h, x) % g.top else g.Index(h, x)];
        if pte == Empty { return Fault; }
        if pte.Leaf? { return Phys(Or(pte.pa, g.Off(h, x)), pte.prot); }
        if h == 0 { return Fault; }
        KidHere(g, root, mem, at, pool, queue, h, y, a);
        a, h := pte.addr, h - 1;
      }
    }

    /** __arm_lpae_init_pte */
    method WriteLeaves(a: nat, i: nat, k: nat, pa: nat, step: nat, prot: nat)
      requires a in mem && i + k <= |mem[a]|
      modifies this`mem
      ensures mem == old(mem)[a := WithLeaves(g.page, old(mem)[a], i, k, pa, step, prot)]
    {
      var j := 0;
      hide Stored;
      assert mem[a] == WithLeaves(g.page, mem[a], i, 0, pa, step, prot);
      while j < k
        invariant 0 <= j <= k && mem == old(mem)[a := WithLeaves(g.page, old(mem)[a], i, j, pa, step, prot)]
      {
        var leaf := Leaf(Stored(g.page, pa + j * step), prot);
        assert mem[a][i + j := leaf] == WithLeaves(g.page, old(mem)[a], i, j + 1, pa, step, prot);
        mem := mem[a := mem[a][i + j := leaf]];
        j := j + 1;
      }
    }

    /** arm_lpae_init_pte: map k blocks of height h, unless one of the entries is in use. */
    method InitPtes(iova: nat, paddr: nat, prot: nat, h: nat, k: nat, a: nat, prev: Prev) returns (r: Ret)
      requires Valid() && iova < g.Limit() && g.Aligned(h, iova) && Here(g, at, h, iova, a)
      requires PrevOk(g, at, h, iova, prev)
      requires a in mem && g.Index(h, iova) + k <= |mem[a]|
      modifies this`mem
      ensures Valid() && (r == Ok || r == EEXIST)
      ensures r == Ok ==>
        && Written(g, old(T()), T(), iova, g.Span(h, k), g.Block(h), paddr, prot)
        && AllFault(g, old(T()), iova, g.Span(h, k)) && HasLeaves(g, T(), h, iova, k, paddr, prot)
      ensures r == EEXIST ==> mem == old(mem)
      ensures r == EEXIST <==> Busy(g, old(T()), h, h, iova, k)
      ensures Frame(g, old(T()), T(), iova + g.Span(h, k), Flat(g, h, k, paddr))
    {
      hide Geom.Index, Geom.Limit, MemOk, Geom.Ok, Trans, Geom.Aligned, Geom.Block, Geom.Span, WithLeaves, TabOf, Here,
           Busy, Frame;
      hide PagesOk, Flat, Geom.Real, Written, HasLeaves, Straight;
      IndexFits(g, root, mem, at, pool, queue, h, iova, a);
      BusyEnd(g, root, mem, at, pool, queue, h, iova, a, k);
      FrameRefl(g, T(), iova + g.Span(h, k), Flat(g, h, k, paddr));
      var i, j := g.Index(h, iova), 0;
      while j < k
        invariant 0 <= j <= k && AllEmpty(mem[a], i, j)
      {
        if mem[a][i + j] != Empty { return EEXIST; }
        j := j + 1;
      }
      ghost var mem0 := mem;
      Above(g, root, mem, at, pool, queue, h, iova, a, prev);
      WriteLeaves(a, i, k, paddr, g.Block(h), prot);
      ghost var mem1 := mem;
      if prev.Prev? {
        mem := mem[prev.addr := mem[prev.addr][prev.i := Recounted(mem[prev.addr][prev.i], k)]];
      }
      LeavesStep(g, root, mem0, at, pool, queue, h, iova, a, prev, k, paddr, prot, mem1, mem);
      LeavesFrame(g, root, mem0, at, pool, queue, h, iova, a, prev, k, paddr, prot, mem1, mem);
      FrameHolds(g, TabOf(mem0, at), T(), iova + g.Span(h, k), Flat(g, h, k, paddr));
      LeavesThere(g, root, mem, at, pool, queue, h, iova, a, k, mem0[a], paddr, prot);
      r := Ok;
    }

    /** The end of the allocation path of __arm_lpae_map: link a new, empty table under an empty entry. */
    method InstallEmpty(iova: nat, h: nat, a: nat, ghost s: nat, ghost k: nat, ghost flat: bool) returns (c: nat)
      requires Valid() && h > 0 && Here(g, at, h, iova, a) && pool != [] && (s < h || s > g.H)
      requires a in mem && g.Index(h, iova) < |mem[a]| && mem[a][g.Index(h, iova)] == Empty
      modifies this`mem, this`pool, this`at
      ensures Valid() && PagesKept() && SameTrans(g, old(T()), T())
      ensures Here(g, at, h - 1, iova, c) && Here(g, at, h, iova, a) && Grown(old(at), at) && pool == old(pool)[1..]
      ensures Busy(g, T(), h - 1, s, iova, k) <==> Busy(g, old(T()), h - 1, s, iova, k)
      ensures Frame(g, old(T()), T(), iova + 1, flat)
    {
      hide Geom.Index, MemOk, Geom.Ok, Trans, TabOf, Here, Zeros, SamePages, Busy, Frame, PagesOk, Geom.Real, TableAddr,
           SameTrans;
      ghost var mem0, at0, pool0 := mem, at, pool;
      c := pool[0];
      var i := g.Index(h, iova);
      mem := mem[c := Zeros(g.n)];
      assert c != a by { PoolApart(g, root, mem0, at, pool, queue, h, iova, a); }
      PoolPage(g, at, pool, queue);
      mem := mem[a := mem[a][i := Table(TableAddr(g.page, c), 0)]];
      InstallStep(g, root, mem0, at, pool, queue, h, iova, a, mem);
      InstallBusy(g, root, mem0, at, pool, queue, h, iova, a, mem, s, k);
      InstallFrame(g, root, mem0, at, pool, queue, h, iova, a, mem, flat);
      FrameHolds(g, TabOf(mem0, at), TabOf(mem, at[Slot(g, h - 1, iova) := c]), iova + 1, flat);
      NewKid(g, root, mem0, at, pool, queue, h, iova, a);
      TakenPage(at, pool, queue, Slot(g, h - 1, iova));
      at := at[Slot(g, h - 1, iova) := c];
      pool := pool[1..];
      PagesStay(g, at0, pool0, queue, at, pool, queue);
    }

    /** __arm_lpae_map without map state: pgcount blocks of one size, as far as one table goes. */
    method MapAt(iova: nat, paddr: nat, size: nat, ghost s: nat, pgcount: nat, prot: nat, h: nat, a: nat, prev: Prev)
      returns (r: Ret, mapped: nat, ta: nat, tp: Prev)
      requires Valid() && size == g.Block(s) && g.Aligned(s, iova) && pgcount > 0
      requires iova + g.Span(s, pgcount) <= g.Limit()
      requires iova < g.Limit() && Here(g, at, h, iova, a) && PrevOk(g, at, h, iova, prev) && (s <= h || s > g.H)
      modifies this`mem, this`pool, this`at
      ensures Valid() && PagesKept()
      ensures r == Ok ==>
        && s <= g.H && mapped == g.Span(s, Min(pgcount, g.n - g.Index(s, iova)))
        && Written(g, old(T()), T(), iova, mapped, size, paddr, prot) && AllFault(g, old(T()), iova, mapped)
        && HasLeaves(g, T(), s, iova, Min(pgcount, g.n - g.Index(s, iova)), paddr, prot)
      ensures r != Ok ==> mapped == 0 && SameTrans(g, old(T()), T())
      ensures r == EEXIST <==> Busy(g, old(T()), h, s, iova, Min(pgcount, g.n - g.Index(s, iova)))
      ensures Frame(g, old(T()), T(), iova + g.Span(s, Min(pgcount, g.n - g.Index(s, iova))),
                    Flat(g, s, Min(pgcount, g.n - g.Index(s, iova)), paddr))
      ensures Grown(old(at), at) && (r == Ok ==> Here(g, at, s, iova, ta) && PrevOk(g, at, s, iova, tp))
      ensures r != ERANGE && (r == EINVAL ==> s > g.H)
      ensures |pool| <= |old(pool)| <= |pool| + h - if s <= g.H then s else 0
      ensures r == ENOMEM ==> pool == [] && |old(pool)| < h - if s <= g.H then s else 0
      decreases h
    {
      hide Geom.Index, Geom.Limit, MemOk, Geom.Ok, Trans, Geom.Aligned, Geom.Block, TabOf, Here, Geom.Span, PrevOk,
           SamePages;
      hide Busy, Frame, PagesOk, Geom.Real, Written, SameTrans, AllFault, Flat, Entry, HasLeaves, Straight;
      PagesRefl(at, pool, queue);
      mapped, ta, tp := 0, a, prev;
      ghost var num := Min(pgcount, g.n - g.Index(s, iova));
      ghost var end := iova + g.Span(s, num);
      ghost var flat := Flat(g, s, num, paddr);
      FrameRefl(g, T(), end, flat);
      SameTransRefl(g, T());
      assert iova + 1 <= end by { SpanInside(g, s, 0, num); NoSpan(g, s); }
      var i := g.Index(h, iova);
      IndexFits(g, root, mem, at, pool, queue, h, iova, a);
      SameHeight(g, s, h);
      if size == g.Block(h) {
        var k := Min(pgcount, g.n - i);
        LeavesFit(g, h, iova, pgcount);
        r := InitPtes(iova, paddr, prot, h, k, a, prev);
        if r == Ok { mapped := g.Span(h, k); }
        return;
      }
      if h == 0 {
        BusyNothing(g, T(), s, iova, num);
        return EINVAL, 0, a, prev;
      }
      KidHere(g, root, mem, at, pool, queue, h, iova, a);
      ghost var t0 := T();
      var pte := mem[a][i];
      EntryIs(g, root, mem, at, pool, queue, h, iova, a);
      BusyDown(g, t0, h, s, iova, num);
      var c;
      if pte == Empty {
        if pool == [] {
          FreeBelow(g, root, mem, at, pool, queue, h, s, iova, a, num);
          return ENOMEM, 0, a, prev;
        }
        c := InstallEmpty(iova, h, a, s, num, flat);
      } else if pte.Table? {
        FrameRefl(g, T(), iova + 1, flat);
        c := pte.addr;
      } else {
        return EEXIST, 0, a, prev;
      }
      assert PrevOk(g, at, h - 1, iova, Prev(a, i)) by { NextPrev(g, at, h, iova, a); }
      ghost var t1, at1, pool1, queue1 := T(), at, pool, queue;
      r, mapped, ta, tp := MapAt(iova, paddr, size, s, pgcount, prot, h - 1, c, Prev(a, i));
      PagesTrans(old(at), old(pool), old(queue), at1, pool1, queue1, at, pool, queue);
      Through(g, t0, t1, T(), iova, mapped, size, paddr, prot);
      FrameTwice(g, t0, t1, T(), iova + 1, end, flat);
    }

    /** __arm_lpae_free_pgtable, deferred: queue the page of a table and of every table under it. */
    method FreeTable(a: nat, h: nat, ghost l: Label)
      requires Family(g, mem, at, l) && l.h == h && at[l] == a && Apart(at, pool, queue)
      modifies this`queue, this`at
      ensures at == Without(g, old(at), l) && Apart(at, pool, queue)
      ensures old(queue) <= queue && Listed(old(at), at, queue[|old(queue)|..])
      decreases h
    {
      hide Family, Apart, Listed, Under, UnderSome, Kid;
      FamilyParts(g, mem, at, l);
      ghost var at0, queue0 := at, queue;
      ListedNone(at);
      assert queue[|queue|..] == [];
      Start(g, at, l);
      if h == 0 { LastLevel(g, at, l); }
      var j := if h == 0 then g.n else 0;
      while j < g.n
        invariant 0 <= j <= g.n && at == WithoutSome(g, at0, l, j) && Apart(at, pool, queue)
        invariant queue0 <= queue && Listed(at0, at, queue[|queue0|..])
      {
        ghost var at1, queue1 := at, queue;
        FamilyEntry(g, mem, at0, l, j);
        var pte := mem[a][j];
        if pte.Table? {
          KidFamily(g, mem, at0, l, j);
          NextKid(g, at0, l, j);
          KidHeight(g, l, j);
          FreeTable(pte.addr, h - 1, Kid(g, l, j));
          ListedBoth(at0, at1, at, queue1[|queue0|..], queue[|queue1|..]);
          assert queue[|queue0|..] == queue1[|queue0|..] + queue[|queue1|..];
        } else {
          NoKid(g, mem, at0, l, j);
        }
        j := j + 1;
      }
      LastOne(g, at0, l);
      StillPlaced(g, mem, at0, l, g.n);
      QueueApart(mem, at, pool, queue, l);
      ListedOne(at, l);
      ListedBoth(at0, at, at - {l}, queue[|queue0|..], [a]);
      assert (queue + [a])[|queue0|..] == queue[|queue0|..] + [a];
      queue := queue + [a];
      at := at - {l};
    }

    /** Clear the entry for iova at height h and take the tables under it out of use. */
    method ClearEntry(iova: nat, h: nat, a: nat)
      requires Valid() && Here(g, at, h, iova, a) && (h > 0 || g.H == 0) && a in mem && g.Index(h, iova) < |mem[a]|
      modifies this`mem, this`queue, this`at
      ensures Valid() && Here(g, at, h, iova, a) && a in mem && mem[a] == old(mem[a])[g.Index(h, iova) := Empty]
      ensures Cut(g, old(T()), T(), Slot(g, h, iova), g.Index(h, iova)) &&
        forall m :: m in at ==> m in old(at) && at[m] == old(at)[m]
      ensures old(queue) <= queue && Listed(old(at), at, queue[|old(queue)|..]) && PagesKept()
    {
      hide Geom.Index, MemOk, Geom.Ok, TabOf, Here, Beneath, Listed, Cut, Kept, Without, Family, SamePages, PagesOk,
           Geom.Real;
      var i := g.Index(h, iova);
      var pte := mem[a][i];
      ghost var l := Slot(g, h, iova);
      ghost var mem0, at0, queue0 := mem, at, queue;
      mem := mem[a := mem[a][i := Empty]];
      MemParts(g, root, mem0, at, pool, queue);
      if pte.Table? && h > 0 {
        Orphan(g, root, mem0, at, pool, queue, h, iova, a, mem);
        FreeTable(pte.addr, h - 1, Kid(g, l, i));
      } else {
        assert queue[|queue|..] == [];
        Leafy(g, root, mem0, at, pool, queue, h, iova, a);
        ListedNone(at);
      }
      KeptPart(g, at0, l, i);
      FreedPages(at0, at, pool, queue0, queue);
      PagesStay(g, at0, pool, queue0, at, pool, queue);
      CutStep(g, root, mem0, at0, pool, queue0, h, iova, a, mem, at, queue);
      CutLeaves(g, TabOf(mem0, at0), T(), l, i);
      StraightFrom(g, TabOf(mem0, at0), T(), false);
    }

    /** The first branch of __arm_lpae_unmap: clear k blocks of height h, up to the first that is not there. */
    method UnmapBlocks(iova: nat, h: nat, a: nat, k: nat) returns (j: nat)
      requires Valid() && Here(g, at, h, iova, a) && (h > 0 || g.H == 0) && g.Aligned(h, iova)
      requires a in mem && g.Index(h, iova) + k <= |mem[a]| <= g.n
      modifies this`mem, this`queue, this`at
      ensures Valid() && PagesKept() && j <= k && Unmapped(g, old(T()), T(), iova, g.Span(h, j))
      ensures LeavesFrom(old(T()), T()) && Standing(old(at), at, h)
      ensures AllThere(g, old(T()), iova, g.Span(h, k)) ==> j == k
    {
      hide Geom.Index, MemOk, Geom.Ok, Trans, TabOf, Here, Geom.Aligned, Geom.Span, Geom.Block, Cut, Listed, SamePages,
           Unmapped, AllThere;
      hide LeavesFrom, Standing, PagesOk, Geom.Real;
      PagesRefl(at, pool, queue);
      j := 0;
      var i, x := g.Index(h, iova), iova;
      ghost var t0 := T();
      NoBlocks(g, h, t0, iova);
      StandingRefl(at, t0, h);
      while j < k
        invariant Valid() && 0 <= j <= k && x == iova + g.Span(h, j) && Here(g, at, h, iova, a) && a in mem
        invariant |mem[a]| == |old(mem[a])|
        invariant Unmapped(g, t0, T(), iova, g.Span(h, j)) && PagesKept() && LeavesFrom(t0, T())
        invariant Standing(old(at), at, h)
      {
        StepSlot(g, h, iova, j);
        StillHere(g, at, h, iova, x, a);
        var pte := mem[a][i + j];
        if pte == Empty {
          EmptyHere(g, root, mem, at, pool, queue, t0, h, iova, x, a);
          StepInside(g, h, j, k);
          NotAll(g, t0, iova, g.Span(h, k), x);
          return;
        }
        ghost var mem1, at1, queue1 := mem, at, queue;
        MemParts(g, root, mem, at, pool, queue);
        ClearEntry(x, h, a);
        PagesTrans(old(at), pool, old(queue), at1, pool, queue1, at, pool, queue);
        CutBlock(g, root, mem1, at1, mem, at, pool, queue, h, x);
        CutStands(g, root, mem1, at1, mem, at, pool, queue1, queue, h, x, t0, old(at), h);
        StillHere(g, at, h, x, iova, a);
        MoreGone(g, t0, TabOf(mem1, at1), T(), iova, g.Span(h, j), g.Block(h));
        x := x + g.Block(h);
        j := j + 1;
      }
    }

    /** __arm_lpae_set_pte with 0, k times. */
    method ClearEntries(a: nat, i: nat, k: nat)
      requires a in mem && i + k <= |mem[a]|
      modifies this`mem
      ensures mem == old(mem)[a := Cleared(old(mem)[a], i, k)]
    {
      var j := 0;
      assert mem[a] == Cleared(mem[a], i, 0);
      while j < k
        invariant 0 <= j <= k && mem == old(mem)[a := Cleared(old(mem)[a], i, j)]
      {
        assert mem[a][i + j := Empty] == Cleared(old(mem)[a], i, j + 1);
        mem := mem[a := mem[a][i + j := Empty]];
        j := j + 1;
      }
    }

    /** The second branch of __arm_lpae_unmap: clear pages of a last-level table, and free the table if none is left. */
    method UnmapPages(iova: nat, a: nat, k: nat)
      requires Valid() && g.H > 0 && Here(g, at, 1, iova, a) && g.Aligned(0, iova) && iova < g.Limit()
      requires a in mem && g.Index(1, iova) < |mem[a]| && mem[a][g.Index(1, iova)].Table?
      requires 0 < k <= g.n - g.Index(0, iova) && AllThere(g, T(), iova, g.Span(0, k))
      modifies this`mem, this`queue, this`at
      ensures Valid() && PagesKept() && Unmapped(g, old(T()), T(), iova, g.Span(0, k))
      ensures LeavesFrom(old(T()), T()) && Standing(old(at), at, 1)
    {
      hide Geom.Index, MemOk, Geom.Ok, Trans, TabOf, Here, Geom.Aligned, Geom.Span, Geom.Block, Cut, Listed, Geom.Limit,
           SamePages;
      hide LeavesFrom, Standing, PagesOk, Geom.Real;
      StandingRefl(at, T(), 1);
      PagesRefl(at, pool, queue);
      hide Cleared, PrevOk, Used;
      var pi := g.Index(1, iova);
      var c, i := mem[a][pi].addr, g.Index(0, iova);
      ghost var t0, mem0 := T(), mem;
      KidHere(g, root, mem, at, pool, queue, 1, iova, a);
      NextPrev(g, at, 1, iova, a);
      Above(g, root, mem, at, pool, queue, 0, iova, c, Prev(a, pi));
      PagesThere(g, root, mem, at, pool, queue, iova, c, k);
      IndexFits(g, root, mem, at, pool, queue, 0, iova, c);
      ClearEntries(c, i, k);
      ghost var mem1 := mem;
      mem := mem[a := mem[a][pi := Recounted(mem[a][pi], 0 - k)]];
      ClearStep(g, root, mem0, at, pool, queue, iova, c, Prev(a, pi), k, mem1, mem);
      ghost var t1 := T();
      ClearedLeaves(g, root, mem0, at, pool, queue, iova, a, c, i, k, mem);
      StraightFrom(g, t0, t1, false);
      LowCount(g, mem0[c], i, k, mem0[a][pi]);
      if mem[a][pi].cnt == 0 {
        ghost var mem2, at2, queue2 := mem, at, queue;
        ClearEntry(iova, 1, a);
        EmptyTable(mem2[c]);
        CutEmpty(g, root, mem2, at2, pool, queue2, 1, iova, a, c, T());
        CutStands(g, root, mem2, at2, mem, at, pool, queue2, queue, 1, iova, t0, old(at), 1);
        GoneSame(g, t0, t1, T(), iova, g.Span(0, k));
      }
    }

    /** The loop of arm_lpae_split_blk_unmap: fill a new table with the pieces of a block, less k of them from u on. */
    method FillPieces(c: nat, pa: nat, prot: nat, step: nat, u: int, k: nat) returns (cnt: nat)
      requires c in mem && mem[c] == Zeros(g.n) && (u >= 0 ==> u + k <= g.n) && (u < 0 ==> k == 0)
      modifies this`mem
      ensures cnt == g.n - k && mem == old(mem)[c := Pieces(g, pa, prot, step, if u < 0 then 0 else u, k)]
    {
      ghost var w := Pieces(g, pa, prot, step, if u < 0 then 0 else u, k);
      hide Pieces, Zeros, Stored, Bytes;
      var i, blk := 0, pa;
      cnt := 0;
      PieceStep(step, 0);
      while i < g.n
        invariant 0 <= i <= g.n && blk == pa + Bytes(step, i) && c in mem && mem == old(mem)[c := mem[c]]
        invariant |mem[c]| == g.n
        invariant forall j :: 0 <= j < g.n ==> mem[c][j] == if j < i then w[j] else Empty
        invariant cnt == i - Left(i, u, k)
      {
        PieceStep(step, i);
        if !(i >= u && i < u + k) {
          mem := mem[c := mem[c][i := Leaf(Stored(g.page, blk), prot)]];
          cnt := cnt + 1;
        }
        i, blk := i + 1, blk + step;
      }
      assert mem[c] == w;
    }

    /** arm_lpae_split_blk_unmap up to the installation of the new table: split the block of iova at height h, less k
        pieces. */
    method SplitBlock(iova: nat, h: nat, a: nat, u: int, k: nat, ghost flat: bool) returns (c: nat)
      requires Valid() && (flat ==> Straight(g, T(), true)) && h > 0 && Here(g, at, h, iova, a) && pool != []
      requires k > 0 ==> g.Aligned(h - 1, iova)
      requires a in mem && g.Index(h, iova) < |mem[a]| && mem[a][g.Index(h, iova)].Leaf?
      requires (u < 0 && k == 0) || (u == g.Index(h - 1, iova) && u + k <= g.n)
      modifies this`mem, this`pool, this`at
      ensures Valid() && PagesKept() && Entry(g, old(T()), h, iova) == old(mem[a][g.Index(h, iova)])
      ensures Torn(g, old(T()), T(), iova, g.Span(h - 1, k), h, h - 1)
      ensures Here(g, at, h - 1, iova, c) && (flat ==> Straight(g, T(), true)) && Grown(old(at), at)
      ensures pool == old(pool)[1..]
      ensures k == 0 ==> c in mem && g.Index(h - 1, iova) < |mem[c]|
      ensures k == 0 ==> mem[c][g.Index(h - 1, iova)] == Piece(g, h, old(mem[a][g.Index(h, iova)]), iova)
    {
      hide Geom.Index, MemOk, Geom.Ok, Trans, TabOf, Here, Geom.Aligned, Geom.Span, Geom.Block, SamePages;
      hide PagesOk, Geom.Real, Straight, Torn, TableAddr, Stored, Entry, Piece;
      ghost var mem0, at0, pool0 := mem, at, pool;
      c := pool[0];
      assert c != a by { PoolApart(g, root, mem, at, pool, queue, h, iova, a); }
      var i := g.Index(h, iova);
      var pte := mem[a][i];
      mem := mem[c := Zeros(g.n)];
      var cnt := FillPieces(c, pte.pa, pte.prot, g.Block(h - 1), u, k);
      PoolPage(g, at, pool, queue);
      mem := mem[a := mem[a][i := Table(TableAddr(g.page, c), cnt % COUNTS)]];
      if u < 0 { PiecesNone(g, pte.pa, pte.prot, g.Block(h - 1), 0, g.Index(h - 1, iova)); }
      PieceIs(g, h, pte, iova);
      SplitStep(g, root, mem0, at, pool, queue, h, iova, a, k, mem);
      SplitAligned(g, root, mem0, at, pool, queue, h, iova, a, k, mem, false);
      if flat { SplitAligned(g, root, mem0, at, pool, queue, h, iova, a, k, mem, true); }
      NewKid(g, root, mem0, at, pool, queue, h, iova, a);
      TakenPage(at, pool, queue, Slot(g, h - 1, iova));
      at := at[Slot(g, h - 1, iova) := c];
      pool := pool[1..];
      PagesStay(g, at0, pool0, queue, at, pool, queue);
    }

    /** arm_lpae_split_blk_unmap: split the block of iova at height h, leaving out what is to be unmapped. */
    method SplitUnmap(iova: nat, size: nat, ghost s: nat, pgcount: nat, h: nat, a: nat, ghost flat: bool)
      returns (unmapped: nat, ghost k: nat)
      requires Valid() && Request(g, T(), iova, size, s, pgcount) && Here(g, at, h, iova, a) && h <= g.H
      requires (s < h || s > g.H) && a in mem && g.Index(h, iova) < |mem[a]| && mem[a][g.Index(h, iova)].Leaf?
      requires flat ==> Straight(g, T(), true)
      modifies this`mem, this`pool, this`queue, this`at
      ensures Valid() && PagesKept() && Answer(g, old(T()), T(), |old(pool)|, iova, s, pgcount, h, unmapped, k)
      ensures (flat ==> Straight(g, T(), true)) && Standing(old(at), at, s) && (k == 0 && s <= g.H ==> pool == [])
      decreases h, 0
    {
      hide Geom.Index, MemOk, Geom.Ok, Trans, Geom.Block, TabOf, Here, Geom.Span, Entry, Request, Answer, Pieces,
           SamePages;
      hide PagesOk, Geom.Real, Straight, Torn, Standing, Grown, OnlyLeaf, Piece, Shape;
      PagesRefl(at, pool, queue);
      ghost var t0 := T();
      StandingRefl(at, t0, s);
      MemParts(g, root, mem, at, pool, queue);
      EntryIs(g, root, mem, at, pool, queue, h, iova, a);
      OneLeaf(g, at, t0, h, iova);
      if h == 0 || pool == [] {
        NoneUnmapped(g, at, t0, |pool|, iova, s, pgcount, h);
        return 0, 0;
      }
      RequestAligned(g, t0, iova, size, s, pgcount, h - 1);
      if size == g.Block(h - 1) {
        var u := g.Index(h - 1, iova);
        var num := Min(pgcount, g.n - u);
        var _ := SplitBlock(iova, h, a, u, num, flat);
        SplitUnmapped(g, t0, T(), |old(pool)|, iova, s, pgcount, h, num);
        GrownStands(old(at), at, s);
        return g.Span(h - 1, num), num;
      }
      var c := SplitBlock(iova, h, a, -1, 0, flat);
      ghost var t1, at1, pool1, queue1 := T(), at, pool, queue;
      NoSpan(g, h - 1);
      MemParts(g, root, mem, at, pool, queue);
      EntryIs(g, root, mem, at, pool, queue, h - 1, iova, c);
      PieceLeaf(g, h, Entry(g, t0, h, iova), iova);
      SplitWhole(g, old(at), t0, t1, iova, h, size, s, pgcount);
      unmapped, k := UnmapAt(iova, size, s, pgcount, h - 1, c, flat);
      PagesTrans(old(at), old(pool), old(queue), at1, pool1, queue1, at, pool, queue);
      StandsAfter(old(at), at1, at, s);
      OneLeaf(g, at1, t1, h - 1, iova);
      AfterSplit(g, t0, t1, T(), |old(pool)|, iova, s, pgcount, h, unmapped, k);
    }

    /** __arm_lpae_unmap from the table that iova meets at height h on. The size is one block of height s. */
    method UnmapAt(iova: nat, size: nat, ghost s: nat, pgcount: nat, h: nat, a: nat, ghost flat: bool)
      returns (unmapped: nat, ghost k: nat)
      requires Valid() && Request(g, T(), iova, size, s, pgcount) && (flat ==> Straight(g, T(), true))
      requires Here(g, at, h, iova, a) && (s <= h || s > g.H) && (h > 0 || g.H == 0 || s > g.H)
      modifies this`mem, this`pool, this`queue, this`at
      ensures Valid() && PagesKept() && Answer(g, old(T()), T(), |old(pool)|, iova, s, pgcount, h, unmapped, k)
      ensures (flat ==> Straight(g, T(), true)) && Standing(old(at), at, s) && (k == 0 && s <= g.H ==> pool == [])
      decreases h, 1
    {
      hide Geom.Index, MemOk, Geom.Ok, Trans, Geom.Block, TabOf, Here, Geom.Span, Entry, Request, Answer, Geom.Limit,
           SamePages;
      hide PagesOk, Geom.Real, Straight, Standing, LeavesFrom, Unmapped, Covered, Shape;
      PagesRefl(at, pool, queue);
      RequestParts(g, T(), iova, size, s, pgcount, h);
      var i := g.Index(h, iova);
      IndexFits(g, root, mem, at, pool, queue, h, iova, a);
      EntryThere(g, root, mem, at, pool, queue, h, iova, a);
      EntryIs(g, root, mem, at, pool, queue, h, iova, a);
      MemParts(g, root, mem, at, pool, queue);
      HereIn(g, at, h, iova, a);
      var pte := mem[a][i];
      ghost var t0 := T();
      if size == g.Block(h) {
        NotCovered(g, at, t0, h, iova);
        var num := Min(pgcount, g.n - i);
        var done := UnmapBlocks(iova, h, a, num);
        SomeUnmapped(g, t0, T(), |pool|, iova, s, pgcount, h, num);
        if flat { StraightFrom(g, t0, T(), true); }
        return g.Span(h, done), done;
      }
      if h == 1 && pte.Table? {
        var num := Min(pgcount, g.n - g.Index(0, iova));
        RequestPages(g, t0, iova, size, s, pgcount, num);
        KidThere(g, at, t0, iova);
        NotCovered(g, at, t0, 0, iova);
        UnmapPages(iova, a, num);
        PagesUnmapped(g, t0, T(), |pool|, iova, size, s, pgcount, num);
        if flat { StraightFrom(g, t0, T(), true); }
        StandsLess(old(at), at, s);
        return size * num, num;
      }
      if pte.Leaf? {
        unmapped, k := SplitUnmap(iova, size, s, pgcount, h, a, flat);
        return;
      }
      KidHere(g, root, mem, at, pool, queue, h, iova, a);
      unmapped, k := UnmapAt(iova, size, s, pgcount, h - 1, pte.addr, flat);
      SameAnswer(g, t0, T(), |old(pool)|, iova, s, pgcount, h, unmapped, k);
    }

    /** qcom_arm_lpae_map_pages. `access` says whether reading or writing is asked for. */
    method MapPages(iova: nat, paddr: nat, size: nat, pgcount: nat, prot: nat, access: bool)
      returns (r: Ret, mapped: nat)
      requires Valid() &&
        (Proper(g, sizes, iova, size, pgcount) ==> iova % size == 0 && iova + Bytes(size, pgcount) <= g.Limit())
      modifies this`mem, this`pool, this`at
      ensures Valid() && PagesKept()
      ensures size !in sizes || pgcount == 0 ==> r == EINVAL
      ensures Proper(g, sizes, iova, size, pgcount) && r == EINVAL ==> size > g.Block(g.H)
      ensures size in sizes && pgcount > 0 ==> (r == ERANGE <==> iova >= g.Limit() || paddr >= out)
      ensures Proper(g, sizes, iova, size, pgcount) && paddr < out && access ==>
        (r == EEXIST <==> Busy(g, old(T()), g.H, Height(g, size), iova, Count(g, iova, size, pgcount)))
      ensures r == Ok && access ==>
        && size > 0 && mapped == Batch(g, iova, size, pgcount) > 0 && AllFault(g, old(T()), iova, mapped)
        && Written(g, old(T()), T(), iova, mapped, size, paddr, prot)
        && (Mapped(g, old(T()), T(), iova, mapped, paddr, prot) <==> Encodable(g, paddr, size, mapped))
        && HasLeaves(g, T(), Height(g, size), iova, Count(g, iova, size, pgcount), paddr, prot)
      ensures r != Ok || !access ==> mapped == 0 && SameTrans(g, old(T()), T())
      ensures r == ENOMEM ==> pool == [] && |old(pool)| < g.H - if size <= g.Block(g.H) then Height(g, size) else 0
      ensures |pool| <= |old(pool)| && (r == Ok && access ==> |old(pool)| <= |pool| + g.H - Height(g, size))
      ensures Straight(g, old(T()), true) && size > 0 ==>
        (size == g.page || Encodable(g, paddr, size, Batch(g, iova, size, pgcount)) ==> Straight(g, T(), true))
      ensures r == Ok && access ==> Slot(g, Height(g, size), iova) in at
      ensures Grown(old(at), at) && (size > 0 ==> Ahead(g, old(T()), T(), iova + Batch(g, iova, size, pgcount)))
    {
      hide Geom.Index, Geom.Limit, MemOk, Geom.Ok, Trans, Geom.Aligned, Geom.Block, TabOf, Here, Geom.Span, SamePages,
           IsBlock, Bytes, Batch;
      hide Busy, Frame, PagesOk, Geom.Real, Written, Mapped, SameTrans, AllFault, Flat, Straight, Encodable, Count,
           Ahead, HasLeaves;
      PagesRefl(at, pool, queue);
      SameTransRefl(g, T());
      if size > 0 { AheadRefl(g, T(), iova + Batch(g, iova, size, pgcount)); }
      mapped := 0;
      if size !in sizes || pgcount == 0 { return EINVAL, 0; }
      if iova >= g.Limit() || paddr >= out { return ERANGE, 0; }
      if !access { return Ok, 0; }
      ghost var s := Height(g, size);
      RequestShape(g, iova, size, s, pgcount);
      RootHere(g, root, mem, at, pool, queue, iova);
      ghost var t0 := T();
      var ta, tp;
      r, mapped, ta, tp := MapAt(iova, paddr, size, s, pgcount, prot, g.H, root, NoPrev);
      if r == Ok {
        WrittenMapped(g, t0, T(), iova, s, Min(pgcount, g.n - g.Index(s, iova)), paddr, prot);
        HereIn(g, at, s, iova, ta);
      }
      FrameStraight(g, t0, T(), iova, s, Min(pgcount, g.n - g.Index(s, iova)), paddr);
    }

    /**
     * qcom_arm_lpae_unmap_pages. Where no bigger block covers the request, exactly what is asked for goes. A block that
     * does is split, and with more levels than there are pages, as far as they go.
     */
    method Unmap(iova: nat, size: nat, pgcount: nat) returns (unmapped: nat)
      requires Valid()
      requires Proper(g, sizes, iova, size, pgcount) ==>
        iova % size == 0 && iova + Bytes(size, pgcount) <= g.Limit() && AllThere(g, T(), iova, Bytes(size, pgcount))
      modifies this`mem, this`pool, this`queue, this`at
      ensures Valid() && PagesKept() && (Straight(g, old(T()), true) ==> Straight(g, T(), true))
      ensures !Proper(g, sizes, iova, size, pgcount) ==> unmapped == 0 && SameTrans(g, old(T()), T())
      ensures Proper(g, sizes, iova, size, pgcount) && size <= g.Block(g.H) ==>
        var s := Height(g, size);
        && (!Covered(g, old(T()), s, iova) ==>
              unmapped == Batch(g, iova, size, pgcount) > 0 && Unmapped(g, old(T()), T(), iova, unmapped))
        && (forall u :: s < u <= g.H && Entry(g, old(T()), u, iova).Leaf? ==>
              && unmapped == (if u <= s + |old(pool)| then Batch(g, iova, size, pgcount) else 0)
              && Parted(g, old(T()), T(), iova, s, Count(g, iova, size, pgcount), u, |old(pool)|))
      ensures Proper(g, sizes, iova, size, pgcount) && size > g.Block(g.H) ==>
        if g.H > 0 && Entry(g, old(T()), 1, iova).Table? then
          var k := Count(g, iova, g.page, pgcount);
          && unmapped == Bytes(size, k) && Unmapped(g, old(T()), T(), iova, Bytes(g.page, k))
          && !Unmapped(g, old(T()), T(), iova, unmapped)
        else
          && unmapped == 0 && (!Covered(g, old(T()), 0, iova) ==> SameTrans(g, old(T()), T()))
          && (forall u :: 0 < u <= g.H && Entry(g, old(T()), u, iova).Leaf? ==>
                Parted(g, old(T()), T(), iova, 0, 0, u, |old(pool)|))
      ensures Straight(g, old(T()), true) && size <= g.Block(g.H) ==> Unmapped(g, old(T()), T(), iova, unmapped)
      ensures forall l :: l in old(at) && l.h > 0 && size <= g.Block(l.h) ==> l in at
    {
      hide Geom.Index, Geom.Limit, MemOk, Geom.Ok, Trans, Geom.Aligned, Geom.Block, TabOf, Here, Geom.Span, SamePages,
           IsBlock, Entry, Bytes;
      hide Batch, Unmapped, AllThere, Answer, SameTrans, PagesOk, Geom.Real, Straight, Standing, Count, Covered, Parted;
      ghost var flat, p := Straight(g, T(), true), |pool|;
      PagesRefl(at, pool, queue);
      NoBlocks(g, 0, T(), iova);
      SameAsNone(g, T(), T(), iova);
      if size !in sizes || pgcount == 0 { return 0; }
      if iova >= g.Limit() { return 0; }
      ghost var s := Height(g, size);
      RequestShape(g, iova, size, s, pgcount);
      PageShape(g, iova, pgcount);
      RootHere(g, root, mem, at, pool, queue, iova);
      MemParts(g, root, mem, at, pool, queue);
      ghost var k;
      unmapped, k := UnmapAt(iova, size, s, pgcount, g.H, root, flat);
      AnswerParts(g, old(at), old(T()), T(), p, iova, s, pgcount, unmapped, k);
      if Unmapped(g, old(T()), T(), iova, 0) { SameAsNone(g, old(T()), T(), iova); }
      TablesStand(g, old(at), at, s, size);
    }
  }

  lemma LimitPositive(g: Geom)
    requires g.Ok()
    ensures g.Limit() > 0
  {
    MulPositive(g.top, g.Block(g.H));
  }

  /** Masking the index into the first table is taking the address modulo what the table covers. */
  lemma WrapsAround(g: Geom, h: nat, x: nat)
    requires g.Ok() && h <= g.H && g.Limit() > 0
    ensures var y := x % g.Limit();
      g.Off(h, y) == g.Off(h, x) && g.Index(h, y) == if h == g.H then g.Cell(h, x) % g.top else g.Index(h, x)
  {
    var y, q, B := x % g.Limit(), x / g.Limit(), g.Block(h);
    DivTimes(x, g.Limit());
    Regroup(q, g.top, g.Block(g.H));
    var d := q * g.top * g.Block(g.H);
    DivUnique(d, g.Block(g.H), q * g.top);
    BlockDivides(g, h, g.H, d);
    DivTimes(d, B);
    SameLow(y, d / B, B);
    if h < g.H {
      BlockDivides(g, h + 1, g.H, d);
      DivTimes(d, g.Block(h + 1));
      Regroup(d / g.Block(h + 1), g.n, B);
      SameDigit(y, d / g.Block(h + 1), g.n, B);
    } else {
      UnderLimit(g, y);
      DivTimes(y, B);
      Distribute(y / B, q * g.top, B);
      DivUnique(y + d, B, y / B + q * g.top);
      DivUnique(y / B + q * g.top, g.top, q);
    }
  }

  /** Tables stay where they are. */
  ghost predicate Grown(at: Where, at': Where) { forall l :: l in at ==> l in at' && at'[l] == at[l] }

  ghost predicate IsBlock(g: Geom, size: nat) requires g.Ok() { exists h :: size == g.Block(h) }

  ghost function Height(g: Geom, size: nat): (h: nat)
    requires g.Ok() && IsBlock(g, size)
    ensures size == g.Block(h)
  {
    var h :| size == g.Block(h); h
  }

  /** Arguments that pass the checks of map and unmap. */
  predicate Proper(g: Geom, sizes: set<nat>, iova: nat, size: nat, pgcount: nat) requires g.Ok() {
    size in sizes && pgcount > 0 && iova < g.Limit() && size > 0
  }

  function Bytes(size: nat, k: nat): nat { k * size }

  /** The blocks one call handles: as many as asked for, up to the end of a table. */
  function Count(g: Geom, iova: nat, size: nat, pgcount: nat): nat
    requires g.Ok() && size > 0
  {
    Min(pgcount, g.n - iova / size % g.n)
  }

  function Batch(g: Geom, iova: nat, size: nat, pgcount: nat): nat
    requires g.Ok() && size > 0
  {
    Bytes(size, Count(g, iova, size, pgcount))
  }

  lemma Fresh(g: Geom, root: nat, pool: seq<nat>)
    requires g.Ok() && Distinct(pool) && root !in pool
    ensures MemOk(g, root, map[root := Zeros(g.top)], map[Label(g.H, 0) := root], pool, [])
    ensures forall b :: Straight(g, TabOf(map[root := Zeros(g.top)], map[Label(g.H, 0) := root]), b)
    ensures forall x: nat :: Trans(g, TabOf(map[root := Zeros(g.top)], map[Label(g.H, 0) := root]), x) == Fault
  {
    assert pool + [] == pool;
  }

  /** A request in bytes is one in blocks. */
  lemma RequestShape(g: Geom, iova: nat, size: nat, s: nat, pgcount: nat)
    requires g.Ok() && size == g.Block(s)
    ensures size > 0 && g.Span(s, pgcount) == Bytes(size, pgcount) && (g.Aligned(s, iova) <==> iova % size == 0)
    ensures Batch(g, iova, size, pgcount) == g.Span(s, Min(pgcount, g.n - g.Index(s, iova)))
    ensures Count(g, iova, size, pgcount) == Min(pgcount, g.n - g.Index(s, iova))
    ensures forall k: nat :: Bytes(size, k) == g.Span(s, k)
    ensures size <= g.Block(g.H) <==> s <= g.H
    ensures pgcount > 0 ==> g.Span(s, Min(pgcount, g.n - g.Index(s, iova))) > 0
  {
    if s < g.H { BlockGrows(g, s, g.H); }
    if g.H < s { BlockGrows(g, g.H, s); }
    if pgcount > 0 { MulPositive(Min(pgcount, g.n - g.Index(s, iova)), size); }
  }

  lemma PageShape(g: Geom, iova: nat, pgcount: nat)
    requires g.Ok()
    ensures Count(g, iova, g.page, pgcount) == Min(pgcount, g.n - g.Index(0, iova))
    ensures forall k: nat :: Bytes(g.page, k) == g.Span(0, k)
  {
  }

  lemma SameAsNone(g: Geom, t: Tab, t': Tab, x: nat)
    requires g.Ok() && Unmapped(g, t, t', x, 0)
    ensures SameTrans(g, t, t')
  {
  }

  lemma HereIn(g: Geom, at: Where, h: nat, x: nat, a: nat)
    requires g.Ok() && Here(g, at, h, x, a)
    ensures Slot(g, h, x) in at
  {
  }

  lemma FrameHolds(g: Geom, t: Tab, t': Tab, end: nat, flat: bool)
    requires g.Ok() && Frame(g, t, t', end, flat) && Straight(g, t, false)
    ensures Straight(g, t', false)
  {
  }

  lemma FrameStraight(g: Geom, t: Tab, t': Tab, x: nat, s: nat, k: nat, pa: nat)
    requires g.Ok() && Frame(g, t, t', x + g.Span(s, k), Flat(g, s, k, pa))
    ensures Straight(g, t, true) && (g.Block(s) == g.page || Encodable(g, pa, g.Block(s), g.Span(s, k))) ==>
      Straight(g, t', true)
    ensures Ahead(g, t, t', x + g.Span(s, k))
  {
    hide Ahead, Straight, Geom.Span, Encodable;
    if s > 0 { BlockGrows(g, 0, s); }
  }

  /** Tables at height s and above, but for last-level ones, stay where they are. */
  ghost predicate Standing(at: Where, at': Where, s: nat) {
    forall l :: l in at && l.h > 0 && l.h >= s ==> l in at' && at'[l] == at[l]
  }

  lemma StandingRefl(at: Where, t: Tab, s: nat)
    ensures Standing(at, at, s) && LeavesFrom(t, t)
  {
  }

  lemma GrownStands(at: Where, at': Where, s: nat)
    requires Grown(at, at')
    ensures Standing(at, at', s)
  {
  }

  lemma StandsAfter(at0: Where, at1: Where, at2: Where, s: nat)
    requires Grown(at0, at1) && Standing(at1, at2, s)
    ensures Standing(at0, at2, s)
  {
  }

  lemma StandsLess(at: Where, at': Where, s: nat)
    requires Standing(at, at', 1)
    ensures Standing(at, at', s)
  {
  }

  lemma TablesStand(g: Geom, at: Where, at': Where, s: nat, size: nat)
    requires g.Ok() && size == g.Block(s) && Standing(at, at', s)
    ensures forall l :: l in at && l.h > 0 && size <= g.Block(l.h) ==> l in at'
  {
    forall l | l in at && l.h > 0 && size <= g.Block(l.h) ensures l in at' {
      if l.h < s { BlockGrows(g, l.h, s); }
    }
  }

  /** Cutting off what is under an entry leaves the tables above standing. */
  lemma CutStands(g: Geom, root: nat, mem: Mem, at: Where, mem': Mem, at': Where, pool: seq<nat>, queue: seq<nat>,
      queue': seq<nat>, h: nat, x: nat, t0: Tab, at0: Where, s: nat)
    requires g.Ok() && Cut(g, TabOf(mem, at), TabOf(mem', at'), Slot(g, h, x), g.Index(h, x)) && (h <= s || h == 1)
    requires MemOk(g, root, mem, at, pool, queue) && MemOk(g, root, mem', at', pool, queue')
    requires (forall m :: m in at' ==> m in at && at'[m] == at[m]) && LeavesFrom(t0, TabOf(mem, at)) &&
      Standing(at0, at, s)
    ensures LeavesFrom(t0, TabOf(mem', at')) && Standing(at0, at', s)
  {
    TabKeys(mem, at);
    TabKeys(mem', at');
    CutLeaves(g, TabOf(mem, at), TabOf(mem', at'), Slot(g, h, x), g.Index(h, x));
    LeavesTwice(t0, TabOf(mem, at), TabOf(mem', at'));
    hide MemOk, TabOf, LeavesFrom, Beneath, Geom.Index;
    forall l | l in at0 && l.h > 0 && l.h >= s ensures l in at' && at'[l] == at0[l] {
      NotBeneath(g, Slot(g, h, x), g.Index(h, x), l);
    }
  }

  lemma ClearedLeaves(g: Geom, root: nat, mem: Mem, at: Where, pool: seq<nat>, queue: seq<nat>, x: nat, a: nat, c: nat,
      i: nat, k: nat, mem': Mem)
    requires MemOk(g, root, mem, at, pool, queue) && a in mem && c in mem && a != c && i + k <= |mem[c]| && a in mem'
    requires mem' == mem[c := Cleared(mem[c], i, k)][a := mem'[a]] && |mem'[a]| == |mem[a]|
    requires forall j :: 0 <= j < |mem[a]| ==> mem'[a][j] == mem[a][j] || mem'[a][j].Table?
    ensures LeavesFrom(TabOf(mem, at), TabOf(mem', at))
  {
    TabKeys(mem, at);
    hide MemOk;
  }

  lemma SplitAligned(g: Geom, root: nat, mem: Mem, at: Where, pool: seq<nat>, queue: seq<nat>, h: nat, x: nat, a: nat,
      k: nat, mem': Mem, flat: bool)
    requires g.Real() && Here(g, at, h, x, a) && h > 0 && pool != []
    requires SplitLinked(g, mem, mem', h, x, a, pool[0], k)
    requires MemOk(g, root, mem, at, pool, queue) && Straight(g, TabOf(mem, at), flat)
    ensures Straight(g, TabOf(mem', at[Slot(g, h - 1, x) := pool[0]]), flat)
  {
    TabKeys(mem, at);
    hide MemOk, Shape, TabOf, Installed, Linked, Straight, Pieces, Geom.Block, Geom.Real, Geom.Aligned, Geom.Index;
    var e := mem[a][g.Index(h, x)];
    var s := Pieces(g, e.pa, e.prot, g.Block(h - 1), g.Index(h - 1, x), k);
    MemParts(g, root, mem, at, pool, queue);
    LinkedTab(g, root, mem, at, pool, queue, h, x, a, mem', s, (g.n - k) % COUNTS);
    SplitStraight(g, at, TabOf(mem, at), TabOf(mem', at[Slot(g, h - 1, x) := pool[0]]), h, Table(pool[0],
        (g.n - k) % COUNTS), x, k, flat);
  }

  lemma LessSpan(g: Geom, s: nat, k: nat, pgcount: nat)
    requires g.Ok() && 0 < k <= pgcount && g.Block(0) < g.Block(s)
    ensures g.Span(0, k) < g.Span(s, k) <= g.Span(s, pgcount)
  {
    MulMonotone(k, pgcount, g.Block(s));
    MulMonotone(g.Block(0) + 1, g.Block(s), k);
    assert (g.Block(0) + 1) * k == g.Block(0) * k + k;
    assert g.Block(0) * k == k * g.Block(0) && g.Block(s) * k == k * g.Block(s);
  }

  /** An unmap request for pgcount blocks of height s, all of it translated. */
  ghost predicate Request(g: Geom, t: Tab, iova: nat, size: nat, s: nat, pgcount: nat) {
    && g.Ok() && size == g.Block(s) && g.Aligned(s, iova) && pgcount > 0
    && iova < g.Limit() && iova + g.Span(s, pgcount) <= g.Limit() && AllThere(g, t, iova, g.Span(s, pgcount))
  }

  /** How far down a block at height u is split for blocks of height s, with p pages for tables. */
  function Lowest(s: nat, u: nat, p: nat): nat { if u <= s + p then s else u - p }

  /**
   * What unmap makes of it. With blocks the table knows, what is returned is gone, as far as one table goes. A bigger
   * block that covers it is split, and if there are pages for all levels, the part asked for is left out. With blocks
   * the table does not know only single pages go, if any.
   */
  ghost predicate Answer(g: Geom, t: Tab, t': Tab, p: nat, iova: nat, s: nat, pgcount: nat, h: nat, unmapped: nat,
      k: nat) {
    && g.Ok() && unmapped == g.Span(s, k)
    && (s <= g.H ==>
          && (k == 0 || k == Min(pgcount, g.n - g.Index(s, iova)))
          && (!Covered(g, t, s, iova) ==> k > 0 && Unmapped(g, t, t', iova, unmapped))
          && (forall u :: s < u <= g.H && Entry(g, t, u, iova).Leaf? ==>
                (k > 0 <==> u <= s + p) && Torn(g, t, t', iova, unmapped, u, Lowest(s, u, p))))
    && (s > g.H ==>
          && (k > 0 <==> h > 0 && Entry(g, t, 1, iova).Table?)
          && (k > 0 ==> Unmapped(g, t, t', iova, g.Span(0, k)) && k == Min(pgcount, g.n - g.Index(0, iova)))
          && (k == 0 && !Covered(g, t, 0, iova) ==> Unmapped(g, t, t', iova, 0))
          && (k == 0 ==> forall u :: 0 < u <= g.H && Entry(g, t, u, iova).Leaf? ==>
                Torn(g, t, t', iova, 0, u, Lowest(0, u, p))))
  }

  /** A block bigger than one of height s covers x. */
  ghost predicate Covered(g: Geom, t: Tab, s: nat, x: nat) requires g.Ok() {
    exists u :: s < u <= g.H && Entry(g, t, u, x).Leaf?
  }

  /** A block at height u is all that x meets, below tables. */
  ghost predicate OnlyLeaf(g: Geom, t: Tab, h: nat, x: nat) requires g.Ok() {
    && h <= g.H && Entry(g, t, h, x).Leaf? && (forall u :: 0 <= u < h ==> Entry(g, t, u, x) == Empty)
    && forall u :: h < u <= g.H ==> Entry(g, t, u, x).Table?
  }

  lemma OneLeaf(g: Geom, at: Where, t: Tab, h: nat, x: nat)
    requires Shape(g, at, t) && h <= g.H && Entry(g, t, h, x).Leaf?
    ensures OnlyLeaf(g, t, h, x)
  {
    assert g.Ok();
    forall u | 0 <= u < h ensures Entry(g, t, u, x) == Empty {
      NotThere(g, at, t, Slot(g, h, x), g.Index(h, x));
      KidSlot(g, h, x);
      NoneBelow(g, at, t, h - 1, x, u);
    }
    hide Shape, Entry;
    forall u | h < u <= g.H ensures Entry(g, t, u, x).Table? { LeafThere(g, t, h, x); TablesAbove(g, at, t, h, x, u); }
  }

  lemma LeafThere(g: Geom, t: Tab, h: nat, x: nat)
    requires g.Ok() && !Entry(g, t, h, x).Empty?
    ensures Slot(g, h, x) in t
  {
  }

  lemma NotCovered(g: Geom, at: Where, t: Tab, h: nat, x: nat)
    requires Shape(g, at, t) && h <= g.H && Slot(g, h, x) in t
    ensures !Covered(g, t, h, x)
  {
    assert g.Ok();
    hide Shape, Entry;
    forall u | h < u <= g.H ensures !Entry(g, t, u, x).Leaf? { TablesAbove(g, at, t, h, x, u); }
  }

  lemma KidThere(g: Geom, at: Where, t: Tab, x: nat)
    requires Shape(g, at, t) && g.H > 0 && Entry(g, t, 1, x).Table?
    ensures Slot(g, 0, x) in t
  {
    assert CellOk(g, at, t, Slot(g, 1, x), g.Index(1, x));
    KidSlot(g, 1, x);
  }

  /** The entry for x after the block e at height h has been split. */
  function Piece(g: Geom, h: nat, e: Pte, x: nat): Pte requires g.Ok() && h > 0 && e.Leaf? {
    Leaf(Stored(g.page, PieceAt(g, h, e.pa, g.Index(h - 1, x))), e.prot)
  }

  lemma PieceIs(g: Geom, h: nat, e: Pte, x: nat)
    requires g.Ok() && h > 0 && e.Leaf?
    ensures Piece(g, h, e, x) == Leaf(Stored(g.page, e.pa + g.Index(h - 1, x) * g.Block(h - 1)), e.prot)
  {
  }

  lemma PieceLeaf(g: Geom, h: nat, e: Pte, x: nat)
    requires g.Ok() && h > 0 && e.Leaf?
    ensures Piece(g, h, e, x).Leaf?
  {
  }

  lemma NoneUnmapped(g: Geom, at: Where, t: Tab, p: nat, iova: nat, s: nat, pgcount: nat, h: nat)
    requires g.Ok() && Shape(g, at, t) && OnlyLeaf(g, t, h, iova) && (h == 0 || p == 0) && (s < h || s > g.H)
    ensures Answer(g, t, t, p, iova, s, pgcount, h, 0, 0)
  {
    hide Trans, Entry, Shape, Torn, Unmapped;
    NoSpan(g, s);
    NoBlocks(g, s, t, iova);
    TornNone(g, at, t, t, iova, 0, h);
    assert s <= g.H ==> Covered(g, t, s, iova);
  }

  lemma SplitUnmapped(g: Geom, t: Tab, t': Tab, p: nat, iova: nat, s: nat, pgcount: nat, h: nat, k: nat)
    requires g.Ok() && h == s + 1 && p > 0 && OnlyLeaf(g, t, h, iova)
    requires k > 0 && k == Min(pgcount, g.n - g.Index(s, iova)) && Torn(g, t, t', iova, g.Span(s, k), h, s)
    ensures Answer(g, t, t', p, iova, s, pgcount, h, g.Span(s, k), k)
  {
    hide Trans, Entry, Torn;
    assert Covered(g, t, s, iova);
  }

  lemma SomeUnmapped(g: Geom, t: Tab, t': Tab, p: nat, iova: nat, s: nat, pgcount: nat, h: nat, k: nat)
    requires g.Ok() && s <= g.H && k > 0 && k == Min(pgcount, g.n - g.Index(s, iova)) && !Covered(g, t, s, iova)
    requires Unmapped(g, t, t', iova, g.Span(s, k))
    ensures Answer(g, t, t', p, iova, s, pgcount, h, g.Span(s, k), k)
  {
    hide Trans, Entry, Torn;
  }

  lemma PagesUnmapped(g: Geom, t: Tab, t': Tab, p: nat, iova: nat, size: nat, s: nat, pgcount: nat, k: nat)
    requires g.Ok() && size == g.Block(s) && (s == 0 || s > g.H) && k > 0 && k == Min(pgcount, g.n - g.Index(0, iova))
    requires Unmapped(g, t, t', iova, g.Span(0, k)) && Entry(g, t, 1, iova).Table? && !Covered(g, t, 0, iova)
    ensures Answer(g, t, t', p, iova, s, pgcount, 1, size * k, k)
  {
    hide Trans, Entry, Geom.Block, Torn;
    assert size * k == g.Span(s, k);
  }

  lemma SameAnswer(g: Geom, t: Tab, t': Tab, p: nat, iova: nat, s: nat, pgcount: nat, h: nat, unmapped: nat, k: nat)
    requires h > 1 && Answer(g, t, t', p, iova, s, pgcount, h - 1, unmapped, k)
    ensures Answer(g, t, t', p, iova, s, pgcount, h, unmapped, k)
  {
    hide Trans, Entry, Torn, Unmapped, Covered;
  }

  lemma AfterSplit(g: Geom, t0: Tab, t1: Tab, t2: Tab, p: nat, iova: nat, s: nat, pgcount: nat, h: nat, unmapped: nat,
      k: nat)
    requires g.Ok() && h > 0 && (s < h - 1 || s > g.H) && p > 0 && OnlyLeaf(g, t0, h, iova) &&
      OnlyLeaf(g, t1, h - 1, iova)
    requires Entry(g, t1, h - 1, iova) == Piece(g, h, Entry(g, t0, h, iova), iova)
    requires Torn(g, t0, t1, iova, 0, h, h - 1)
    requires Answer(g, t1, t2, p - 1, iova, s, pgcount, h - 1, unmapped, k)
    ensures Answer(g, t0, t2, p, iova, s, pgcount, h, unmapped, k)
  {
    hide Trans, Entry, Torn, Unmapped, Stored, PieceAt;
    var low := if s <= g.H then s else 0;
    assert low < h && Covered(g, t0, low, iova) && (low < h - 1 ==> Covered(g, t1, low, iova));
    if low < h - 1 {
      TornTwice(g, t0, t1, t2, iova, if s <= g.H then unmapped else 0, h, Lowest(low, h - 1, p - 1));
    } else {
      TornSame(g, t0, t1, t2, iova, h, h - 1);
    }
  }

  lemma TornSame(g: Geom, t0: Tab, t1: Tab, t2: Tab, x: nat, h: nat, m: nat)
    requires g.Ok() && Entry(g, t0, h, x).Leaf? && Torn(g, t0, t1, x, 0, h, m) && Unmapped(g, t1, t2, x, 0)
    ensures Torn(g, t0, t2, x, 0, h, m)
  {
    hide Trans, Entry, Tracked, Geom.Cell;
  }

  /** After a block was split whole, the request stands as before. */
  lemma SplitWhole(g: Geom, at: Where, t0: Tab, t1: Tab, x: nat, h: nat, size: nat, s: nat, pgcount: nat)
    requires Shape(g, at, t0) && h <= g.H && Entry(g, t0, h, x).Leaf? && h > 0 && Torn(g, t0, t1, x, 0, h, h - 1)
    requires Request(g, t0, x, size, s, pgcount)
    ensures Request(g, t1, x, size, s, pgcount)
  {
    hide Trans, Entry, Torn, Shape, AllThere;
    TornThere(g, at, t0, t1, x, h, h - 1, x, g.Span(s, pgcount));
  }

  /**
   * The block at height u that covers x was split as far as there were pages, less what was asked for if that went all
   * the way; and nothing else changed if and only if its address has no bits in the way.
   */
  ghost predicate Parted(g: Geom, t: Tab, t': Tab, x: nat, s: nat, k: nat, u: nat, p: nat)
    requires g.Ok() && Entry(g, t, u, x).Leaf?
  {
    var m, j := Lowest(s, u, p), if u <= s + p then k else 0;
    && Torn(g, t, t', x, g.Span(m, j), u, m)
    && (Unmapped(g, t, t', x, g.Span(m, j)) <==> Undisturbed(g, u, m, Entry(g, t, u, x).pa, g.Index(m, x), j))
  }

  lemma PartedOk(g: Geom, at: Where, t: Tab, t': Tab, x: nat, s: nat, k: nat, u: nat, p: nat, unmapped: nat)
    requires g.Real() && Shape(g, at, t) && Straight(g, t, false) && s < u <= g.H && Entry(g, t, u, x).Leaf?
    requires (k > 0 ==> g.Aligned(s, x)) && g.Index(s, x) + k <= g.n &&
      unmapped == g.Span(s, if u <= s + p then k else 0)
    requires Torn(g, t, t', x, unmapped, u, Lowest(s, u, p))
    ensures Parted(g, t, t', x, s, k, u, p)
    ensures Straight(g, t, true) ==> Unmapped(g, t, t', x, unmapped)
  {
    hide Trans, Entry, Torn, Shape, Unmapped, Undisturbed, Geom.Aligned, Geom.Index, Geom.Span, Geom.Real, Straight;
    assert g.Ok() by { RealOk(g); }
    var m, j := Lowest(s, u, p), if u <= s + p then k else 0;
    NoSpan(g, m);
    NoSpan(g, s);
    LeafHolds(g, t, u, x, false);
    TornIff(g, at, t, t', x, j, u, m);
    if Straight(g, t, true) {
      LeafHolds(g, t, u, x, true);
      AlignedUndisturbed(g, u, m, Entry(g, t, u, x).pa, g.Index(m, x), j);
    }
  }

  lemma LeafHolds(g: Geom, t: Tab, h: nat, x: nat, flat: bool)
    requires g.Ok() && Straight(g, t, flat) && Entry(g, t, h, x).Leaf?
    ensures Stored(g.page, Entry(g, t, h, x).pa) == Entry(g, t, h, x).pa
    ensures flat && h > 0 ==> Entry(g, t, h, x).pa % g.Block(h) == 0
  {
    hide Stored, Geom.Block;
    assert StraightPte(g, h, Entry(g, t, h, x), flat);
  }

  /** When unmap reports blocks bigger than any of the table's, it reports more than it unmapped. */
  lemma Overstated(g: Geom, t: Tab, t': Tab, iova: nat, s: nat, pgcount: nat, k: nat)
    requires g.Ok() && s > g.H && 0 < k <= pgcount && Unmapped(g, t, t', iova, g.Span(0, k))
    requires AllThere(g, t, iova, g.Span(s, pgcount))
    ensures !Unmapped(g, t, t', iova, g.Span(s, k))
  {
    hide Trans;
    BlockGrows(g, 0, s);
    var y := iova + g.Span(0, k);
    LessSpan(g, s, k, pgcount);
    assert Trans(g, t', y) == Trans(g, t, y) != Fault;
  }

  /** What unmap returned against what it unmapped. */
  lemma AnswerParts(g: Geom, at: Where, t: Tab, t': Tab, p: nat, iova: nat, s: nat, pgcount: nat, unmapped: nat, k: nat)
    requires g.Real() && Shape(g, at, t) && Straight(g, t, false)
    requires Answer(g, t, t', p, iova, s, pgcount, g.H, unmapped, k) && pgcount > 0 && g.Aligned(s, iova)
    requires AllThere(g, t, iova, g.Span(s, pgcount))
    ensures s <= g.H ==>
      var num := Min(pgcount, g.n - g.Index(s, iova));
      && (!Covered(g, t, s, iova) ==> unmapped == g.Span(s, num) && Unmapped(g, t, t', iova, unmapped))
      && (forall u :: s < u <= g.H && Entry(g, t, u, iova).Leaf? ==>
            unmapped == (if u <= s + p then g.Span(s, num) else 0) && Parted(g, t, t', iova, s, num, u, p))
    ensures s <= g.H && Straight(g, t, true) ==> Unmapped(g, t, t', iova, unmapped)
    ensures s > g.H ==>
      if g.H > 0 && Entry(g, t, 1, iova).Table? then
        && k == Min(pgcount, g.n - g.Index(0, iova)) && unmapped == g.Span(s, k)
        && Unmapped(g, t, t', iova, g.Span(0, k)) && !Unmapped(g, t, t', iova, unmapped)
      else
        && unmapped == 0 && (!Covered(g, t, 0, iova) ==> Unmapped(g, t, t', iova, 0))
        && (forall u :: 0 < u <= g.H && Entry(g, t, u, iova).Leaf? ==> Parted(g, t, t', iova, 0, 0, u, p))
  {
    hide Trans, Entry, Torn, Shape, Unmapped, Parted, Geom.Aligned, Geom.Index, Geom.Span, Geom.Real, Straight,
         AllThere;
    assert g.Ok() by { RealOk(g); }
    NoSpan(g, s);
    NoSpan(g, 0);
    if s <= g.H {
      forall u | s < u <= g.H && Entry(g, t, u, iova).Leaf?
        ensures unmapped == (if u <= s + p then g.Span(s, Min(pgcount, g.n - g.Index(s, iova))) else 0)
        ensures Parted(g, t, t', iova, s, Min(pgcount, g.n - g.Index(s, iova)), u, p)
        ensures Straight(g, t, true) ==> Unmapped(g, t, t', iova, unmapped)
      {
        PartedOk(g, at, t, t', iova, s, Min(pgcount, g.n - g.Index(s, iova)), u, p, unmapped);
      }
    } else if k == 0 {
      forall u | 0 < u <= g.H && Entry(g, t, u, iova).Leaf? ensures Parted(g, t, t', iova, 0, 0, u, p) {
        PartedOk(g, at, t, t', iova, 0, 0, u, p, 0);
      }
    } else {
      Overstated(g, t, t', iova, s, pgcount, k);
    }
  }

  lemma RequestParts(g: Geom, t: Tab, iova: nat, size: nat, s: nat, pgcount: nat, h: nat)
    requires Request(g, t, iova, size, s, pgcount)
    ensures iova < g.Limit() && pgcount > 0 && Trans(g, t, iova) != Fault && (size == g.Block(h) <==> s == h)
    ensures s == h <= g.H ==>
      && g.Aligned(h, iova) && g.Index(h, iova) + Min(pgcount, g.n - g.Index(h, iova)) <= g.Size(h)
      && AllThere(g, t, iova, g.Span(h, Min(pgcount, g.n - g.Index(h, iova))))
  {
    FirstThere(g, t, iova, s, pgcount);
    SameHeight(g, s, h);
    if s == h <= g.H {
      LeavesFit(g, h, iova, pgcount);
      FewerThere(g, t, iova, s, Min(pgcount, g.n - g.Index(h, iova)), pgcount);
    }
  }

  lemma RequestAligned(g: Geom, t: Tab, iova: nat, size: nat, s: nat, pgcount: nat, h: nat)
    requires Request(g, t, iova, size, s, pgcount)
    ensures size == g.Block(h) <==> s == h
    ensures s == h ==> g.Aligned(h, iova) && pgcount > 0
  {
    SameHeight(g, s, h);
  }

  lemma RequestPages(g: Geom, t: Tab, iova: nat, size: nat, s: nat, pgcount: nat, k: nat)
    requires Request(g, t, iova, size, s, pgcount) && k == Min(pgcount, g.n - g.Index(0, iova))
    ensures g.Aligned(0, iova) && AllThere(g, t, iova, g.Span(0, k)) && k > 0 && size == g.Block(s)
  {
    SmallBlock(g, s, 0, iova);
    FewerThere(g, t, iova, s, k, pgcount);
    LowThere(g, t, iova, s, k);
  }

  lemma NewKid(g: Geom, root: nat, mem: Mem, at: Where, pool: seq<nat>, queue: seq<nat>, h: nat, x: nat, a: nat)
    requires g.Ok() && h > 0 && Here(g, at, h, x, a) && a in mem && g.Index(h, x) < |mem[a]|
    requires !mem[a][g.Index(h, x)].Table?
    requires MemOk(g, root, mem, at, pool, queue)
    ensures Slot(g, h - 1, x) !in at
  {
    TabKeys(mem, at);
    NotThere(g, at, TabOf(mem, at), Slot(g, h, x), g.Index(h, x));
    KidSlot(g, h, x);
  }

  lemma PagesRefl(at: Where, pool: seq<nat>, queue: seq<nat>)
    ensures SamePages(at, pool, queue, at, pool, queue)
  {
  }

  lemma PieceStep(step: nat, i: nat)
    ensures Bytes(step, 0) == 0 && Bytes(step, i) == i * step && Bytes(step, i + 1) == Bytes(step, i) + step
  {
    Distribute(i, 1, step);
  }

  /** How many of the first i pieces are left out. */
  function Left(i: nat, u: int, k: nat): nat {
    if k == 0 || i <= u then 0 else if i <= u + k then (if u < 0 then 0 else i - u) else k
  }

  lemma PoolApart(g: Geom, root: nat, mem: Mem, at: Where, pool: seq<nat>, queue: seq<nat>, h: nat, x: nat, a: nat)
    requires g.Ok() && Here(g, at, h, x, a) && pool != [] && MemOk(g, root, mem, at, pool, queue)
    ensures pool[0] != a
  {
    PoolHead(at, pool, queue);
  }

  lemma FamilyParts(g: Geom, mem: Mem, at: Where, l: Label)
    requires Family(g, mem, at, l)
    ensures g.Ok() && Placed(mem, at) && l in at && at[l] in mem && |mem[at[l]]| == g.n
  {
    UnderSelf(g, l);
  }

  lemma FamilyEntry(g: Geom, mem: Mem, at: Where, l: Label, j: nat)
    requires Family(g, mem, at, l) && j < g.n
    ensures FamilyCell(g, mem, at, l, j)
  {
    UnderSelf(g, l);
  }

  /** With its entry cleared, a table and those under it still hang together, and nothing else is under the entry. */
  lemma Orphan(g: Geom, root: nat, mem: Mem, at: Where, pool: seq<nat>, queue: seq<nat>, h: nat, x: nat, a: nat,
      mem': Mem)
    requires g.Ok() && Here(g, at, h, x, a) && h > 0 && a in mem && g.Index(h, x) < |mem[a]|
    requires mem[a][g.Index(h, x)].Table?
    requires mem' == mem[a := mem[a][g.Index(h, x) := Empty]] && MemOk(g, root, mem, at, pool, queue)
    ensures var k := Kid(g, Slot(g, h, x), g.Index(h, x));
      && Family(g, mem', at, k) && k.h == h - 1 && at[k] == mem[a][g.Index(h, x)].addr
      && Without(g, at, k) == Kept(g, at, Slot(g, h, x), g.Index(h, x))
  {
    var l, i := Slot(g, h, x), g.Index(h, x);
    var k := Kid(g, l, i);
    TabKeys(mem, at);
    MemParts(g, root, mem, at, pool, queue);
    assert CellOk(g, at, TabOf(mem, at), l, i);
    KidHeight(g, l, i);
    hide Geom.Index, Geom.Ok, TabOf, Kid, Under, MemOk, Parent, Place, Shape, CellOk;
    forall m | m in at && Under(g, m, k)
      ensures |mem'[at[m]]| == g.n && at[m] != a && (m.h < k.h ==> Parent(g, m) in at) {
      OrphanTable(g, at, TabOf(mem, at), l, k, m);
    }
    forall m, j | m in at && Under(g, m, k) && 0 <= j < g.n ensures FamilyCell(g, mem', at, m, j) {
      OrphanTable(g, at, TabOf(mem, at), l, k, m);
      OrphanCell(g, mem, at, mem', a, g.Index(h, x), m, j);
    }
  }

  lemma OrphanTable(g: Geom, at: Where, t: Tab, l: Label, k: Label, m: Label)
    requires Shape(g, at, t) && m in t && Under(g, m, k) && k.h < l.h <= g.H
    ensures m.h < l.h && |t[m]| == g.n && (m.h < g.H ==> Parent(g, m) in t)
  {
    assert LabelOk(g, t, m);
  }

  lemma OrphanCell(g: Geom, mem: Mem, at: Where, mem': Mem, a: nat, i: nat, m: Label, j: nat)
    requires Placed(mem, at) && Shape(g, at, TabOf(mem, at)) && m in at && j < |mem[at[m]]| && at[m] != a && a in mem
    requires i < |mem[a]|
    requires mem' == mem[a := mem[a][i := Empty]]
    ensures FamilyCell(g, mem', at, m, j)
  {
    TabKeys(mem, at);
    assert CellOk(g, at, TabOf(mem, at), m, j);
  }

  /** Under an entry without a table there is nothing. */
  lemma Leafy(g: Geom, root: nat, mem: Mem, at: Where, pool: seq<nat>, queue: seq<nat>, h: nat, x: nat, a: nat)
    requires g.Ok() && Here(g, at, h, x, a) && a in mem && g.Index(h, x) < |mem[a]| &&
      (h == 0 || !mem[a][g.Index(h, x)].Table?)
    requires MemOk(g, root, mem, at, pool, queue)
    ensures Kept(g, at, Slot(g, h, x), g.Index(h, x)) == at
  {
    var l, i := Slot(g, h, x), g.Index(h, x);
    TabKeys(mem, at);
    if h > 0 {
      NotThere(g, at, TabOf(mem, at), l, i);
      KidHeight(g, l, i);
      hide Geom.Index, Geom.Ok, Kid, Under, Parent, Place;
      forall m | m in at ensures !Under(g, m, Kid(g, l, i)) {
        if Under(g, m, Kid(g, l, i)) { Ancestors(g, at, TabOf(mem, at), Kid(g, l, i), m); }
      }
    }
  }

  lemma Ancestors(g: Geom, at: Where, t: Tab, k: Label, m: Label)
    requires Shape(g, at, t) && m in t && Under(g, m, k) && k.h < g.H
    ensures k in t
  {
    hide Under, Parent, Place;
    forall n | n in at && Under(g, n, k) && n.h < k.h ensures Parent(g, n) in at { assert LabelOk(g, t, n); }
    AncestorThere(g, at, m, k);
  }

  lemma KeptPart(g: Geom, at: Where, l: Label, i: nat)
    ensures forall m :: m in Kept(g, at, l, i) ==> m in at && Kept(g, at, l, i)[m] == at[m]
  {
  }

  /** Translated pages have leaves in the last table. */
  lemma PagesThere(g: Geom, root: nat, mem: Mem, at: Where, pool: seq<nat>, queue: seq<nat>, x: nat, c: nat, k: nat)
    requires g.Ok() && Here(g, at, 0, x, c) && g.Aligned(0, x) && g.Index(0, x) + k <= g.n
    requires AllThere(g, TabOf(mem, at), x, g.Span(0, k))
    requires MemOk(g, root, mem, at, pool, queue) && k > 0
    ensures c in mem && AllLeaf(mem[c], g.Index(0, x), k)
  {
    hide Geom.Index, MemOk, Geom.Ok, Trans, TabOf, Here, Geom.Aligned, Geom.Span, Geom.Block;
    PageThere(g, root, mem, at, pool, queue, x, c, k, k - 1);
    var i := g.Index(0, x);
    forall j | i <= j < i + k ensures mem[c][j].Leaf? { PageThere(g, root, mem, at, pool, queue, x, c, k, j - i); }
  }

  lemma PageThere(g: Geom, root: nat, mem: Mem, at: Where, pool: seq<nat>, queue: seq<nat>, x: nat, c: nat, k: nat,
      j: nat)
    requires g.Ok() && Here(g, at, 0, x, c) && g.Aligned(0, x) && g.Index(0, x) + k <= g.n
    requires AllThere(g, TabOf(mem, at), x, g.Span(0, k))
    requires MemOk(g, root, mem, at, pool, queue) && j < k
    ensures c in mem && g.Index(0, x) + j < |mem[c]| && mem[c][g.Index(0, x) + j].Leaf?
  {
    hide Geom.Index, MemOk, Geom.Ok, Trans, TabOf, Here, Geom.Aligned, Geom.Span, Geom.Block;
    StepSlot(g, 0, x, j);
    StepInside(g, 0, j, k);
    StillHere(g, at, 0, x, x + g.Span(0, j), c);
    EntryThere(g, root, mem, at, pool, queue, 0, x + g.Span(0, j), c);
  }

  /** A count of zero after a decrement means the table is empty, even with 8192 entries. */
  lemma LowCount(g: Geom, s: seq<Pte>, i: nat, k: nat, e: Pte)
    requires g.Ok() && |s| <= g.n && AllLeaf(s, i, k) && k > 0 && e.Table? && e.cnt == Used(s) % COUNTS
    ensures Recounted(e, 0 - k).cnt == 0 <==> Used(Cleared(s, i, k)) == 0
  {
    ClearedUsed(s, i, k);
    ModSum(Used(s), 0 - k);
  }

  lemma EmptyTable(s: seq<Pte>)
    requires Used(s) == 0
    ensures forall j :: 0 <= j < |s| ==> s[j] == Empty
  {
    UsedNone(s);
  }

  lemma GoneSame(g: Geom, t0: Tab, t1: Tab, t2: Tab, x: nat, len: nat)
    requires g.Ok() && Unmapped(g, t0, t1, x, len) && SameTrans(g, t1, t2)
    ensures Unmapped(g, t0, t2, x, len)
  {
    hide Trans;
  }

  lemma PiecesNone(g: Geom, pa: nat, prot: nat, step: nat, u: nat, v: nat)
    ensures Pieces(g, pa, prot, step, u, 0) == Pieces(g, pa, prot, step, v, 0)
  {
  }

  lemma SmallBlock(g: Geom, s: nat, h: int, x: nat)
    requires g.Ok() && g.Aligned(s, x)
    ensures 0 <= h <= s ==> g.Aligned(h, x)
  {
    if 0 <= h <= s { BlockDivides(g, h, s, x); }
  }

  lemma FirstThere(g: Geom, t: Tab, x: nat, s: nat, k: nat)
    requires g.Ok() && k > 0 && AllThere(g, t, x, g.Span(s, k))
    ensures Trans(g, t, x) != Fault
  {
    StepInside(g, s, 0, k);
  }

  lemma FewerThere(g: Geom, t: Tab, x: nat, s: nat, j: nat, k: nat)
    requires g.Ok() && j <= k && AllThere(g, t, x, g.Span(s, k))
    ensures AllThere(g, t, x, g.Span(s, j))
  {
    hide Trans;
    if j < k { StepInside(g, s, j, k); }
  }

  /** Blocks of height s from x on hold as many pages from x on. */
  lemma LowThere(g: Geom, t: Tab, x: nat, s: nat, k: nat)
    requires g.Ok() && AllThere(g, t, x, g.Span(s, k))
    ensures AllThere(g, t, x, g.Span(0, k)) && g.Span(s, k) == g.Block(s) * k
  {
    hide Trans;
    if s > 0 { BlockGrows(g, 0, s); }
    MulMonotone(g.Block(0), g.Block(s), k);
    assert g.Block(0) * k == k * g.Block(0) && g.Block(s) * k == k * g.Block(s);
  }

  lemma EntryIs(g: Geom, root: nat, mem: Mem, at: Where, pool: seq<nat>, queue: seq<nat>, h: nat, x: nat, a: nat)
    requires g.Ok() && Here(g, at, h, x, a) && a in mem && g.Index(h, x) < |mem[a]|
    requires MemOk(g, root, mem, at, pool, queue)
    ensures Entry(g, TabOf(mem, at), h, x) == mem[a][g.Index(h, x)]
  {
  }

  lemma NoBlocks(g: Geom, h: nat, t: Tab, x: nat)
    requires g.Ok()
    ensures g.Span(h, 0) == 0 && Unmapped(g, t, t, x, 0)
  {
  }

  lemma NotAll(g: Geom, t: Tab, x: nat, len: nat, y: nat)
    requires g.Ok() && x <= y < x + len && Trans(g, t, y) == Fault
    ensures !AllThere(g, t, x, len)
  {
  }

  lemma StillHere(g: Geom, at: Where, h: nat, x: nat, y: nat, a: nat)
    requires g.Ok() && Here(g, at, h, x, a) && Slot(g, h, x) == Slot(g, h, y)
    ensures Here(g, at, h, y, a)
  {
  }

  lemma StepInside(g: Geom, h: nat, j: nat, k: nat)
    requires g.Ok() && j < k
    ensures g.Span(h, j) < g.Span(h, k)
  {
    MulMonotone(j + 1, k, g.Block(h));
    assert (j + 1) * g.Block(h) == j * g.Block(h) + g.Block(h);
  }

  /** An empty entry means the address was not translated to begin with. */
  lemma EmptyHere(g: Geom, root: nat, mem: Mem, at: Where, pool: seq<nat>, queue: seq<nat>, t0: Tab, h: nat, x: nat,
      y: nat, a: nat)
    requires g.Ok() && x <= y && Here(g, at, h, y, a) && a in mem && g.Index(h, y) < |mem[a]|
    requires mem[a][g.Index(h, y)] == Empty
    requires Unmapped(g, t0, TabOf(mem, at), x, y - x) && MemOk(g, root, mem, at, pool, queue)
    ensures Trans(g, t0, y) == Fault
  {
    TabKeys(mem, at);
    LookDown(g, at, TabOf(mem, at), h, y);
    LookEmpty(g, TabOf(mem, at), h, y);
    assert Trans(g, TabOf(mem, at), y) == Fault;
  }

  lemma CutBlock(g: Geom, root: nat, mem: Mem, at: Where, mem': Mem, at': Where, pool: seq<nat>, queue': seq<nat>,
      h: nat, x: nat)
    requires g.Ok() && g.Aligned(h, x) && Cut(g, TabOf(mem, at), TabOf(mem', at'), Slot(g, h, x), g.Index(h, x))
    requires Shape(g, at, TabOf(mem, at)) && MemOk(g, root, mem', at', pool, queue') &&
      forall m :: m in at' ==> m in at && at'[m] == at[m]
    ensures Unmapped(g, TabOf(mem, at), TabOf(mem', at'), x, g.Block(h))
  {
    hide Geom.Index, Geom.Ok, Trans, Cut, Geom.Aligned;
    TabKeys(mem', at');
    CutOk(g, at, TabOf(mem, at), at', TabOf(mem', at'), h, x);
  }

  lemma MoreGone(g: Geom, t0: Tab, t1: Tab, t2: Tab, x: nat, len: nat, more: nat)
    requires g.Ok() && Unmapped(g, t0, t1, x, len) && Unmapped(g, t1, t2, x + len, more)
    ensures Unmapped(g, t0, t2, x, len + more)
  {
    hide Trans;
  }

  lemma NextPrev(g: Geom, at: Where, h: nat, x: nat, a: nat)
    requires Here(g, at, h, x, a) && h > 0
    ensures PrevOk(g, at, h - 1, x, Prev(a, g.Index(h, x)))
  {
  }

  /** The blocks written to one table fit into it. */
  lemma LeavesFit(g: Geom, h: nat, x: nat, k: nat)
    requires g.Ok() && h <= g.H && g.Aligned(h, x) && x + g.Span(h, k) <= g.Limit() && x < g.Limit()
    ensures g.Index(h, x) + Min(k, g.n - g.Index(h, x)) <= g.Size(h)
  {
    hide Geom.Limit, Geom.Span;
    if h == g.H {
      TopFits(g, x, k);
      UnderLimit(g, x);
    }
  }

  /** A step that changes no translation may come before a map. */
  lemma Through(g: Geom, t0: Tab, t1: Tab, t2: Tab, x: nat, len: nat, step: nat, pa: nat, prot: nat)
    requires g.Ok() && step > 0 && SameTrans(g, t0, t1)
    ensures Written(g, t1, t2, x, len, step, pa, prot) ==> Written(g, t0, t2, x, len, step, pa, prot)
    ensures AllFault(g, t1, x, len) ==> AllFault(g, t0, x, len)
    ensures SameTrans(g, t1, t2) ==> SameTrans(g, t0, t2)
  {
    hide Trans, Shown;
  }

  lemma SameTransRefl(g: Geom, t: Tab)
    requires g.Ok()
    ensures SameTrans(g, t, t)
  {
  }

  /** At the last level a request for bigger blocks than there are meets nothing. */
  lemma BusyNothing(g: Geom, t: Tab, s: nat, x: nat, k: nat)
    requires g.Ok() && s > g.H
    ensures !Busy(g, t, 0, s, x, k)
  {
  }

  /** Where the entry is empty, nothing is in the way further down. */
  lemma FreeBelow(g: Geom, root: nat, mem: Mem, at: Where, pool: seq<nat>, queue: seq<nat>, h: nat, s: nat, x: nat,
      a: nat, k: nat)
    requires g.Ok() && h > 0 && Here(g, at, h, x, a) && a in mem && g.Index(h, x) < |mem[a]|
    requires !mem[a][g.Index(h, x)].Table?
    requires (s < h || s > g.H) && (s <= g.H ==> g.Aligned(s, x) && g.Index(s, x) + k <= g.n)
    requires MemOk(g, root, mem, at, pool, queue)
    ensures !Busy(g, TabOf(mem, at), h - 1, s, x, k)
  {
    NewKid(g, root, mem, at, pool, queue, h, x, a);
    TabKeys(mem, at);
    hide Busy, Geom.Index, Geom.Aligned;
    NotBusy(g, at, TabOf(mem, at), h, s, x, k);
  }

  /** A page that can hold a table: its entry reads back as its address. */
  predicate TablePage(g: Geom, a: nat) { g.page > 0 && a % g.page == 0 && a < 0x1_0000_0000_0000 }

  /** Every page of the table, free or not, is one. */
  ghost predicate PagesOk(g: Geom, at: Where, pool: seq<nat>, queue: seq<nat>) {
    forall a :: Owned(at, pool, queue, a) ==> TablePage(g, a)
  }

  lemma PagesStay(g: Geom, at: Where, pool: seq<nat>, queue: seq<nat>, at': Where, pool': seq<nat>, queue': seq<nat>)
    requires PagesOk(g, at, pool, queue) && SamePages(at, pool, queue, at', pool', queue')
    ensures PagesOk(g, at', pool', queue')
  {
    hide Owned, TablePage;
  }

  lemma PoolPage(g: Geom, at: Where, pool: seq<nat>, queue: seq<nat>)
    requires g.Real() && PagesOk(g, at, pool, queue) && pool != []
    ensures TableAddr(g.page, pool[0]) == pool[0]
  {
    assert Owned(at, pool, queue, pool[0]);
    TableAddrIff(g, pool[0]);
  }
}
