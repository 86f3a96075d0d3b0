/** Which entries are in use: when a map request meets one, and that mapping leaves those further on alone. */
module LpaeBusy {
  import opened Arith
  import opened LpaeLevels
  import opened LpaeAddr
  import opened LpaeTable
  import opened LpaeOps
  import opened LpaeSplit
  import opened LpaeCut
  import opened LpaeMem
  import opened LpaeSteps

  /** A block above height s covers x, from height h down, or an entry for one of the k blocks of height s from x on is
      in use. */
  ghost predicate Busy(g: Geom, t: Tab, h: nat, s: nat, x: nat, k: nat)
    requires g.Ok()
  {
    || (exists u :: (if s <= g.H then s else 0) < u <= h && Entry(g, t, u, x).Leaf?)
    || (s <= g.H && exists j :: 0 <= j < k && BlockPte(g, t, s, x, j) != Empty)
  }

  /** The entry for the j-th block of height s from x on. */
  function BlockPte(g: Geom, t: Tab, s: nat, x: nat, j: nat): Pte requires g.Ok() { Entry(g, t, s, x + g.Span(s, j)) }

  /** Blocks that begin at `end` or later are in use in t' exactly if they are in t. */
  ghost predicate Ahead(g: Geom, t: Tab, t': Tab, end: nat)
    requires g.Ok()
  {
    forall u: nat, y: nat :: end <= y ==>
      && (Entry(g, t', u, y).Leaf? <==> Entry(g, t, u, y).Leaf?)
      && (g.Aligned(u, y) ==> (Entry(g, t', u, y) == Empty <==> Entry(g, t, u, y) == Empty))
  }

  lemma AheadRefl(g: Geom, t: Tab, end: nat)
    requires g.Ok()
    ensures Ahead(g, t, t, end)
  {
  }

  lemma AheadTrans(g: Geom, t0: Tab, t1: Tab, t2: Tab, a: nat, b: nat)
    requires g.Ok() && a <= b && Ahead(g, t0, t1, a) && Ahead(g, t1, t2, b)
    ensures Ahead(g, t0, t2, b)
  {
    hide Entry, Geom.Aligned, Geom.Ok;
  }

  /** So a later block is in the way of a request exactly if it was. */
  lemma BusyAhead(g: Geom, t: Tab, t': Tab, end: nat, s: nat, x: nat)
    requires g.Ok() && Ahead(g, t, t', end) && end <= x && g.Aligned(s, x)
    ensures Busy(g, t', g.H, s, x, 1) <==> Busy(g, t, g.H, s, x, 1)
  {
    NoSpan(g, s);
    hide Entry, Geom.Aligned, Geom.Ok, Geom.Span;
    assert BlockPte(g, t, s, x, 0) == Entry(g, t, s, x) && BlockPte(g, t', s, x, 0) == Entry(g, t', s, x);
    assert forall u: nat :: Entry(g, t', u, x).Leaf? <==> Entry(g, t, u, x).Leaf?;
  }

  // ---------------------------------------------------------------------------------------------
  // What the steps do to entries.

  /** A new table without entries: one entry points to it, and nothing else is in use that was not. */
  lemma InstallEntries(g: Geom, root: nat, mem: Mem, at: Where, pool: seq<nat>, queue: seq<nat>, h: nat, x: nat, a: nat,
      mem': Mem, u: nat, y: nat)
    requires g.Ok() && Here(g, at, h, x, a) && h > 0 && pool != []
    requires Linked(g, mem, mem', h, x, a, pool[0], Zeros(g.n), 0) && mem[a][g.Index(h, x)] == Empty
    requires MemOk(g, root, mem, at, pool, queue)
    ensures Entry(g, TabOf(mem', at[Slot(g, h - 1, x) := pool[0]]), u, y) ==
      if u == h && Slot(g, u, y) == Slot(g, h, x) && g.Index(u, y) == g.Index(h, x) then Table(pool[0], 0)
      else Entry(g, TabOf(mem, at), u, y)
  {
    var l, i, kid, c := Slot(g, h, x), g.Index(h, x), Slot(g, h - 1, x), pool[0];
    var t, t' := TabOf(mem, at), TabOf(mem', at[kid := c]);
    TabKeys(mem, at);
    LinkedTab(g, root, mem, at, pool, queue, h, x, a, mem', Zeros(g.n), 0);
    NotThere(g, at, t, l, i);
    KidSlot(g, h, x);
    SameBlock(g, h, x, y);
    assert l in t && i < |t[l]|;
    hide MemOk, Geom.Cell, Geom.Ok, Geom.Index, Kid, TabOf, Linked;
    if u == h || u == h - 1 || !(Slot(g, h, y) == l && g.Index(h, y) == i) {
      if !(Slot(g, h, y) == l && g.Index(h, y) == i) { InstalledEntry(g, t, t', l, i, Table(c, 0), Zeros(g.n), u, y); }
    } else {
      assert Slot(g, u, y) != l && Slot(g, u, y) != kid;
    }
  }

  lemma InstallAhead(g: Geom, root: nat, mem: Mem, at: Where, pool: seq<nat>, queue: seq<nat>, h: nat, x: nat, a: nat,
      mem': Mem)
    requires g.Ok() && Here(g, at, h, x, a) && h > 0 && pool != []
    requires Linked(g, mem, mem', h, x, a, pool[0], Zeros(g.n), 0) && mem[a][g.Index(h, x)] == Empty
    requires MemOk(g, root, mem, at, pool, queue)
    ensures Ahead(g, TabOf(mem, at), TabOf(mem', at[Slot(g, h - 1, x) := pool[0]]), x + 1)
  {
    var t, t' := TabOf(mem, at), TabOf(mem', at[Slot(g, h - 1, x) := pool[0]]);
    assert Entry(g, t, h, x) == Empty by { TabKeys(mem, at); }
    hide MemOk, Geom.Ok, Geom.Index, TabOf, Linked, Entry, Geom.Aligned, Here, Geom.Cell;
    forall u: nat, y: nat | x + 1 <= y
      ensures (Entry(g, t', u, y).Leaf? <==> Entry(g, t, u, y).Leaf?)
        && (g.Aligned(u, y) ==> (Entry(g, t', u, y) == Empty <==> Entry(g, t, u, y) == Empty))
    {
      InstallEntries(g, root, mem, at, pool, queue, h, x, a, mem', u, y);
      if u == h && Slot(g, u, y) == Slot(g, h, x) && g.Index(u, y) == g.Index(h, x) {
        SameEntry(g, t, h, x, y);
        NotAligned(g, h, x, y);
      }
    }
  }

  lemma SameEntry(g: Geom, t: Tab, h: nat, x: nat, y: nat)
    requires g.Ok() && Slot(g, h, y) == Slot(g, h, x) && g.Index(h, y) == g.Index(h, x)
    ensures Entry(g, t, h, y) == Entry(g, t, h, x)
  {
  }

  /** Past the beginning of a block, nothing in it is aligned to it. */
  lemma NotAligned(g: Geom, h: nat, x: nat, y: nat)
    requires g.Ok() && x < y && Slot(g, h, y) == Slot(g, h, x) && g.Index(h, y) == g.Index(h, x)
    ensures !g.Aligned(h, y)
  {
    CellUp(g, h, x);
    CellUp(g, h, y);
    hide Geom.Index;
    DivTimes(x, g.Block(h));
    DivTimes(y, g.Block(h));
  }

  lemma LeavesAhead(g: Geom, root: nat, mem: Mem, at: Where, pool: seq<nat>, queue: seq<nat>, h: nat, x: nat, a: nat,
      prev: Prev, k: nat, pa: nat, prot: nat, mem1: Mem, mem2: Mem)
    requires g.Ok() && Here(g, at, h, x, a) && PrevOk(g, at, h, x, prev) && x < g.Limit()
    requires g.Aligned(h, x) && a in mem && AllEmpty(mem[a], g.Index(h, x), k)
    requires mem1 == mem[a := WithLeaves(g.page, mem[a], g.Index(h, x), k, pa, g.Block(h), prot)]
    requires prev.NoPrev? ==> mem2 == mem1
    requires prev.Prev? ==>
      && prev.addr in mem && prev.i < |mem[prev.addr]| && mem[prev.addr][prev.i].Table?
      && mem2 == mem1[prev.addr := mem[prev.addr][prev.i := Recounted(mem[prev.addr][prev.i], k)]]
    requires MemOk(g, root, mem, at, pool, queue)
    ensures Ahead(g, TabOf(mem, at), TabOf(mem2, at), x + g.Span(h, k))
  {
    var t, t1, t2 := TabOf(mem, at), TabOf(mem1, at), TabOf(mem2, at);
    var l := Slot(g, h, x);
    TabKeys(mem, at);
    MemParts(g, root, mem, at, pool, queue);
    TableFits(g, at, t, l);
    WriteOne(mem, at, l, mem1[a]);
    TabKeys(mem1, at);
    Above(g, root, mem, at, pool, queue, h, x, a, prev);
    if prev.Prev? { WriteOne(mem1, at, Slot(g, h + 1, x), mem2[prev.addr]); }
    hide MemOk, Geom.Ok, Geom.Index, TabOf, Geom.Aligned, Geom.Cell, Geom.Span, Geom.Block, Shape, Counted, Placed,
         Apart, WithLeaves;
    hide SameBut, Entry, Slot;
    forall u: nat, y: nat | x + g.Span(h, k) <= y
      ensures Entry(g, t2, u, y).Leaf? <==> Entry(g, t, u, y).Leaf?
      ensures Entry(g, t2, u, y) == Empty <==> Entry(g, t, u, y) == Empty
    {
      LeavesEntry(g, t, t1, h, x, k, pa, prot, u, y);
      if prev.Prev? { RecountEntry(g, t1, t2, Slot(g, h + 1, x), prev.i, u, y); }
    }
  }

  lemma LeavesEntry(g: Geom, t: Tab, t1: Tab, h: nat, x: nat, k: nat, pa: nat, prot: nat, u: nat, y: nat)
    requires g.Ok() && g.Aligned(h, x) && SameBut(t, t1, Slot(g, h, x)) && AllEmpty(t[Slot(g, h, x)], g.Index(h, x), k)
    requires |t[Slot(g, h, x)]| <= g.n && x + g.Span(h, k) <= y
    requires t1[Slot(g, h, x)] == WithLeaves(g.page, t[Slot(g, h, x)], g.Index(h, x), k, pa, g.Block(h), prot)
    ensures Entry(g, t1, u, y) == Entry(g, t, u, y)
  {
    hide Geom.Ok, Geom.Index, Geom.Aligned, Geom.Cell, Geom.Span, Geom.Block, Stored;
    SlotRange(g, h, x, k, y);
    assert Slot(g, u, y).h == u;
  }

  lemma RecountEntry(g: Geom, t: Tab, t': Tab, p: Label, i: nat, u: nat, y: nat)
    requires g.Ok() && SameBut(t, t', p) && i < |t[p]| && t[p][i].Table? && |t'[p]| == |t[p]| && t'[p][i].Table?
    requires forall j :: 0 <= j < |t[p]| && j != i ==> t'[p][j] == t[p][j]
    ensures Entry(g, t', u, y).Leaf? <==> Entry(g, t, u, y).Leaf?
    ensures Entry(g, t', u, y) == Empty <==> Entry(g, t, u, y) == Empty
  {
    hide Geom.Ok, Geom.Index, Slot;
  }

  // ---------------------------------------------------------------------------------------------
  // Down the tables.

  /** The entries for blocks of one size, where their table is. */
  lemma BlockPteIs(g: Geom, root: nat, mem: Mem, at: Where, pool: seq<nat>, queue: seq<nat>, h: nat, x: nat, a: nat,
      k: nat, j: nat)
    requires g.Ok() && Here(g, at, h, x, a) && g.Aligned(h, x) && a in mem && g.Index(h, x) + k <= |mem[a]| <= g.n &&
      j < k
    requires MemOk(g, root, mem, at, pool, queue)
    ensures BlockPte(g, TabOf(mem, at), h, x, j) == mem[a][g.Index(h, x) + j]
  {
    TabKeys(mem, at);
    var t: Tab := TabOf(mem, at);
    assert t[Slot(g, h, x)] == mem[a];
    hide MemOk, Geom.Ok, Geom.Index, TabOf, Geom.Aligned, Geom.Cell, Geom.Span, Geom.Block, Slot;
    StepSlot(g, h, x, j);
  }

  /** Blocks of height h from x on are leaves for pa onwards. */
  ghost predicate HasLeaves(g: Geom, t: Tab, h: nat, x: nat, k: nat, pa: nat, prot: nat) requires g.Ok() {
    forall j: nat :: j < k ==> BlockPte(g, t, h, x, j) == Leaf(Stored(g.page, pa + j * g.Block(h)), prot)
  }

  lemma LeavesThere(g: Geom, root: nat, mem: Mem, at: Where, pool: seq<nat>, queue: seq<nat>, h: nat, x: nat, a: nat,
      k: nat, s: seq<Pte>, pa: nat, prot: nat)
    requires g.Ok() && Here(g, at, h, x, a) && g.Aligned(h, x) && a in mem && g.Index(h, x) + k <= |s| <= g.n
    requires mem[a] == WithLeaves(g.page, s, g.Index(h, x), k, pa, g.Block(h), prot)
    requires MemOk(g, root, mem, at, pool, queue)
    ensures HasLeaves(g, TabOf(mem, at), h, x, k, pa, prot)
  {
    hide MemOk, Geom.Ok, Geom.Index, TabOf, Geom.Aligned, Geom.Block, Here, BlockPte, Stored;
    forall j: nat | j < k
      ensures BlockPte(g, TabOf(mem, at), h, x, j) == Leaf(Stored(g.page, pa + j * g.Block(h)), prot)
    {
      BlockPteIs(g, root, mem, at, pool, queue, h, x, a, k, j);
    }
  }

  /** In the table for blocks of the size asked for, busy means that an entry is in use. */
  lemma BusyEnd(g: Geom, root: nat, mem: Mem, at: Where, pool: seq<nat>, queue: seq<nat>, h: nat, x: nat, a: nat,
      k: nat)
    requires g.Ok() && Here(g, at, h, x, a) && g.Aligned(h, x) && a in mem && g.Index(h, x) + k <= |mem[a]| <= g.n
    requires MemOk(g, root, mem, at, pool, queue)
    ensures Busy(g, TabOf(mem, at), h, h, x, k) <==> !AllEmpty(mem[a], g.Index(h, x), k)
  {
    MemParts(g, root, mem, at, pool, queue);
    hide MemOk, Geom.Ok, Geom.Index, TabOf, Geom.Aligned, BlockPte, Shape, Counted;
    var t: Tab := TabOf(mem, at);
    var i := g.Index(h, x);
    forall j | 0 <= j < k ensures BlockPte(g, t, h, x, j) == mem[a][i + j] {
      BlockPteIs(g, root, mem, at, pool, queue, h, x, a, k, j);
    }
    if !AllEmpty(mem[a], i, k) {
      var j :| i <= j < i + k && mem[a][j] != Empty;
      assert BlockPte(g, t, h, x, j - i) != Empty;
    }
    if Busy(g, t, h, h, x, k) {
      var j :| 0 <= j < k && BlockPte(g, t, h, x, j) != Empty;
      assert mem[a][i + j] != Empty;
    }
  }

  /** Above it, only a block is in the way. */
  lemma BusyDown(g: Geom, t: Tab, h: nat, s: nat, x: nat, k: nat)
    requires g.Ok() && h > 0 && (s < h || s > g.H)
    ensures Entry(g, t, h, x).Leaf? ==> Busy(g, t, h, s, x, k)
    ensures !Entry(g, t, h, x).Leaf? ==> (Busy(g, t, h, s, x, k) <==> Busy(g, t, h - 1, s, x, k))
  {
    hide Entry, BlockPte;
  }

  /** Where there is no table there are none below. */
  lemma {:induction false} NoneBelow(g: Geom, at: Where, t: Tab, h: nat, x: nat, u: nat)
    requires Shape(g, at, t) && u <= h < g.H && Slot(g, h, x) !in t
    ensures Slot(g, u, x) !in t
    decreases h - u
  {
    if u < h && Slot(g, u, x) in t {
      assert LabelOk(g, t, Slot(g, u, x));
      CellUp(g, u + 1, x);
      NoneBelow(g, at, t, h, x, u + 1);
    }
  }

  /** A table that is there has table entries all the way up. */
  lemma {:induction false} TablesAbove(g: Geom, at: Where, t: Tab, s: nat, x: nat, u: nat)
    requires Shape(g, at, t) && Slot(g, s, x) in t && s < u <= g.H
    ensures Entry(g, t, u, x).Table?
    decreases u - s
  {
    hide Geom.Cell, Geom.Index;
    assert LabelOk(g, t, Slot(g, s, x));
    CellUp(g, s + 1, x);
    KidSlot(g, s + 1, x);
    var up := Slot(g, s + 1, x);
    assert LabelOk(g, t, up);
    assert CellOk(g, at, t, up, g.Index(s + 1, x));
    if s + 1 < u { TablesAbove(g, at, t, s + 1, x, u); }
  }

  /** Above a table that is there no block is in the way. */
  lemma BusyTop(g: Geom, at: Where, t: Tab, h: nat, s: nat, x: nat, k: nat)
    requires Shape(g, at, t) && h <= g.H && Slot(g, h, x) in t
    ensures Busy(g, t, g.H, s, x, k) <==> Busy(g, t, h, s, x, k)
  {
    assert g.Ok();
    hide Shape, Entry, BlockPte, Geom.Ok, Slot;
    forall u | h < u <= g.H ensures !Entry(g, t, u, x).Leaf? { TablesAbove(g, at, t, h, x, u); }
  }

  /** Under an empty entry nothing is busy. */
  lemma NotBusy(g: Geom, at: Where, t: Tab, h: nat, s: nat, x: nat, k: nat)
    requires Shape(g, at, t) && 0 < h <= g.H && (s < h || s > g.H) && Slot(g, h - 1, x) !in t
    requires s <= g.H ==> g.Aligned(s, x) && g.Index(s, x) + k <= g.n
    ensures !Busy(g, t, h - 1, s, x, k)
  {
    assert g.Ok();
    hide Shape, Geom.Ok, Geom.Index, Geom.Aligned, Geom.Cell, Geom.Span, Geom.Block, Slot;
    forall u: nat | u < h ensures Entry(g, t, u, x) == Empty { NoneBelow(g, at, t, h - 1, x, u); }
    if s <= g.H {
      forall j: nat | j < k ensures BlockPte(g, t, s, x, j) == Empty {
        StepSlot(g, s, x, j);
        NoneBelow(g, at, t, h - 1, x, s);
      }
    }
  }

  lemma InstallBusy(g: Geom, root: nat, mem: Mem, at: Where, pool: seq<nat>, queue: seq<nat>, h: nat, x: nat, a: nat,
      mem': Mem, s: nat, k: nat)
    requires g.Ok() && Here(g, at, h, x, a) && h > 0 && pool != [] && (s < h || s > g.H)
    requires Linked(g, mem, mem', h, x, a, pool[0], Zeros(g.n), 0) && mem[a][g.Index(h, x)] == Empty
    requires MemOk(g, root, mem, at, pool, queue)
    ensures Busy(g, TabOf(mem', at[Slot(g, h - 1, x) := pool[0]]), h - 1, s, x, k) <==>
      Busy(g, TabOf(mem, at), h - 1, s, x, k)
  {
    var t, t' := TabOf(mem, at), TabOf(mem', at[Slot(g, h - 1, x) := pool[0]]);
    hide MemOk, Geom.Ok, Geom.Index, TabOf, Linked, Entry, Geom.Span, Here, Slot;
    forall u: nat, y: nat | u < h ensures Entry(g, t', u, y) == Entry(g, t, u, y) {
      InstallEntries(g, root, mem, at, pool, queue, h, x, a, mem', u, y);
    }
    if s <= g.H {
      forall j: nat ensures BlockPte(g, t', s, x, j) == BlockPte(g, t, s, x, j) { }
    }
  }

  /** If nothing of the request is translated, it is tables that are in the way: tables without anything in them. */
  lemma BusyThoughFault(g: Geom, at: Where, t: Tab, s: nat, x: nat, k: nat)
    requires Shape(g, at, t) && s <= g.H && g.Aligned(s, x) && k > 0 && AllFault(g, t, x, g.Span(s, k))
    ensures Busy(g, t, g.H, s, x, k) <==> exists j :: 0 <= j < k && BlockPte(g, t, s, x, j).Table?
  {
    assert g.Ok();
    hide Shape, Geom.Ok, Geom.Aligned, Geom.Cell, Geom.Span, Geom.Block, Slot, Trans, Geom.Index, Entry;
    SpanInside(g, s, 0, k);
    NoSpan(g, s);
    forall u: nat | u <= g.H ensures !Entry(g, t, u, x).Leaf? { FaultNoLeaf(g, at, t, u, x); }
    forall j: nat | j < k ensures !BlockPte(g, t, s, x, j).Leaf? {
      SpanInside(g, s, j, k);
      FaultNoLeaf(g, at, t, s, x + g.Span(s, j));
    }
  }

  lemma SpanInside(g: Geom, h: nat, j: nat, k: nat)
    requires g.Ok() && j < k
    ensures g.Span(h, j) < g.Span(h, k)
  {
    MulMonotone(j + 1, k, g.Block(h));
    Distribute(j, 1, g.Block(h));
  }

  lemma FaultNoLeaf(g: Geom, at: Where, t: Tab, u: nat, y: nat)
    requires Shape(g, at, t) && u <= g.H && Trans(g, t, y) == Fault
    ensures !Entry(g, t, u, y).Leaf?
  {
    hide Geom.Index, Geom.Cell;
    if Entry(g, t, u, y).Leaf? { LookDown(g, at, t, u, y); }
  }

  // ---------------------------------------------------------------------------------------------
  // Blocks stay aligned.

  /** Every block of t' is one of t. */
  ghost predicate LeavesFrom(t: Tab, t': Tab) {
    forall l, i :: l in t' && 0 <= i < |t'[l]| && t'[l][i].Leaf? ==> l in t && i < |t[l]| && t[l][i] == t'[l][i]
  }

  lemma StraightFrom(g: Geom, t: Tab, t': Tab, flat: bool)
    requires g.Ok() && Straight(g, t, flat) && LeavesFrom(t, t')
    ensures Straight(g, t', flat)
  {
    hide Geom.Block, Stored;
    forall l, i | l in t' && 0 <= i < |t'[l]| ensures StraightPte(g, l.h, t'[l][i], flat) {
      if t'[l][i].Leaf? { assert StraightPte(g, l.h, t[l][i], flat); }
    }
  }

  lemma LeavesTwice(t0: Tab, t1: Tab, t2: Tab)
    requires LeavesFrom(t0, t1) && LeavesFrom(t1, t2)
    ensures LeavesFrom(t0, t2)
  {
  }

  lemma CutLeaves(g: Geom, t: Tab, t': Tab, l: Label, i: nat)
    requires Cut(g, t, t', l, i)
    ensures LeavesFrom(t, t')
  {
  }

  /** One table changed. */
  lemma StraightOne(g: Geom, t: Tab, t': Tab, l: Label, flat: bool)
    requires g.Ok() && Straight(g, t, flat) && SameBut(t, t', l)
    requires forall i :: 0 <= i < |t'[l]| ==> StraightPte(g, l.h, t'[l][i], flat)
    ensures Straight(g, t', flat)
  {
    hide Geom.Block, StraightPte;
  }

  // ---------------------------------------------------------------------------------------------
  // What mapping leaves alone.

  /** Blocks further on are in use as before, and leaves are still for addresses they can hold; if `flat`, blocks stay
      aligned. */
  ghost predicate Frame(g: Geom, t: Tab, t': Tab, end: nat, flat: bool)
    requires g.Ok()
  {
    && Ahead(g, t, t', end) && (Straight(g, t, false) ==> Straight(g, t', false))
    && (flat && Straight(g, t, true) ==> Straight(g, t', true))
  }

  lemma FrameRefl(g: Geom, t: Tab, end: nat, flat: bool)
    requires g.Ok()
    ensures Frame(g, t, t, end, flat)
  {
    AheadRefl(g, t, end);
  }

  lemma FrameTwice(g: Geom, t0: Tab, t1: Tab, t2: Tab, a: nat, b: nat, flat: bool)
    requires g.Ok() && a <= b && Frame(g, t0, t1, a, flat) && Frame(g, t1, t2, b, flat)
    ensures Frame(g, t0, t2, b, flat)
  {
    hide Ahead, Straight;
    AheadTrans(g, t0, t1, t2, a, b);
  }

  /** Blocks of height h for pa onwards are aligned, or pages, for which it does not matter. */
  predicate Flat(g: Geom, h: nat, k: nat, pa: nat)
    requires g.Ok()
  {
    h == 0 || Encodable(g, pa, g.Block(h), g.Span(h, k))
  }

  lemma InstallFrame(g: Geom, root: nat, mem: Mem, at: Where, pool: seq<nat>, queue: seq<nat>, h: nat, x: nat, a: nat,
      mem': Mem, flat: bool)
    requires g.Ok() && Here(g, at, h, x, a) && h > 0 && pool != []
    requires Linked(g, mem, mem', h, x, a, pool[0], Zeros(g.n), 0) && mem[a][g.Index(h, x)] == Empty
    requires MemOk(g, root, mem, at, pool, queue)
    ensures Frame(g, TabOf(mem, at), TabOf(mem', at[Slot(g, h - 1, x) := pool[0]]), x + 1, flat)
  {
    InstallAhead(g, root, mem, at, pool, queue, h, x, a, mem');
    LinkedTab(g, root, mem, at, pool, queue, h, x, a, mem', Zeros(g.n), 0);
    var t, t' := TabOf(mem, at), TabOf(mem', at[Slot(g, h - 1, x) := pool[0]]);
    hide MemOk, Ahead, TabOf, Linked, Geom.Block, Kid;
    forall b: bool | Straight(g, t, b) ensures Straight(g, t', b) {
      InstalledStraight(g, t, t', Slot(g, h, x), g.Index(h, x), Table(pool[0], 0), Zeros(g.n), b);
    }
  }

  lemma InstalledStraight(g: Geom, t: Tab, t': Tab, l: Label, i: nat, e: Pte, s: seq<Pte>, flat: bool)
    requires g.Ok() && Straight(g, t, flat) && Installed(g, t, t', l, i, e, s)
    requires forall j :: 0 <= j < |s| ==> StraightPte(g, l.h - 1, s[j], flat)
    ensures Straight(g, t', flat)
  {
    KidHeight(g, l, i);
    hide Geom.Block, Kid, StraightPte;
    assert StraightPte(g, l.h, e, flat) by { TableStraight(g, l.h, e, flat); }
    forall m, j | m in t' && 0 <= j < |t'[m]| ensures StraightPte(g, m.h, t'[m][j], flat) {
      if m != Kid(g, l, i) { assert j < |t[m]| ==> StraightPte(g, m.h, t[m][j], flat); }
    }
  }

  lemma TableStraight(g: Geom, h: nat, e: Pte, flat: bool)
    requires g.Ok() && e.Table?
    ensures StraightPte(g, h, e, flat)
  {
  }

  lemma LeavesFrame(g: Geom, root: nat, mem: Mem, at: Where, pool: seq<nat>, queue: seq<nat>, h: nat, x: nat, a: nat,
      prev: Prev, k: nat, pa: nat, prot: nat, mem1: Mem, mem2: Mem)
    requires g.Real() && Here(g, at, h, x, a) && PrevOk(g, at, h, x, prev) && x < g.Limit()
    requires g.Aligned(h, x) && a in mem && AllEmpty(mem[a], g.Index(h, x), k)
    requires mem1 == mem[a := WithLeaves(g.page, mem[a], g.Index(h, x), k, pa, g.Block(h), prot)]
    requires prev.NoPrev? ==> mem2 == mem1
    requires prev.Prev? ==>
      && prev.addr in mem && prev.i < |mem[prev.addr]| && mem[prev.addr][prev.i].Table?
      && mem2 == mem1[prev.addr := mem[prev.addr][prev.i := Recounted(mem[prev.addr][prev.i], k)]]
    requires MemOk(g, root, mem, at, pool, queue)
    ensures Frame(g, TabOf(mem, at), TabOf(mem2, at), x + g.Span(h, k), Flat(g, h, k, pa))
  {
    assert g.Ok();
    LeavesAhead(g, root, mem, at, pool, queue, h, x, a, prev, k, pa, prot, mem1, mem2);
    var t, t1, t2 := TabOf(mem, at), TabOf(mem1, at), TabOf(mem2, at);
    var l := Slot(g, h, x);
    TabKeys(mem, at);
    WriteOne(mem, at, l, mem1[a]);
    TabKeys(mem1, at);
    Above(g, root, mem, at, pool, queue, h, x, a, prev);
    if prev.Prev? { WriteOne(mem1, at, Slot(g, h + 1, x), mem2[prev.addr]); }
    hide MemOk, Geom.Ok, Geom.Index, TabOf, Geom.Aligned, Geom.Cell, Geom.Span, Geom.Block, Shape, Counted, Placed,
         Apart, WithLeaves;
    hide SameBut, Ahead, Geom.Real, Flat, Straight;
    forall b: bool | Straight(g, t, b) && (b ==> Flat(g, h, k, pa)) ensures Straight(g, t2, b) {
      LeavesStraight(g, t, t1, l, g.Index(h, x), k, pa, prot, b);
      if prev.Prev? { RecountStraight(g, t1, t2, Slot(g, h + 1, x), prev.i, b); }
    }
  }

  lemma LeavesStraight(g: Geom, t: Tab, t1: Tab, l: Label, i: nat, k: nat, pa: nat, prot: nat, flat: bool)
    requires g.Real() && l.h <= g.H && SameBut(t, t1, l) && i + k <= |t[l]|
    requires Straight(g, t, flat) && (flat ==> Flat(g, l.h, k, pa))
    requires t1[l] == WithLeaves(g.page, t[l], i, k, pa, g.Block(l.h), prot)
    ensures Straight(g, t1, flat)
  {
    hide Geom.Block, Geom.Span, Stored, Geom.Real, Straight;
    assert g.Ok() by { RealOk(g); }
    forall j | 0 <= j < |t1[l]| ensures StraightPte(g, l.h, t1[l][j], flat) {
      if i <= j < i + k {
        StoredTwice(g.page, pa + (j - i) * g.Block(l.h));
        if flat && l.h > 0 { LeafStraight(g, l.h, k, pa, j - i); }
      } else {
        StraightAt(g, t, l, j, flat);
      }
    }
    StraightOne(g, t, t1, l, flat);
  }

  /** What a leaf says it is for is an address it can hold. */
  lemma StoredTwice(page: nat, a: nat)
    ensures Stored(page, Stored(page, a)) == Stored(page, a)
  {
    StoredFine(page, a);
    hide Stored;
    StoredIff(page, a);
    StoredIff(page, Stored(page, a));
  }

  lemma StoredFine(page: nat, a: nat)
    ensures Stored(page, a) % Fine(page) == 0
  {
    hide Or;
  }

  lemma StraightAt(g: Geom, t: Tab, l: Label, j: nat, flat: bool)
    requires g.Ok() && Straight(g, t, flat) && l in t && j < |t[l]|
    ensures StraightPte(g, l.h, t[l][j], flat)
  {
  }

  lemma LeafStraight(g: Geom, h: nat, k: nat, pa: nat, j: nat)
    requires g.Real() && 0 < h <= g.H && Encodable(g, pa, g.Block(h), g.Span(h, k)) && j < k
    ensures Stored(g.page, pa + j * g.Block(h)) == pa + j * g.Block(h)
    ensures (pa + j * g.Block(h)) % g.Block(h) == 0
  {
    hide Geom.Block, Stored;
    var a := pa + j * g.Block(h);
    StepMod(pa, j, g.Block(h));
    SpanInside(g, h, j, k);
    ShownAt(g, h, a, 0);
  }

  lemma RecountStraight(g: Geom, t: Tab, t': Tab, p: Label, i: nat, flat: bool)
    requires g.Ok() && Straight(g, t, flat) && SameBut(t, t', p) && i < |t[p]| && |t'[p]| == |t[p]| && t'[p][i].Table?
    requires forall j :: 0 <= j < |t[p]| && j != i ==> t'[p][j] == t[p][j]
    ensures Straight(g, t', flat)
  {
    hide Geom.Block;
    StraightFrom(g, t, t', flat);
  }

  /** A split block leaves pieces for addresses they can hold, aligned if the block was. */
  lemma SplitStraight(g: Geom, at: Where, t: Tab, t': Tab, h: nat, e: Pte, x: nat, k: nat, flat: bool)
    requires g.Real() && Shape(g, at, t) && Split(g, t, t', h, e, x, k) && Straight(g, t, flat)
    ensures Straight(g, t', flat)
  {
    hide Geom.Block, Geom.Index, Straight, Shape, Stored, Geom.Real, Pieces, Installed;
    var l, i := Slot(g, h, x), g.Index(h, x);
    var s := Pieces(g, t[l][i].pa, t[l][i].prot, g.Block(h - 1), g.Index(h - 1, x), k);
    StraightAt(g, t, l, i, flat);
    TableFits(g, at, t, l);
    forall j | 0 <= j < |s| ensures StraightPte(g, h - 1, s[j], flat) {
      if s[j].Leaf? {
        StoredTwice(g.page, t[l][i].pa + j * g.Block(h - 1));
        if flat { PieceStraight(g, h, t[l][i].pa, j); }
      }
    }
    InstalledStraight(g, t, t', l, i, e, s, flat);
  }

  lemma PieceStraight(g: Geom, h: nat, pa: nat, j: nat)
    requires g.Real() && 0 < h <= g.H && pa % g.Block(h) == 0 && Stored(g.page, pa) == pa && j < g.n
    ensures Stored(g.page, PieceAt(g, h, pa, j)) == PieceAt(g, h, pa, j)
    ensures PieceAt(g, h, pa, j) % g.Block(h - 1) == 0
  {
    hide Geom.Block, Stored;
    StoredIff(g.page, pa);
    PieceAligned(g, h, pa, j);
    ShownAt(g, h - 1, pa + j * g.Block(h - 1), 0);
  }
}
