/** How a zspage is cut up: pages, slots, words, and where each slot starts. */
module ZsLayout {
  import opened Arith

  /** An `unsigned long` of memory. All offsets and sizes below are counted in these 8-byte words. */
  type Word = w: nat | w < 0x1_0000_0000_0000_0000

  const WORDS: nat := 0x1_0000_0000_0000_0000
  const UINT: nat := 0x1_0000_0000

  /** Words per page, words per slot, pages per zspage. */
  datatype Geometry = Geometry(P: nat, sz: nat, npages: nat) {
    predicate Ok() {
      1 <= sz <= P && 1 <= npages && Objs() + 1 < UINT / 2
    }

    /** objs_per_zspage */
    function Objs(): nat requires sz > 0 { npages * P / sz }

    function Total(): nat { npages * P }

    function Start(idx: nat): nat { idx * sz }

    /** Is there a partial chunk after the last slot? */
    predicate Tail() requires sz > 0 { Start(Objs()) < Total() }

    predicate Huge() requires sz > 0 { npages == 1 && Objs() == 1 }

    function PageOf(pos: nat): nat requires P > 0 { pos / P }

    function OffOf(pos: nat): nat requires P > 0 { pos % P }
  }

  // ---------------------------------------------------------------------------------------------
  // Arithmetic of slots and pages.

  lemma SlotsApart(g: Geometry, i: nat, j: nat)
    requires i < j
    ensures g.Start(i) + g.sz <= g.Start(j)
  {
    assert g.Start(j) == g.Start(i) + (j - i) * g.sz;
    assert (j - i) * g.sz >= g.sz by { MulAtLeast(j - i, g.sz); }
  }

  lemma SlotInside(g: Geometry, idx: nat)
    requires g.Ok() && idx < g.Objs()
    ensures g.Start(idx) + g.sz <= g.Total()
  {
    MulMonotone(idx + 1, g.Objs(), g.sz);
    assert (idx + 1) * g.sz == g.Start(idx) + g.sz;
    DivTimes(g.Total(), g.sz);
  }

  /** A position lies in a page of the chain, at the offset its number says. */
  lemma PosInPage(g: Geometry, pos: nat)
    requires g.Ok() && pos < g.Total()
    ensures g.PageOf(pos) < g.npages && g.OffOf(pos) < g.P
    ensures pos == g.PageOf(pos) * g.P + g.OffOf(pos)
  {
    DivTimes(pos, g.P);
    if g.PageOf(pos) >= g.npages { MulMonotone(g.npages, g.PageOf(pos), g.P); }
  }

  lemma PagePos(g: Geometry, page: nat, off: nat)
    requires g.Ok() && page < g.npages && off < g.P
    ensures page * g.P + off < g.Total()
    ensures g.PageOf(page * g.P + off) == page && g.OffOf(page * g.P + off) == off
  {
    MulMonotone(page + 1, g.npages, g.P);
    assert (page + 1) * g.P == page * g.P + g.P;
    DivUnique(page * g.P + off, g.P, page);
  }

  /** Every slot lies within two consecutive pages of its chain. */
  lemma SlotSpansTwoPages(g: Geometry, idx: nat)
    requires g.Ok() && idx < g.Objs()
    ensures var first, last := g.PageOf(g.Start(idx)), g.PageOf(g.Start(idx) + g.sz - 1);
      last < g.npages && (last == first || last == first + 1)
      && (last == first <==> g.OffOf(g.Start(idx)) + g.sz <= g.P)
  {
    SlotInside(g, idx);
    var a := g.Start(idx);
    PosInPage(g, a + g.sz - 1);
    RangeSpans(a, g.sz, g.P);
  }

  lemma RangeSpans(a: nat, n: nat, P: nat)
    requires 1 <= n <= P
    ensures (a + n - 1) / P == if a % P + n <= P then a / P else a / P + 1
  {
    var q := a / P;
    DivTimes(a, P);
    if a % P + n <= P {
      DivUnique(a + n - 1, P, q);
    } else {
      assert (q + 1) * P == q * P + P;
      DivUnique(a + n - 1, P, q + 1);
    }
  }

  /** There is room for no further slot after the last one. */
  lemma AfterLastSlot(g: Geometry)
    requires g.Ok()
    ensures g.Start(g.Objs()) <= g.Total() < g.Start(g.Objs()) + g.sz
    ensures 1 <= g.Objs()
  {
    DivTimes(g.Total(), g.sz);
    MulAtLeast(g.npages, g.P);
  }

  /** Number of slots that start before page k: the index of the first slot that starts in it. */
  function FirstIdx(g: Geometry, k: nat): nat
    requires g.sz > 0
  {
    (k * g.P + g.sz - 1) / g.sz
  }

  lemma FirstIdxIs(g: Geometry, k: nat)
    requires g.sz > 0
    ensures k * g.P <= g.Start(FirstIdx(g, k)) < k * g.P + g.sz
  {
    DivTimes(k * g.P + g.sz - 1, g.sz);
  }

  /** Slot i starts before page k exactly if it comes before that page's first slot. */
  lemma StartsBefore(g: Geometry, k: nat, i: nat)
    requires g.sz > 0
    ensures g.Start(i) < k * g.P <==> i < FirstIdx(g, k)
  {
    FirstIdxIs(g, k);
    if i < FirstIdx(g, k) {
      SlotsApart(g, i, FirstIdx(g, k));
    } else if i > FirstIdx(g, k) {
      SlotsApart(g, FirstIdx(g, k), i);
    }
  }
}
