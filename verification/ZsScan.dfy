/** Finding the allocated slots that start in a page. */
module ZsScan {
  import opened Arith
  import opened Counting
  import opened ZsLayout
  import opened ZsPage
  import opened ZsMemory
  import opened ZsPool

  /** Every allocated slot has a real handle in its header. */
  ghost predicate Headed(g: Geometry, z: Zspage, fl: seq<nat>) {
    ZsOk(g, z, fl) && forall i :: 0 <= i < g.Objs() && i !in fl ==> Header(g, z.pages, i) > 1
  }

  ghost predicate FoundAt(g: Geometry, z: Zspage, fl: seq<nat>, i: nat, handle: Word) {
    && g.Ok() && Shape(g, z.pages) && i < g.Objs() && i !in fl
    && handle + 1 < WORDS && Header(g, z.pages, i) == handle + 1
  }

  /** find_alloced_obj: the first allocated slot that starts in page k, from the index-th one on. */
  method FindAllocedObj(g: Geometry, z: Zspage, ghost fl: seq<nat>, k: nat, start: nat)
    returns (handle: Word, index: nat)
    requires Headed(g, z, fl) && k < g.npages && !g.Huge()
    ensures index >= start
    ensures handle == 0 ==> forall i :: FirstIdx(g, k) + start <= i < FirstIdx(g, k + 1) && i < g.Objs() ==> i in fl
    ensures handle != 0 ==>
      FoundAt(g, z, fl, FirstIdx(g, k) + index, handle) && FirstIdx(g, k) + index < FirstIdx(g, k + 1)
    ensures handle != 0 ==> forall j :: FirstIdx(g, k) + start <= j < FirstIdx(g, k) + index ==> j in fl
  {
    hide At, Header, FirstIdx, Geometry.Start, Linked, Chain, TailFree;
    handle, index := 0, start;
    FirstOffset(g, z, fl, k, start);
    var offset := z.pages[k].firstObj + g.sz * start;
    while offset < g.P
      invariant index >= start && handle == 0 && offset == g.Start(FirstIdx(g, k) + index) - k * g.P >= 0
      invariant forall j :: FirstIdx(g, k) + start <= j < FirstIdx(g, k) + index && j < g.Objs() ==> j in fl
      decreases g.P - offset
    {
      var w := z.pages[k].words[offset];
      WordAt(g, z, fl, k, index, offset);
      if w % 2 == 1 {
        handle := w - 1;
        break;
      }
      StartNext(g, FirstIdx(g, k) + index);
      offset := offset + g.sz;
      index := index + 1;
    }
    forall i | handle == 0 && FirstIdx(g, k) + start <= i < FirstIdx(g, k + 1) && i < g.Objs() ensures i in fl {
      PageDone(g, k, index, i);
    }
  }

  lemma FirstOffset(g: Geometry, z: Zspage, fl: seq<nat>, k: nat, n: nat)
    requires ZsOk(g, z, fl) && k < g.npages
    ensures z.pages[k].firstObj + g.sz * n == g.Start(FirstIdx(g, k) + n) - k * g.P >= 0
  {
    FirstIdxIs(g, k);
    assert g.Start(FirstIdx(g, k) + n) == g.Start(FirstIdx(g, k)) + g.sz * n;
  }

  /** The word found at an offset of page k is the header of the slot that starts there, or the tail's. */
  lemma WordAt(g: Geometry, z: Zspage, fl: seq<nat>, k: nat, n: nat, offset: nat)
    requires Headed(g, z, fl) && k < g.npages && !g.Huge()
    requires offset == g.Start(FirstIdx(g, k) + n) - k * g.P && offset < g.P
    ensures var i, w := FirstIdx(g, k) + n, z.pages[k].words[offset];
      && i < FirstIdx(g, k + 1)
      && (w % 2 == 1 ==> i < g.Objs() && i !in fl && w == Header(g, z.pages, i) > 1)
      && (w % 2 == 0 ==> i < g.Objs() ==> i in fl)
  {
    var i := FirstIdx(g, k) + n;
    PageAt(g, z.pages, k, offset);
    assert At(g, z.pages, g.Start(i)) == z.pages[k].words[offset];
    AfterLastSlot(g);
    if i > g.Objs() { SlotsApart(g, g.Objs(), i); }
    assert (k + 1) * g.P == k * g.P + g.P;
    StartsBefore(g, k + 1, i);
  }

  lemma PageDone(g: Geometry, k: nat, n: nat, i: nat)
    requires g.Ok() && g.Start(FirstIdx(g, k) + n) - k * g.P >= g.P && i < FirstIdx(g, k + 1)
    ensures i < FirstIdx(g, k) + n
  {
    assert (k + 1) * g.P == k * g.P + g.P;
    StartsBefore(g, k + 1, FirstIdx(g, k) + n);
  }

  lemma LastPage(g: Geometry, i: nat)
    requires g.Ok() && i < g.Objs()
    ensures i < FirstIdx(g, g.npages)
  {
    SlotInside(g, i);
    StartsBefore(g, g.npages, i);
  }

  lemma FirstPage(g: Geometry)
    requires g.sz > 0
    ensures FirstIdx(g, 0) == 0
  {
    DivUnique(g.sz - 1, g.sz, 0);
  }

  /** The zspage part of PoolOk, with real handles in the headers. */
  lemma PoolZspage(c: Config, p: Pool, fl: Lists, z: nat)
    requires PoolOk(c, p, fl) && z in p.zs
    ensures Headed(c.g, p.zs[z], fl[z])
  {
    hide Header, StartPfn, Encode, Geometry.Objs, Linked, Chain, TailFree;
    assert ZspageOk(c, p, fl, z);
    forall i | 0 <= i < c.g.Objs() && i !in fl[z] ensures Header(c.g, p.zs[z].pages, i) > 1 {
      assert SlotOk(c, p, p.zs[z].pages, i);
      assert HandleOk(c, p, fl, Header(c.g, p.zs[z].pages, i) - 1);
    }
  }

  /** A zspage all of whose slots are free has nothing in use. */
  lemma Drained(g: Geometry, z: Zspage, fl: seq<nat>)
    requires Headed(g, z, fl)
    requires forall i :: 0 <= i < FirstIdx(g, g.npages) && i < g.Objs() ==> i in fl
    ensures z.inuse == 0
  {
    hide FirstIdx, Geometry.Objs, Header, Linked, Chain, TailFree, Shape;
    forall i | 0 <= i < g.Objs() ensures i in fl { LastPage(g, i); }
    SubsetSize(Below(g.Objs()), Elements(fl));
  }
}
