/** One zspage: its pages, the free list threaded through its slots, and the allocation tags. */
module ZsPage {
  import opened Counting
  import opened ZsLayout

  /** page->index: nothing, the next page of the chain, or (huge classes only) the tagged handle. */
  datatype Link = NoLink | Next(pfn: nat) | Tagged(w: Word)

  datatype Page = Page(pfn: nat, words: seq<Word>, index: Link, firstObj: nat)

  datatype Zspage = Zspage(pages: seq<Page>, inuse: nat, freeobj: nat)

  predicate Shape(g: Geometry, pages: seq<Page>) {
    |pages| == g.npages && forall k :: 0 <= k < |pages| ==> |pages[k].words| == g.P
  }

  /** The word at a position of the chain. */
  function At(g: Geometry, pages: seq<Page>, pos: nat): Word
    requires g.Ok() && Shape(g, pages) && pos < g.Total()
  {
    PosInPage(g, pos);
    pages[g.PageOf(pos)].words[g.OffOf(pos)]
  }

  function Put(g: Geometry, pages: seq<Page>, pos: nat, w: Word): (pages': seq<Page>)
    requires g.Ok() && Shape(g, pages) && pos < g.Total()
    ensures Shape(g, pages') && SameFrames(pages, pages')
  {
    PosInPage(g, pos);
    var p := pages[g.PageOf(pos)];
    pages[g.PageOf(pos) := p.(words := p.words[g.OffOf(pos) := w])]
  }

  /** Same page frames in the same order with the same links; only words may differ. */
  predicate SameFrames(pages: seq<Page>, pages': seq<Page>) {
    |pages'| == |pages| &&
    forall k :: 0 <= k < |pages| ==>
      pages'[k].pfn == pages[k].pfn && pages'[k].index == pages[k].index && pages'[k].firstObj == pages[k].firstObj
  }

  lemma PutAt(g: Geometry, pages: seq<Page>, a: nat, w: Word, b: nat)
    requires g.Ok() && Shape(g, pages) && a < g.Total() && b < g.Total()
    ensures At(g, Put(g, pages, a, w), b) == if a == b then w else At(g, pages, b)
  {
    PosInPage(g, a);
    PosInPage(g, b);
  }

  // ---------------------------------------------------------------------------------------------
  // Headers, payloads and the invariant.

  /** Where the tag of a slot is kept: its first word, or page->index in a huge class. */
  function Header(g: Geometry, pages: seq<Page>, idx: nat): Word
    requires g.Ok() && Shape(g, pages) && idx < g.Objs()
  {
    SlotInside(g, idx);
    if g.Huge() then (if pages[0].index.Tagged? then pages[0].index.w else 0)
    else At(g, pages, g.Start(idx))
  }

  /** The words that belong to the user of a slot. */
  function Payload(g: Geometry, pages: seq<Page>, idx: nat): (s: seq<Word>)
    requires g.Ok() && Shape(g, pages) && idx < g.Objs()
    ensures |s| == if g.Huge() then g.sz else g.sz - 1
  {
    SlotInside(g, idx);
    var skip := if g.Huge() then 0 else 1;
    seq<Word>(g.sz - skip, k requires 0 <= k < g.sz - skip => At(g, pages, g.Start(idx) + skip + k))
  }

  /** Offset in page k of the first slot that starts there. */
  function FirstObj(g: Geometry, k: nat): int
    requires g.sz > 0
  {
    g.Start(FirstIdx(g, k)) - k * g.P
  }

  /** The chain of pages is linked in order, its frames are distinct, and each page knows where its first slot
      starts. */
  predicate Linked(g: Geometry, pages: seq<Page>)
    requires g.sz > 0
  {
    && |pages| == g.npages
    && (forall i, j :: 0 <= i < j < |pages| ==> pages[i].pfn != pages[j].pfn)
    && (forall k :: 0 <= k < |pages| ==> pages[k].firstObj == FirstObj(g, k))
    && (forall k :: 0 <= k < |pages| - 1 ==> pages[k].index == Next(pages[k + 1].pfn))
    && (!g.Huge() && |pages| > 0 ==> pages[|pages| - 1].index == NoLink)
  }

  /** Values of freeobj that mark the end of the list. Reading back the initial -1UL << 1 gives 2^32-1;
      shifting that as an unsigned int and reading it back again gives 2^31-1. */
  predicate IsEnd(g: Geometry, e: nat)
    requires g.sz > 0
  {
    if g.Tail() then e == g.Objs() else e == UINT - 1 || e == UINT / 2 - 1
  }

  /** link->next >> OBJ_TAG_BITS, kept in an unsigned int. */
  function NextOf(w: Word): nat { w / 2 % UINT }

  /** An unsigned int shifted left by OBJ_TAG_BITS. */
  function LinkTo(idx: nat): Word { 2 * idx % UINT }

  /** The list from freeobj runs through `fl` and then ends. */
  predicate Chain(g: Geometry, z: Zspage, fl: seq<nat>)
    requires g.Ok() && Shape(g, z.pages) && forall i :: 0 <= i < |fl| ==> fl[i] < g.Objs()
  {
    if g.Huge() then fl != [] ==> z.freeobj == 0
    else
      && (if fl == [] then IsEnd(g, z.freeobj) else z.freeobj == fl[0])
      && (forall i :: 0 <= i < |fl| - 1 ==> Header(g, z.pages, fl[i]) == LinkTo(fl[i + 1]))
      && (fl != [] ==> IsEnd(g, NextOf(Header(g, z.pages, fl[|fl| - 1]))))
  }

  /** The partial chunk after the last slot, if there is one, is never tagged as allocated. */
  predicate TailFree(g: Geometry, pages: seq<Page>)
    requires g.Ok() && Shape(g, pages)
  {
    g.Tail() ==> At(g, pages, g.Start(g.Objs())) % 2 == 0
  }

  /** The invariant of a zspage: `fl` is exactly the set of unallocated slots, without repetition, in list order;
      the tag bit marks exactly the others. */
  predicate ZsOk(g: Geometry, z: Zspage, fl: seq<nat>) {
    && g.Ok() && Shape(g, z.pages) && Linked(g, z.pages)
    && (forall i :: 0 <= i < |fl| ==> fl[i] < g.Objs())
    && Distinct(fl) && |fl| + z.inuse == g.Objs()
    && (forall idx :: 0 <= idx < g.Objs() ==> (idx in fl <==> Header(g, z.pages, idx) % 2 == 0))
    && Chain(g, z, fl) && TailFree(g, z.pages)
  }

  // ---------------------------------------------------------------------------------------------
  // obj_malloc and obj_free on one zspage.

  /** The part of obj_malloc that works on the zspage. */
  function Take(g: Geometry, z: Zspage, handle: Word): (z': Zspage)
    requires g.Ok() && Shape(g, z.pages) && z.freeobj < g.Objs() && handle + 1 < WORDS
    ensures Shape(g, z'.pages) && z'.inuse == z.inuse + 1
  {
    SlotInside(g, z.freeobj);
    var pos := g.Start(z.freeobj);
    var next := NextOf(At(g, z.pages, pos));
    var pages := if g.Huge() then z.pages[0 := z.pages[0].(index := Tagged(handle + 1))]
                 else Put(g, z.pages, pos, handle + 1);
    Zspage(pages, z.inuse + 1, next)
  }

  /** obj_free. */
  function Give(g: Geometry, z: Zspage, idx: nat): (z': Zspage)
    requires g.Ok() && Shape(g, z.pages) && idx < g.Objs() && z.inuse > 0
    ensures Shape(g, z'.pages) && z'.inuse == z.inuse - 1
  {
    SlotInside(g, idx);
    var pages := if g.Huge() then z.pages[0 := z.pages[0].(index := NoLink)]
                 else Put(g, z.pages, g.Start(idx), LinkTo(z.freeobj));
    Zspage(pages, z.inuse - 1, idx)
  }

  /** Only the header of slot `idx` may differ. */
  predicate OnlyHeader(g: Geometry, pages: seq<Page>, pages': seq<Page>, idx: nat)
    requires g.Ok() && Shape(g, pages) && Shape(g, pages')
  {
    && (forall i :: 0 <= i < g.Objs() ==>
      (i != idx ==> Header(g, pages', i) == Header(g, pages, i)) && Payload(g, pages', i) == Payload(g, pages, i))
    && (TailFree(g, pages) ==> TailFree(g, pages'))
  }

  /** Writing the header of one slot leaves every payload and every other header alone. */
  lemma HeaderWrite(g: Geometry, pages: seq<Page>, idx: nat, w: Word)
    requires g.Ok() && Shape(g, pages) && idx < g.Objs() && !g.Huge() && g.Start(idx) < g.Total()
    ensures Header(g, pages, idx) == At(g, pages, g.Start(idx))
    ensures Header(g, Put(g, pages, g.Start(idx), w), idx) == w
    ensures OnlyHeader(g, pages, Put(g, pages, g.Start(idx), w), idx)
  {
    var pages' := Put(g, pages, g.Start(idx), w);
    forall i | 0 <= i < g.Objs()
      ensures Header(g, pages', i) == (if i == idx then w else Header(g, pages, i))
      ensures Payload(g, pages', i) == Payload(g, pages, i)
    {
      SlotInside(g, i);
      if i < idx { SlotsApart(g, i, idx); }
      if idx < i { SlotsApart(g, idx, i); }
      forall b | 0 <= b < g.Total()
        ensures At(g, pages', b) == if b == g.Start(idx) then w else At(g, pages, b)
      {
        PutAt(g, pages, g.Start(idx), w, b);
      }
    }
    SlotsApart(g, idx, g.Objs());
    if g.Tail() { PutAt(g, pages, g.Start(idx), w, g.Start(g.Objs())); }
  }

  /** The huge case: the header is page->index, the words are untouched. */
  lemma HugeWrite(g: Geometry, pages: seq<Page>, link: Link)
    requires g.Ok() && Shape(g, pages) && g.Huge()
    ensures var pages' := pages[0 := pages[0].(index := link)];
      && Shape(g, pages')
      && Header(g, pages', 0) == (if link.Tagged? then link.w else 0)
      && OnlyHeader(g, pages, pages', 0)
  {
    var pages' := pages[0 := pages[0].(index := link)];
    forall b | 0 <= b < g.Total() ensures At(g, pages', b) == At(g, pages, b) {
      PosInPage(g, b);
    }
    SlotInside(g, 0);
  }

  lemma LinkRoundTrip(idx: nat)
    requires idx < UINT / 2
    ensures NextOf(LinkTo(idx)) == idx && LinkTo(idx) % 2 == 0
  {
  }

  lemma EndRoundTrip(g: Geometry, e: nat)
    requires g.Ok() && IsEnd(g, e)
    ensures IsEnd(g, NextOf(LinkTo(e))) && LinkTo(e) % 2 == 0
  {
  }

  /** What obj_malloc does to a zspage with a free slot: it hands out the first slot of the list. */
  lemma TakeOk(g: Geometry, z: Zspage, fl: seq<nat>, handle: Word)
    requires ZsOk(g, z, fl) && fl != [] && handle + 1 < WORDS && handle % 2 == 0
    ensures z.freeobj == fl[0]
    ensures ZsOk(g, Take(g, z, handle), fl[1..])
    ensures Header(g, Take(g, z, handle).pages, fl[0]) == handle + 1
    ensures OnlyHeader(g, z.pages, Take(g, z, handle).pages, fl[0])
  {
    hide Header, Payload, At, Put, NextOf, LinkTo, FirstObj, IsEnd, Chain, TailFree, Geometry.Objs, Geometry.Start;
    TakeChain(g, z, fl, handle);
    var idx := fl[0];
    SlotInside(g, idx);
    if g.Huge() {
      HugeWrite(g, z.pages, Tagged(handle + 1));
    } else {
      HeaderWrite(g, z.pages, idx, handle + 1);
    }
    forall i | 0 <= i < g.Objs() ensures i in fl[1..] <==> i in fl && i != idx {
      assert fl == [idx] + fl[1..];
    }
  }

  lemma TakeChain(g: Geometry, z: Zspage, fl: seq<nat>, handle: Word)
    requires ZsOk(g, z, fl) && fl != [] && handle + 1 < WORDS && handle % 2 == 0
    ensures z.freeobj == fl[0]
    ensures Chain(g, Take(g, z, handle), fl[1..])
  {
    hide Header, Payload, At, Put, NextOf, LinkTo, FirstObj, IsEnd, Geometry.Objs, Geometry.Start;
    SlotInside(g, fl[0]);
    if !g.Huge() {
      HeaderWrite(g, z.pages, fl[0], handle + 1);
      if |fl| > 1 { LinkRoundTrip(fl[1]); }
    }
  }

  /** What obj_free does: the slot goes to the front of the list. */
  lemma GiveOk(g: Geometry, z: Zspage, fl: seq<nat>, idx: nat)
    requires ZsOk(g, z, fl) && idx < g.Objs() && idx !in fl
    ensures z.inuse > 0
    ensures ZsOk(g, Give(g, z, idx), [idx] + fl)
    ensures OnlyHeader(g, z.pages, Give(g, z, idx).pages, idx)
  {
    hide Header, Payload, At, Put, NextOf, LinkTo, FirstObj, IsEnd, Chain, TailFree, Geometry.Objs, Geometry.Start;
    if z.inuse == 0 { AllSlots(fl, g.Objs(), idx); }
    SlotInside(g, idx);
    GiveChain(g, z, fl, idx);
    if g.Huge() {
      HugeWrite(g, z.pages, NoLink);
    } else {
      HeaderWrite(g, z.pages, idx, LinkTo(z.freeobj));
    }
  }

  lemma GiveChain(g: Geometry, z: Zspage, fl: seq<nat>, idx: nat)
    requires ZsOk(g, z, fl) && idx < g.Objs() && idx !in fl && z.inuse > 0
    ensures Chain(g, Give(g, z, idx), [idx] + fl)
    ensures !g.Huge() ==> LinkTo(z.freeobj) % 2 == 0
  {
    hide Header, Payload, At, Put, NextOf, LinkTo, FirstObj, IsEnd, Geometry.Objs, Geometry.Start;
    SlotInside(g, idx);
    if !g.Huge() {
      HeaderWrite(g, z.pages, idx, LinkTo(z.freeobj));
      if fl == [] { EndRoundTrip(g, z.freeobj); } else { LinkRoundTrip(fl[0]); }
      var fl' := [idx] + fl;
      assert forall i :: 1 <= i < |fl'| ==> fl'[i] == fl[i - 1] && fl'[i] != idx;
    }
  }

  /** n distinct slots out of n are all of them. */
  lemma AllSlots(fl: seq<nat>, n: nat, idx: nat)
    requires |fl| == n && Distinct(fl) && idx < n
    requires forall i :: 0 <= i < |fl| ==> fl[i] < n
    ensures idx in fl
  {
    if idx !in fl { SubsetSize(Elements(fl), Below(n) - {idx}); }
  }
}
