/** The loops of zsmalloc that write page memory: chain creation, free-list initialisation, object copy and mapping. */
module ZsMemory {
  import opened Arith
  import opened ZsLayout
  import opened ZsPage

  const END_LINK: Word := 0xffff_ffff_ffff_fffe

  /** One store through a mapped page. */
  function Store(pages: seq<Page>, page: nat, off: nat, w: Word): seq<Page>
    requires page < |pages| && off < |pages[page].words|
  {
    pages[page := pages[page].(words := pages[page].words[off := w])]
  }

  lemma StoreIsPut(g: Geometry, pages: seq<Page>, page: nat, off: nat, w: Word)
    requires g.Ok() && Shape(g, pages) && page < g.npages && off < g.P
    ensures page * g.P + off < g.Total()
    ensures Store(pages, page, off, w) == Put(g, pages, page * g.P + off, w)
  {
    PagePos(g, page, off);
  }

  // ---------------------------------------------------------------------------------------------
  // create_page_chain

  predicate DistinctFrames(pages: seq<Page>) {
    forall i, j :: 0 <= i < j < |pages| ==> pages[i].pfn != pages[j].pfn
  }

  /** The links of the first n pages are those of a chain that ends at page n - 1. */
  predicate ChainUpTo(pages: seq<Page>, n: nat)
    requires n <= |pages|
  {
    && (forall k :: 0 <= k < n - 1 ==> pages[k].index == Next(pages[k + 1].pfn))
    && (n > 0 ==> pages[n - 1].index == NoLink)
  }

  /** create_page_chain: link the given pages in their order; nothing but the links changes. */
  method CreatePageChain(given: seq<Page>) returns (pages: seq<Page>)
    ensures |pages| == |given| && ChainUpTo(pages, |pages|)
    ensures forall k :: 0 <= k < |given| ==> pages[k] == given[k].(index := pages[k].index)
  {
    pages := given;
    var i := 0;
    while i < |given|
      invariant 0 <= i <= |given| == |pages| && ChainUpTo(pages, i)
      invariant forall k :: 0 <= k < |given| ==> pages[k] == given[k].(index := pages[k].index)
    {
      pages := pages[i := pages[i].(index := NoLink)];
      if i > 0 {
        pages := pages[i - 1 := pages[i - 1].(index := Next(pages[i].pfn))];
      }
      i := i + 1;
    }
  }

  // ---------------------------------------------------------------------------------------------
  // init_zspage

  function Iota(n: nat): (s: seq<nat>)
    ensures |s| == n && forall i :: 0 <= i < n ==> s[i] == i
  {
    seq(n, i => i)
  }

  /** Slots 0 .. n-1 each link to the next one. */
  ghost predicate LinkedUpTo(g: Geometry, pages: seq<Page>, n: nat)
    requires g.Ok() && Shape(g, pages)
  {
    forall i :: 0 <= i < n ==> g.Start(i) < g.Total() && At(g, pages, g.Start(i)) == LinkTo(i + 1)
  }

  lemma StartNext(g: Geometry, i: nat)
    ensures g.Start(i + 1) == g.Start(i) + g.sz && g.Start(0) == 0
  {
  }

  lemma FirstObjIs(g: Geometry, k: nat, off: nat, i: nat)
    requires g.Ok() && off < g.sz && g.Start(i) == k * g.P + off
    ensures FirstObj(g, k) == off
  {
    DivUnique(k * g.P + g.sz - 1, g.sz, i);
  }

  lemma LinkSlot(g: Geometry, pages: seq<Page>, page: nat, off: nat, i: nat, w: Word)
    requires g.Ok() && Shape(g, pages) && page < g.npages && off < g.P
    requires g.Start(i) == page * g.P + off && LinkedUpTo(g, pages, i)
    ensures Shape(g, Store(pages, page, off, w)) && SameFrames(pages, Store(pages, page, off, w))
    ensures g.Start(i) < g.Total() && At(g, Store(pages, page, off, w), g.Start(i)) == w
    ensures LinkedUpTo(g, Store(pages, page, off, w), i)
    ensures w == LinkTo(i + 1) ==> LinkedUpTo(g, Store(pages, page, off, w), i + 1)
  {
    StoreIsPut(g, pages, page, off, w);
    var pages' := Store(pages, page, off, w);
    PutAt(g, pages, g.Start(i), w, g.Start(i));
    forall j | 0 <= j < i ensures g.Start(j) < g.Total() && At(g, pages', g.Start(j)) == LinkTo(j + 1) {
      SlotsApart(g, j, i);
      PutAt(g, pages, g.Start(i), w, g.Start(j));
    }
  }

  /** Chunk L is the last one that starts inside the chain; the chunks before it are linked and it holds the end
      mark. */
  ghost predicate LastLink(g: Geometry, pages: seq<Page>, L: nat)
    requires g.Ok() && Shape(g, pages)
  {
    g.Start(L) < g.Total() <= g.Start(L) + g.sz && LinkedUpTo(g, pages, L) && At(g, pages, g.Start(L)) == END_LINK
  }

  function SetFirst(pages: seq<Page>, p: nat, off: nat): seq<Page>
    requires p < |pages|
  {
    pages[p := pages[p].(firstObj := off)]
  }

  lemma SetFirstKeeps(g: Geometry, pages: seq<Page>, p: nat, off: nat, n: nat)
    requires g.Ok() && Shape(g, pages) && p < g.npages && LinkedUpTo(g, pages, n)
    ensures Shape(g, SetFirst(pages, p, off)) && LinkedUpTo(g, SetFirst(pages, p, off), n)
  {
    var pages' := SetFirst(pages, p, off);
    forall i | 0 <= i < n ensures g.Start(i) < g.Total() && At(g, pages', g.Start(i)) == LinkTo(i + 1) {
      PosInPage(g, g.Start(i));
    }
  }

  /** The last chunk is the last slot, or the partial one after it. */
  lemma LastChunk(g: Geometry, L: nat)
    requires g.Ok() && g.Start(L) < g.Total() <= g.Start(L) + g.sz
    ensures L == if g.Tail() then g.Objs() else g.Objs() - 1
  {
    AfterLastSlot(g);
    if L > g.Objs() { SlotsApart(g, g.Objs(), L); }
    StartNext(g, L);
    if L + 1 < g.Objs() { SlotsApart(g, L + 1, g.Objs()); }
  }

  lemma InitialHeader(g: Geometry, pages: seq<Page>, L: nat, i: nat)
    requires g.Ok() && Shape(g, pages) && LastLink(g, pages, L) && i < g.Objs()
    requires g.Huge() ==> pages[0].index == NoLink
    ensures !g.Huge() ==> i <= L && Header(g, pages, i) == if i < L then LinkTo(i + 1) else END_LINK
    ensures Header(g, pages, i) % 2 == 0
  {
    LastChunk(g, L);
    LinkRoundTrip(i + 1);
  }

  /** The list init_zspage builds is the free list of an empty zspage. */
  lemma InitialList(g: Geometry, z: Zspage, L: nat)
    requires g.Ok() && Shape(g, z.pages) && Linked(g, z.pages) && LastLink(g, z.pages, L)
    requires z.inuse == 0 && z.freeobj == 0
    requires g.Huge() ==> z.pages[0].index == NoLink
    ensures ZsOk(g, z, Iota(g.Objs()))
  {
    hide Header, At, LastLink, NextOf, LinkTo, FirstObj, Geometry.Objs, Geometry.Start, Linked;
    var n := g.Objs();
    AfterLastSlot(g);
    forall i | 0 <= i < n
      ensures !g.Huge() ==> i <= L && Header(g, z.pages, i) == if i < L then LinkTo(i + 1) else END_LINK
      ensures Header(g, z.pages, i) % 2 == 0 && i in Iota(n)
    {
      InitialHeader(g, z.pages, L, i);
      assert Iota(n)[i] == i;
    }
    EndMarks(g, z.pages, L);
    TailMark(g, z.pages, L);
  }

  lemma TailMark(g: Geometry, pages: seq<Page>, L: nat)
    requires g.Ok() && Shape(g, pages) && LastLink(g, pages, L)
    ensures TailFree(g, pages)
  {
    LastChunk(g, L);
  }

  lemma EndMarks(g: Geometry, pages: seq<Page>, L: nat)
    requires g.Ok() && Shape(g, pages) && LastLink(g, pages, L)
    ensures L == if g.Tail() then g.Objs() else g.Objs() - 1
    ensures IsEnd(g, NextOf(if g.Tail() then LinkTo(g.Objs()) else END_LINK))
  {
    LastChunk(g, L);
    LinkRoundTrip(g.Objs());
  }

  /** The body of init_zspage for one page: link every chunk that starts in it. `i` is the first such chunk. */
  method LinkPage(g: Geometry, given: seq<Page>, p: nat, first: nat, i: nat)
    returns (pages: seq<Page>, off: nat, freeobj: nat)
    requires g.Ok() && Shape(g, given) && p < g.npages && first < g.sz
    requires g.Start(i) == p * g.P + first && LinkedUpTo(g, given, i)
    ensures Shape(g, pages) && SameFrames(given, pages)
    ensures p + 1 < g.npages ==>
      off < g.sz && freeobj > 0 && g.Start(freeobj - 1) == (p + 1) * g.P + off && LinkedUpTo(g, pages, freeobj - 1)
    ensures p + 1 == g.npages ==> freeobj > 0 && LastLink(g, pages, freeobj - 1)
  {
    hide At, Geometry.Start, LinkTo;
    pages, freeobj := given, i + 1;
    off := first + g.sz;
    while off < g.P
      invariant g.sz <= off < g.P + g.sz && Shape(g, pages) && SameFrames(given, pages)
      invariant freeobj >= 1 && g.Start(freeobj - 1) == p * g.P + (off - g.sz)
      invariant LinkedUpTo(g, pages, freeobj - 1)
      decreases g.P - off
    {
      LinkSlot(g, pages, p, off - g.sz, freeobj - 1, LinkTo(freeobj));
      pages := Store(pages, p, off - g.sz, LinkTo(freeobj));
      StartNext(g, freeobj - 1);
      freeobj := freeobj + 1;
      off := off + g.sz;
    }
    StartNext(g, freeobj - 1);
    assert (p + 1) * g.P == p * g.P + g.P;
    if p + 1 < g.npages {
      LinkSlot(g, pages, p, off - g.sz, freeobj - 1, LinkTo(freeobj));
      pages := Store(pages, p, off - g.sz, LinkTo(freeobj));
      freeobj := freeobj + 1;
    } else {
      LinkSlot(g, pages, p, off - g.sz, freeobj - 1, END_LINK);
      pages := Store(pages, p, off - g.sz, END_LINK);
    }
    DivUnique(off, g.P, 1);
    off := off % g.P;
  }

  /** init_zspage: thread the free list through all slots in order and note the first slot of each page. */
  method InitZspage(g: Geometry, given: seq<Page>) returns (z: Zspage)
    requires g.Ok() && Shape(g, given) && DistinctFrames(given) && ChainUpTo(given, |given|)
    ensures ZsOk(g, z, Iota(g.Objs())) && z.inuse == 0
    ensures |z.pages| == |given| && forall k :: 0 <= k < |given| ==> z.pages[k].pfn == given[k].pfn
  {
    hide At, Geometry.Start, LinkTo, FirstObj, ZsOk;
    var pages := given;
    var freeobj, off, p := 1, 0, 0;
    StartNext(g, 0);
    while p < g.npages
      invariant 0 <= p <= g.npages && Shape(g, pages)
      invariant p < g.npages ==> 0 <= off < g.sz && freeobj >= 1 && g.Start(freeobj - 1) == p * g.P + off
      invariant p < g.npages ==> LinkedUpTo(g, pages, freeobj - 1)
      invariant p == g.npages ==> freeobj >= 1 && LastLink(g, pages, freeobj - 1)
      invariant forall k :: 0 <= k < |pages| ==> pages[k].pfn == given[k].pfn && pages[k].index == given[k].index
      invariant forall k :: 0 <= k < p ==> pages[k].firstObj == FirstObj(g, k)
    {
      FirstObjIs(g, p, off, freeobj - 1);
      SetFirstKeeps(g, pages, p, off, freeobj - 1);
      pages := SetFirst(pages, p, off);
      pages, off, freeobj := LinkPage(g, pages, p, off, freeobj - 1);
      p := p + 1;
    }
    z := Zspage(pages, 0, 0);
    InitialList(g, z, freeobj - 1);
  }

  // ---------------------------------------------------------------------------------------------
  // zs_object_copy, __zs_map_object and __zs_unmap_object

  /** memcpy into one page. */
  function Memcpy(pages: seq<Page>, page: nat, off: nat, chunk: seq<Word>): seq<Page>
    requires page < |pages| && off + |chunk| <= |pages[page].words|
  {
    var w := pages[page].words;
    pages[page := pages[page].(words := w[..off] + chunk + w[off + |chunk|..])]
  }

  lemma MemcpyAt(g: Geometry, pages: seq<Page>, page: nat, off: nat, chunk: seq<Word>, b: nat)
    requires g.Ok() && Shape(g, pages) && page < g.npages && off + |chunk| <= g.P && b < g.Total()
    ensures var pages' := Memcpy(pages, page, off, chunk);
      var from := page * g.P + off;
      Shape(g, pages') && At(g, pages', b) == if from <= b < from + |chunk| then chunk[b - from] else At(g, pages, b)
  {
    PosInPage(g, b);
    if g.PageOf(b) < page {
      MulMonotone(g.PageOf(b) + 1, page, g.P);
      assert (g.PageOf(b) + 1) * g.P == g.PageOf(b) * g.P + g.P;
    } else if g.PageOf(b) > page {
      MulMonotone(page + 1, g.PageOf(b), g.P);
      assert (page + 1) * g.P == page * g.P + g.P;
    }
  }

  /** `to` is `from` except that n words starting at position d were copied from position s of `src`. */
  ghost predicate Copied(g: Geometry, src: seq<Page>, s: nat, from: seq<Page>, to: seq<Page>, d: nat, n: nat)
    requires g.Ok() && Shape(g, src) && Shape(g, from) && Shape(g, to)
    requires s + n <= g.Total() && d + n <= g.Total()
  {
    forall b :: 0 <= b < g.Total() ==>
      At(g, to, b) == if d <= b < d + n then At(g, src, s + (b - d)) else At(g, from, b)
  }

  lemma PageAt(g: Geometry, pages: seq<Page>, page: nat, off: nat)
    requires g.Ok() && Shape(g, pages) && page < g.npages && off < g.P
    ensures page * g.P + off < g.Total() && At(g, pages, page * g.P + off) == pages[page].words[off]
  {
    PagePos(g, page, off);
  }

  lemma PageEnd(g: Geometry, page: nat)
    requires page < g.npages
    ensures page * g.P + g.P <= g.Total()
  {
    MulMonotone(page + 1, g.npages, g.P);
    assert (page + 1) * g.P == page * g.P + g.P;
  }

  lemma PageChunk(g: Geometry, pages: seq<Page>, page: nat, off: nat, chunk: seq<Word>)
    requires g.Ok() && Shape(g, pages) && page < g.npages && off + |chunk| <= g.P
    requires chunk == pages[page].words[off..off + |chunk|]
    ensures page * g.P + off + |chunk| <= g.Total()
    ensures forall k :: 0 <= k < |chunk| ==> chunk[k] == At(g, pages, page * g.P + off + k)
  {
    hide At, Geometry.Total;
    PageEnd(g, page);
    forall k | 0 <= k < |chunk| ensures chunk[k] == At(g, pages, page * g.P + off + k) {
      PageAt(g, pages, page, off + k);
      assert page * g.P + (off + k) == page * g.P + off + k;
    }
  }

  /** One memcpy extends the copied part. */
  lemma CopyMore(g: Geometry, src: seq<Page>, s: nat, from: seq<Page>, to: seq<Page>, d: nat, done: nat,
                 sPage: nat, sOff: nat, dPage: nat, dOff: nat, n: nat)
    requires g.Ok() && Shape(g, src) && Shape(g, from) && Shape(g, to)
    requires sPage < g.npages && sOff + n <= g.P && dPage < g.npages && dOff + n <= g.P
    requires s + done == sPage * g.P + sOff && d + done == dPage * g.P + dOff
    requires s + done <= g.Total() && d + done <= g.Total() && Copied(g, src, s, from, to, d, done)
    ensures s + done + n <= g.Total() && d + done + n <= g.Total()
    ensures var to' := Memcpy(to, dPage, dOff, src[sPage].words[sOff..sOff + n]);
      Shape(g, to') && SameFrames(to, to') && Copied(g, src, s, from, to', d, done + n)
  {
    hide At, Geometry.Total;
    var chunk := src[sPage].words[sOff..sOff + n];
    PageChunk(g, src, sPage, sOff, chunk);
    PageChunk(g, to, dPage, dOff, to[dPage].words[dOff..dOff + n]);
    var to' := Memcpy(to, dPage, dOff, chunk);
    forall b | 0 <= b < g.Total()
      ensures At(g, to', b) == if d <= b < d + done + n then At(g, src, s + (b - d)) else At(g, from, b)
    {
      MemcpyAt(g, to, dPage, dOff, chunk, b);
      if d + done <= b < d + done + n {
        assert chunk[b - (d + done)] == At(g, src, sPage * g.P + sOff + (b - (d + done)));
      }
    }
  }

  /** s_page, s_off and s_size of zs_object_copy (or their d_ twins). */
  datatype Cursor = Cursor(page: nat, off: nat, size: nat)

  /** The cursor stands `written` words into the slot that starts at `start`; `size` words can be moved before a page
      ends. */
  predicate Stands(g: Geometry, c: Cursor, start: nat, written: nat) {
    && c.page < g.npages && c.off < g.P && written < g.sz && start + g.sz <= g.Total()
    && start + written == c.page * g.P + c.off
    && c.size == Min(g.P - c.off, g.sz - written)
  }

  function FirstCursor(g: Geometry, idx: nat): (c: Cursor)
    requires g.Ok() && idx < g.Objs()
    ensures Stands(g, c, g.Start(idx), 0)
  {
    SlotInside(g, idx);
    PosInPage(g, g.Start(idx));
    var off := g.OffOf(g.Start(idx));
    Cursor(g.PageOf(g.Start(idx)), off, if off + g.sz > g.P then g.P - off else g.sz)
  }

  /** Move on by n words; at the end of the page go to the next one. */
  function Advance(g: Geometry, c: Cursor, n: nat, start: nat, written: nat): (c': Cursor)
    requires g.Ok() && Stands(g, c, start, written) && n <= c.size && written + n < g.sz
    ensures Stands(g, c', start, written + n)
  {
    if c.off + n >= g.P then
      NextPage(g, start + written + n, c.page);
      Cursor(c.page + 1, 0, g.sz - (written + n))
    else Cursor(c.page, c.off + n, c.size - n)
  }

  /** zs_object_copy: copy a slot between two zspages, page piece by page piece, wherever either side straddles. */
  method ObjectCopy(g: Geometry, src: seq<Page>, s: nat, given: seq<Page>, d: nat) returns (dst: seq<Page>)
    requires g.Ok() && Shape(g, src) && Shape(g, given) && s < g.Objs() && d < g.Objs()
    ensures Shape(g, dst) && SameFrames(given, dst)
    ensures g.Start(s) + g.sz <= g.Total() && g.Start(d) + g.sz <= g.Total()
    ensures Copied(g, src, g.Start(s), given, dst, g.Start(d), g.sz)
  {
    hide At, Copied, Memcpy, SameFrames, Advance, FirstCursor;
    hide Geometry.PageOf, Geometry.OffOf, Geometry.Start, Geometry.Total, Geometry.Objs;
    var from, to := FirstCursor(g, s), FirstCursor(g, d);
    dst := given;
    var written := 0;
    NothingCopied(g, src, g.Start(s), given, g.Start(d));
    while true
      invariant 0 <= written < g.sz && Shape(g, dst) && SameFrames(given, dst)
      invariant Stands(g, from, g.Start(s), written) && Stands(g, to, g.Start(d), written)
      invariant Copied(g, src, g.Start(s), given, dst, g.Start(d), written)
      decreases g.sz - written
    {
      var size := Min(from.size, to.size);
      CopyMore(g, src, g.Start(s), given, dst, g.Start(d), written, from.page, from.off, to.page, to.off, size);
      var next := Memcpy(dst, to.page, to.off, src[from.page].words[from.off..from.off + size]);
      SameFramesTrans(given, dst, next);
      dst := next;
      if written + size == g.sz { break; }
      from, to := Advance(g, from, size, g.Start(s), written), Advance(g, to, size, g.Start(d), written);
      written := written + size;
    }
  }

  function Min(a: int, b: int): int { if a < b then a else b }

  lemma NothingCopied(g: Geometry, src: seq<Page>, s: nat, pages: seq<Page>, d: nat)
    requires g.Ok() && Shape(g, src) && Shape(g, pages) && s <= g.Total() && d <= g.Total()
    ensures Copied(g, src, s, pages, pages, d, 0) && SameFrames(pages, pages)
  {
  }

  lemma SameFramesTrans(a: seq<Page>, b: seq<Page>, c: seq<Page>)
    requires SameFrames(a, b) && SameFrames(b, c)
    ensures SameFrames(a, c)
  {
  }

  /** A position at the end of a page, still inside the chain, is the start of the next page. */
  lemma NextPage(g: Geometry, pos: nat, page: nat)
    requires g.Ok() && pos < g.Total() && pos == page * g.P + g.P
    ensures page + 1 < g.npages && pos == (page + 1) * g.P
  {
    assert (page + 1) * g.P == page * g.P + g.P;
    if page + 1 >= g.npages { MulMonotone(g.npages, page + 1, g.P); }
  }

  /** Copying a whole slot copies its header and payload and touches no other slot. */
  lemma CopiedSlot(g: Geometry, src: seq<Page>, s: nat, from: seq<Page>, to: seq<Page>, d: nat)
    requires g.Ok() && !g.Huge() && Shape(g, src) && Shape(g, from) && Shape(g, to) && s < g.Objs() && d < g.Objs()
    requires g.Start(s) + g.sz <= g.Total() && g.Start(d) + g.sz <= g.Total()
    requires Copied(g, src, g.Start(s), from, to, g.Start(d), g.sz)
    ensures Header(g, to, d) == Header(g, src, s) && Payload(g, to, d) == Payload(g, src, s)
    ensures forall i :: 0 <= i < g.Objs() && i != d ==>
      Header(g, to, i) == Header(g, from, i) && Payload(g, to, i) == Payload(g, from, i)
    ensures TailFree(g, from) ==> TailFree(g, to)
  {
    hide At;
    SlotsApart(g, d, g.Objs());
    forall i | 0 <= i < g.Objs() && i != d
      ensures Header(g, to, i) == Header(g, from, i) && Payload(g, to, i) == Payload(g, from, i)
    {
      SlotInside(g, i);
      if i < d { SlotsApart(g, i, d); } else { SlotsApart(g, d, i); }
    }
  }

  /** __zs_map_object: gather a straddling slot into the per-cpu buffer. */
  method MapStraddling(g: Geometry, pages: seq<Page>, idx: nat) returns (buf: seq<Word>)
    requires g.Ok() && Shape(g, pages) && idx < g.Objs() && g.OffOf(g.Start(idx)) + g.sz > g.P
    ensures g.Start(idx) + g.sz <= g.Total()
    ensures |buf| == g.sz && forall k :: 0 <= k < g.sz ==> buf[k] == At(g, pages, g.Start(idx) + k)
  {
    hide At, Geometry.Start, Geometry.Total, Geometry.Objs;
    SlotInside(g, idx);
    PosInPage(g, g.Start(idx));
    var page, off := g.PageOf(g.Start(idx)), g.OffOf(g.Start(idx));
    var first := g.P - off;
    var head := pages[page].words[off..off + first];
    PageChunk(g, pages, page, off, head);
    NextPage(g, g.Start(idx) + first, page);
    var tail := pages[page + 1].words[0..g.sz - first];
    PageChunk(g, pages, page + 1, 0, tail);
    buf := head + tail;
    forall k | 0 <= k < g.sz ensures buf[k] == At(g, pages, g.Start(idx) + k) {
      if k < first { assert buf[k] == head[k]; } else { assert buf[k] == tail[k - first]; }
    }
  }

  /** __zs_unmap_object: scatter the buffer back, without its first word; only the payload of the slot is written. */
  method UnmapStraddling(g: Geometry, given: seq<Page>, idx: nat, buf: seq<Word>) returns (pages: seq<Page>)
    requires g.Ok() && Shape(g, given) && idx < g.Objs() && g.OffOf(g.Start(idx)) + g.sz > g.P && |buf| == g.sz
    ensures Shape(g, pages) && SameFrames(given, pages)
    ensures forall b :: 0 <= b < g.Total() ==>
      At(g, pages, b) == if g.Start(idx) < b < g.Start(idx) + g.sz then buf[b - g.Start(idx)] else At(g, given, b)
  {
    hide At, Geometry.Start;
    SlotInside(g, idx);
    PosInPage(g, g.Start(idx));
    var page, off := g.PageOf(g.Start(idx)), g.OffOf(g.Start(idx)) + 1;
    var first := g.P - off;
    NextPage(g, g.Start(idx) + 1 + first, page);
    var head, tail := buf[1..1 + first], buf[1 + first..];
    var half := Memcpy(given, page, off, head);
    pages := Memcpy(half, page + 1, 0, tail);
    forall b | 0 <= b < g.Total()
      ensures Shape(g, pages)
      ensures At(g, pages, b) == if g.Start(idx) < b < g.Start(idx) + g.sz then buf[b - g.Start(idx)]
        else At(g, given, b)
    {
      MemcpyAt(g, given, page, off, head, b);
      MemcpyAt(g, half, page + 1, 0, tail, b);
    }
  }

  /** ZS_HANDLE_SIZE in words, where the slot holds its own header. */
  function Skip(g: Geometry): nat requires g.sz > 0 { if g.Huge() then 0 else 1 }

  /** A slot that straddles lies in no huge class, where the one slot lies in the one page. */
  lemma StraddlingSkips(g: Geometry, idx: nat)
    requires g.Ok() && idx < g.Objs() && g.OffOf(g.Start(idx)) + g.sz > g.P
    ensures !g.Huge()
  {
    if g.Huge() { SlotInside(g, idx); assert false; }
  }

  /** _zs_map_object: the user's words, from the page or gathered. */
  method MapObject(g: Geometry, pages: seq<Page>, idx: nat) returns (data: seq<Word>)
    requires g.Ok() && Shape(g, pages) && idx < g.Objs()
    ensures data == Payload(g, pages, idx)
  {
    hide At, Geometry.Start, Geometry.Huge, Geometry.Total, Geometry.Objs;
    SlotInside(g, idx);
    PosInPage(g, g.Start(idx));
    var page, off := g.PageOf(g.Start(idx)), g.OffOf(g.Start(idx));
    var buf;
    if off + g.sz <= g.P {
      buf := pages[page].words[off..off + g.sz];
      PageChunk(g, pages, page, off, buf);
    } else {
      buf := MapStraddling(g, pages, idx);
    }
    data := buf[Skip(g)..];
  }

  /** zs_unmap_object, after the user has stored `data`: straight into the page, or through the buffer. */
  method UnmapObject(g: Geometry, given: seq<Page>, idx: nat, data: seq<Word>) returns (pages: seq<Page>)
    requires g.Ok() && Shape(g, given) && idx < g.Objs() && |data| == |Payload(g, given, idx)|
    ensures Shape(g, pages) && SameFrames(given, pages) && Stored(g, given, pages, idx, data)
  {
    hide At, Geometry.Start, Geometry.Huge, Geometry.Total, Geometry.Objs;
    SlotInside(g, idx);
    PosInPage(g, g.Start(idx));
    var page, off := g.PageOf(g.Start(idx)), g.OffOf(g.Start(idx));
    if off + g.sz <= g.P {
      pages := Memcpy(given, page, off + Skip(g), data);
      forall b | 0 <= b < g.Total()
        ensures Shape(g, pages) && At(g, pages, b) == WordAfter(g, given, idx, data, b)
      {
        MemcpyAt(g, given, page, off + Skip(g), data, b);
      }
    } else {
      StraddlingSkips(g, idx);
      pages := UnmapStraddling(g, given, idx, [0] + data);
    }
  }

  function WordAfter(g: Geometry, given: seq<Page>, idx: nat, data: seq<Word>, b: nat): Word
    requires g.Ok() && Shape(g, given) && |data| == g.sz - Skip(g) && b < g.Total()
  {
    var from := g.Start(idx) + Skip(g);
    if from <= b < from + |data| then data[b - from] else At(g, given, b)
  }

  /** The words of the user of one slot are `data`, and all others are as before. */
  ghost predicate Stored(g: Geometry, from: seq<Page>, to: seq<Page>, idx: nat, data: seq<Word>) {
    && g.Ok() && Shape(g, from) && Shape(g, to) && |data| == g.sz - Skip(g)
    && forall b :: 0 <= b < g.Total() ==> At(g, to, b) == WordAfter(g, from, idx, data, b)
  }

  /** Writing through a mapped object replaces one payload and nothing else. */
  lemma UnmapWritesPayload(g: Geometry, from: seq<Page>, to: seq<Page>, idx: nat, data: seq<Word>)
    requires g.Ok() && idx < g.Objs() && Stored(g, from, to, idx, data) && SameFrames(from, to)
    ensures Payload(g, to, idx) == data
    ensures forall i :: 0 <= i < g.Objs() ==>
      Header(g, to, i) == Header(g, from, i) && (i != idx ==> Payload(g, to, i) == Payload(g, from, i))
    ensures TailFree(g, from) ==> TailFree(g, to)
  {
    hide At;
    SlotInside(g, idx);
    SlotsApart(g, idx, g.Objs());
    forall i | 0 <= i < g.Objs()
      ensures Header(g, to, i) == Header(g, from, i) && (i != idx ==> Payload(g, to, i) == Payload(g, from, i))
    {
      SlotInside(g, i);
      if i < idx { SlotsApart(g, i, idx); } else if i > idx { SlotsApart(g, idx, i); }
    }
  }
}
