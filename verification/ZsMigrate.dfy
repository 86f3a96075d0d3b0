/** Page migration: replacing one page frame of a zspage and re-pointing the handles of the objects that start in it. */
module ZsMigrate {
  import opened Arith
  import opened ZsLayout
  import opened ZsPage
  import opened ZsMemory
  import opened ZsPool
  import opened ZsScan

  /** `pages'` is the chain with page k in frame `newPfn`: same words, same order, same first-object offsets. */
  ghost predicate Replaced(g: Geometry, pages: seq<Page>, k: nat, newPfn: nat, pages': seq<Page>) {
    && g.Ok() && Shape(g, pages) && k < |pages| == |pages'| && Linked(g, pages')
    && (forall j :: 0 <= j < |pages| ==>
      && pages'[j].words == pages[j].words && pages'[j].firstObj == pages[j].firstObj
      && pages'[j].pfn == if j == k then newPfn else pages[j].pfn)
    && (g.Huge() ==> pages'[0].index == pages[0].index)
  }

  /** The handle table after migration: handles into the old frame now name the new one, with the same index. */
  function Repointed(c: Config, handles: map<Word, nat>, oldPfn: nat, newPfn: nat): map<Word, nat>
    requires c.I > 0
  {
    map h | h in handles :: if PfnOf(c, handles[h]) == oldPfn then Encode(c, newPfn, IdxOf(c, handles[h]))
      else handles[h]
  }

  function Migrated(c: Config, p: Pool, z: nat, k: nat, newPfn: nat, pages': seq<Page>): Pool
    requires c.I > 0 && z in p.zs && k < |p.zs[z].pages|
  {
    var oldPfn := p.zs[z].pages[k].pfn;
    Pool(p.zs[z := p.zs[z].(pages := pages')], Repointed(c, p.handles, oldPfn, newPfn),
      (p.owner - {oldPfn})[newPfn := z])
  }

  lemma ReplacedWords(g: Geometry, pages: seq<Page>, k: nat, newPfn: nat, pages': seq<Page>)
    requires Replaced(g, pages, k, newPfn, pages')
    ensures Shape(g, pages')
    ensures forall i :: 0 <= i < g.Objs() ==>
      Header(g, pages', i) == Header(g, pages, i) && Payload(g, pages', i) == Payload(g, pages, i)
    ensures TailFree(g, pages) ==> TailFree(g, pages')
  {
    forall b | 0 <= b < g.Total() ensures At(g, pages', b) == At(g, pages, b) { PosInPage(g, b); }
    forall i | 0 <= i < g.Objs()
      ensures Header(g, pages', i) == Header(g, pages, i) && Payload(g, pages', i) == Payload(g, pages, i)
    {
      SlotInside(g, i);
    }
  }

  lemma ReplacedZs(g: Geometry, z: Zspage, fl: seq<nat>, k: nat, newPfn: nat, pages': seq<Page>)
    requires ZsOk(g, z, fl) && Replaced(g, z.pages, k, newPfn, pages')
    ensures ZsOk(g, z.(pages := pages'), fl)
  {
    hide Header, Payload, At, FirstObj, IsEnd, NextOf, LinkTo, TailFree, Geometry.Objs, Geometry.Start;
    ReplacedWords(g, z.pages, k, newPfn, pages');
  }

  /** Where slots start after migration: the objects of page k moved with it, the others did not. */
  lemma ReplacedStart(c: Config, pages: seq<Page>, k: nat, newPfn: nat, pages': seq<Page>, i: nat)
    requires c.Ok() && Replaced(c.g, pages, k, newPfn, pages') && DistinctFrames(pages) && i < c.g.Objs()
    requires Shape(c.g, pages')
    ensures StartPfn(c, pages', i) == if StartPfn(c, pages, i) == pages[k].pfn then newPfn else StartPfn(c, pages, i)
  {
    SlotInside(c.g, i);
    PosInPage(c.g, c.g.Start(i));
  }

  ghost predicate CanMigrate(c: Config, p: Pool, fl: Lists, z: nat, k: nat, newPfn: nat, pages': seq<Page>) {
    && PoolOk(c, p, fl) && z in p.zs && k < |p.zs[z].pages| && newPfn !in p.owner
    && Replaced(c.g, p.zs[z].pages, k, newPfn, pages')
  }

  lemma MigrateZspage(c: Config, p: Pool, fl: Lists, z: nat, k: nat, newPfn: nat, pages': seq<Page>, z': nat)
    requires CanMigrate(c, p, fl, z, k, newPfn, pages') && z' in p.zs
    ensures ZspageOk(c, Migrated(c, p, z, k, newPfn, pages'), fl, z')
  {
    hide Header, Payload, StartPfn, Encode, ZsOk, PfnOf, IdxOf, Geometry.Objs, TailFree;
    var p' := Migrated(c, p, z, k, newPfn, pages');
    var oldPfn := p.zs[z].pages[k].pfn;
    assert ZspageOk(c, p, fl, z') && ZspageOk(c, p, fl, z);
    ZsShape(c.g, p.zs[z'], fl[z']);
    FramesDistinct(c.g, p.zs[z], fl[z]);
    ReplacedZs(c.g, p.zs[z], fl[z], k, newPfn, pages');
    ReplacedWords(c.g, p.zs[z].pages, k, newPfn, pages');
    forall j | 0 <= j < |p'.zs[z'].pages|
      ensures p'.zs[z'].pages[j].pfn in p'.owner && p'.owner[p'.zs[z'].pages[j].pfn] == z'
    {
      assert p.zs[z].pages[k].pfn in p.owner && p.zs[z'].pages[j].pfn in p.owner;
    }
    forall i | 0 <= i < c.g.Objs() && i !in fl[z'] ensures SlotOk(c, p', p'.zs[z'].pages, i) {
      assert SlotOk(c, p, p.zs[z'].pages, i);
      EncodeDecode(c, StartPfn(c, p.zs[z'].pages, i), i);
      if z' == z {
        ReplacedStart(c, p.zs[z].pages, k, newPfn, pages', i);
      } else {
        var j := SlotPage(c, p.zs[z'].pages, i);
        assert p.owner[p.zs[z'].pages[j].pfn] == z';
      }
    }
  }

  lemma FramesDistinct(g: Geometry, z: Zspage, fl: seq<nat>)
    requires ZsOk(g, z, fl)
    ensures DistinctFrames(z.pages)
  {
  }

  lemma MigrateHandle(c: Config, p: Pool, fl: Lists, z: nat, k: nat, newPfn: nat, pages': seq<Page>, h: Word)
    requires CanMigrate(c, p, fl, z, k, newPfn, pages') && h in p.handles
    ensures var p' := Migrated(c, p, z, k, newPfn, pages');
      KeptOne(c, p, fl, p', fl, h) && Zid(c, p', h) == Zid(c, p, h) && Slot(c, p', h) == Slot(c, p, h)
  {
    hide Header, Payload, StartPfn, Encode, ZsOk, PfnOf, IdxOf, Geometry.Objs, TailFree;
    var p' := Migrated(c, p, z, k, newPfn, pages');
    var oldPfn := p.zs[z].pages[k].pfn;
    assert HandleOk(c, p, fl, h) && ZspageOk(c, p, fl, z);
    var i := Slot(c, p, h);
    FramesDistinct(c.g, p.zs[z], fl[z]);
    ReplacedWords(c.g, p.zs[z].pages, k, newPfn, pages');
    EncodeDecode(c, newPfn, i);
    if Zid(c, p, h) == z {
      ReplacedStart(c, p.zs[z].pages, k, newPfn, pages', i);
    } else {
      assert p.owner[oldPfn] == z;
    }
  }

  /** Migration keeps every handle valid: same zspage, same index, same data; only handles of objects that start
      in the replaced page change their value. */
  lemma MigrateOk(c: Config, p: Pool, fl: Lists, z: nat, k: nat, newPfn: nat, pages': seq<Page>)
    requires CanMigrate(c, p, fl, z, k, newPfn, pages')
    ensures var p' := Migrated(c, p, z, k, newPfn, pages');
      && Keeps(c, p, fl, p', fl, p.handles.Keys)
      && (forall h :: h in p.handles ==>
           PointsTo(c, p', h, Zid(c, p, h), Slot(c, p, h))
           && (PfnOf(c, p.handles[h]) != p.zs[z].pages[k].pfn ==> p'.handles[h] == p.handles[h]))
  {
    hide HandleOk, ZspageOk, Content, StartPfn, Encode, PfnOf, IdxOf, Replaced;
    var p' := Migrated(c, p, z, k, newPfn, pages');
    forall z' | z' in p'.zs ensures ZspageOk(c, p', fl, z') { MigrateZspage(c, p, fl, z, k, newPfn, pages', z'); }
    forall h | h in p.handles ensures PfnOf(c, p.handles[h]) in p.owner { LiveSlot(c, p, fl, h); }
    forall h | h in p.handles
      ensures KeptOne(c, p, fl, p', fl, h) && PointsTo(c, p', h, Zid(c, p, h), Slot(c, p, h))
    {
      MigrateHandle(c, p, fl, z, k, newPfn, pages', h);
      KeptLocated(c, p, fl, p', fl, h);
    }
  }

  lemma KeptLocated(c: Config, p: Pool, fl: Lists, p': Pool, fl': Lists, h: Word)
    requires KeptOne(c, p, fl, p', fl', h)
    ensures PfnOf(c, p'.handles[h]) in p'.owner
  {
  }

  // ---------------------------------------------------------------------------------------------
  // The loop that re-points handles, and the new chain.

  predicate InOldFrame(c: Config, handles: map<Word, nat>, oldPfn: nat, h: Word)
    requires c.I > 0 && h in handles
  {
    PfnOf(c, handles[h]) == oldPfn
  }

  lemma PoolConfig(c: Config, p: Pool, fl: Lists)
    requires PoolOk(c, p, fl)
    ensures c.Ok() && p.zs.Keys == fl.Keys
  {
  }

  /** Handles of slots below `bound` in the old frame have been re-pointed, the others not yet. */
  ghost predicate Progress(c: Config, was: map<Word, nat>, oldPfn: nat, newPfn: nat, bound: nat, now: map<Word, nat>)
    requires c.I > 0
  {
    now.Keys == was.Keys && forall h :: h in was ==> now[h] == Moved(c, was, oldPfn, newPfn, bound, h)
  }

  function Moved(c: Config, was: map<Word, nat>, oldPfn: nat, newPfn: nat, bound: nat, h: Word): nat
    requires c.I > 0 && h in was
  {
    if InOldFrame(c, was, oldPfn, h) && IdxOf(c, was[h]) < bound then Encode(c, newPfn, IdxOf(c, was[h])) else was[h]
  }

  /** One turn of the re-pointing loop. */
  lemma ProgressStep(c: Config, was: map<Word, nat>, oldPfn: nat, newPfn: nat, i: nat, now: map<Word, nat>, w: Word)
    requires c.I > 0 && Progress(c, was, oldPfn, newPfn, i, now) && Reads(c, was, oldPfn, i, w)
    ensures w % 2 == 1 ==> w - 1 in now
    ensures Progress(c, was, oldPfn, newPfn, i + 1,
      if w % 2 == 1 then now[w - 1 := Encode(c, newPfn, IdxOf(c, now[w - 1]))] else now)
  {
    hide Encode, PfnOf;
    if w % 2 == 1 { EncodeDecode(c, newPfn, IdxOf(c, was[w - 1])); }
  }

  lemma PageShape(c: Config, p: Pool, fl: Lists, z: nat, k: nat)
    requires PoolOk(c, p, fl) && z in p.zs && k < |p.zs[z].pages|
    ensures k < c.g.npages == |p.zs[z].pages| && |p.zs[z].pages[k].words| == c.g.P
    ensures p.zs[z].pages[k].firstObj == c.g.Start(FirstIdx(c.g, k)) - k * c.g.P >= 0
  {
    assert ZspageOk(c, p, fl, z);
    FirstIdxIs(c.g, k);
  }

  /** A slot that starts in the frame of page k starts in page k. */
  lemma StartPage(c: Config, pages: seq<Page>, k: nat, i: nat)
    requires c.Ok() && Shape(c.g, pages) && DistinctFrames(pages) && k < |pages| && i < c.g.Objs()
    ensures StartPfn(c, pages, i) == pages[k].pfn <==> FirstIdx(c.g, k) <= i < FirstIdx(c.g, k + 1)
  {
    hide FirstIdx;
    SlotInside(c.g, i);
    var a := c.g.Start(i);
    PosInPage(c.g, a);
    StartsBefore(c.g, k, i);
    StartsBefore(c.g, k + 1, i);
    assert (k + 1) * c.g.P == k * c.g.P + c.g.P;
    if k * c.g.P <= a < k * c.g.P + c.g.P { DivUnique(a, c.g.P, k); }
  }

  /** A handle into the frame of page k belongs to a slot that starts in that page. */
  lemma StartsInPage(c: Config, p: Pool, fl: Lists, z: nat, k: nat, h: Word)
    requires PoolOk(c, p, fl) && z in p.zs && k < |p.zs[z].pages| && h in p.handles
    requires PfnOf(c, p.handles[h]) == p.zs[z].pages[k].pfn
    ensures var i := IdxOf(c, p.handles[h]);
      && i < c.g.Objs() && i !in fl[z] && FirstIdx(c.g, k) <= i < FirstIdx(c.g, k + 1)
      && Shape(c.g, p.zs[z].pages) && Header(c.g, p.zs[z].pages, i) == h + 1
  {
    hide FirstIdx, Header, PfnOf, IdxOf, StartPfn, ZsOk, Geometry.Objs;
    assert ZspageOk(c, p, fl, z) && HandleOk(c, p, fl, h);
    assert p.zs[z].pages[k].pfn in p.owner;
    FramesDistinct(c.g, p.zs[z], fl[z]);
    StartPage(c, p.zs[z].pages, k, IdxOf(c, p.handles[h]));
  }

  /** What the scan of zs_page_migrate reads at the n-th slot of page k: the handle of that slot if it is allocated. */
  predicate Reads(c: Config, handles: map<Word, nat>, oldPfn: nat, i: nat, w: Word)
    requires c.I > 0
  {
    && (w % 2 == 1 ==> w - 1 in handles && InOldFrame(c, handles, oldPfn, w - 1) && IdxOf(c, handles[w - 1]) <= i)
    && (forall h :: h in handles && InOldFrame(c, handles, oldPfn, h) && IdxOf(c, handles[h]) == i ==>
      w == h + 1 && w % 2 == 1)
  }

  /** The word zs_page_migrate looks at for the slot at `offset` of a page. */
  function ScannedWord(g: Geometry, page: Page, offset: nat): Word
    requires g.sz > 0 && offset < |page.words|
  {
    if g.Huge() then (if page.index.Tagged? then page.index.w else 0) else page.words[offset]
  }

  lemma AllocatedSlot(c: Config, p: Pool, fl: Lists, z: nat, k: nat, i: nat, w: Word)
    requires PoolOk(c, p, fl) && z in p.zs && k < |p.zs[z].pages| && i < c.g.Objs() && i !in fl[z]
    requires FirstIdx(c.g, k) <= i < FirstIdx(c.g, k + 1) && Shape(c.g, p.zs[z].pages)
    requires w == Header(c.g, p.zs[z].pages, i) && w > 0
    ensures w - 1 in p.handles && InOldFrame(c, p.handles, p.zs[z].pages[k].pfn, w - 1)
    ensures IdxOf(c, p.handles[w - 1]) == i
  {
    hide FirstIdx, Header, PfnOf, IdxOf, StartPfn, ZsOk, Encode, Geometry.Objs;
    assert ZspageOk(c, p, fl, z);
    assert SlotOk(c, p, p.zs[z].pages, i);
    FramesDistinct(c.g, p.zs[z], fl[z]);
    StartPage(c, p.zs[z].pages, k, i);
    EncodeDecode(c, StartPfn(c, p.zs[z].pages, i), i);
  }

  lemma ScanReads(c: Config, p: Pool, fl: Lists, z: nat, k: nat, n: nat, offset: nat)
    requires PoolOk(c, p, fl) && z in p.zs && k < |p.zs[z].pages|
    requires offset == c.g.Start(FirstIdx(c.g, k) + n) - k * c.g.P && offset < c.g.P == |p.zs[z].pages[k].words|
    ensures Reads(c, p.handles, p.zs[z].pages[k].pfn, FirstIdx(c.g, k) + n, ScannedWord(c.g, p.zs[z].pages[k], offset))
  {
    hide FirstIdx, Header, PfnOf, IdxOf, Chain, TailFree, Linked, Geometry.Start, PoolOk;
    PoolConfig(c, p, fl);
    PoolZspage(c, p, fl, z);
    var zp, i := p.zs[z], FirstIdx(c.g, k) + n;
    var w := ScannedWord(c.g, zp.pages[k], offset);
    forall h | h in p.handles && InOldFrame(c, p.handles, zp.pages[k].pfn, h)
      ensures var j := IdxOf(c, p.handles[h]);
        && j < c.g.Objs() && j !in fl[z] && FirstIdx(c.g, k) <= j < FirstIdx(c.g, k + 1)
        && Header(c.g, zp.pages, j) == h + 1
    {
      StartsInPage(c, p, fl, z, k, h);
    }
    if c.g.Huge() {
      FirstPage(c.g);
      LastPage(c.g, 0);
      HeaderHuge(c.g, zp.pages);
      if w % 2 == 1 { AllocatedSlot(c, p, fl, z, 0, 0, w); }
    } else {
      WordAt(c.g, zp, fl[z], k, n, offset);
      if w % 2 == 1 { AllocatedSlot(c, p, fl, z, k, i, w); }
    }
  }

  lemma HeaderHuge(g: Geometry, pages: seq<Page>)
    requires g.Ok() && Shape(g, pages) && g.Huge()
    ensures Header(g, pages, 0) == if pages[0].index.Tagged? then pages[0].index.w else 0
  {
  }

  /** What MigratePage hands to MigrateOk. */
  lemma MigrateReady(c: Config, p: Pool, fl: Lists, z: nat, k: nat, newPfn: nat, pages: seq<Page>)
    requires PoolOk(c, p, fl) && z in p.zs && k < |p.zs[z].pages| && newPfn !in p.owner
    requires ReplacedBy(c.g, p.zs[z].pages, k, Page(newPfn, p.zs[z].pages[k].words, NoLink, 0), pages)
    ensures CanMigrate(c, p, fl, z, k, newPfn, pages)
  {
    hide PoolOk, FirstObj, Geometry.Objs;
    PoolConfig(c, p, fl);
    ZspageFrames(c, p, fl, z);
    assert forall j :: 0 <= j < |p.zs[z].pages| ==> p.zs[z].pages[j].pfn in p.owner;
  }

  lemma ZspageFrames(c: Config, p: Pool, fl: Lists, z: nat)
    requires PoolOk(c, p, fl) && z in p.zs
    ensures Shape(c.g, p.zs[z].pages) && Linked(c.g, p.zs[z].pages) && Owned(p, z)
  {
    assert ZspageOk(c, p, fl, z);
  }

  /** The chain after replace_sub_page. */
  ghost predicate ReplacedBy(g: Geometry, given: seq<Page>, k: nat, newPage: Page, pages: seq<Page>)
    requires g.sz > 0
  {
    && |pages| == |given| > k
    && (forall j :: 0 <= j < |given| ==>
         pages[j].words == (if j == k then newPage.words else given[j].words)
         && pages[j].pfn == (if j == k then newPage.pfn else given[j].pfn) && pages[j].firstObj == given[j].firstObj)
    && (forall j :: 0 <= j < |pages| - 1 ==> pages[j].index == Next(pages[j + 1].pfn))
    && (if g.Huge() then pages[0].index == given[0].index else pages[|pages| - 1].index == NoLink)
  }

  /** replace_sub_page: rebuild the chain with one page exchanged. */
  method ReplaceSubPage(g: Geometry, given: seq<Page>, k: nat, newPage: Page) returns (pages: seq<Page>)
    requires g.Ok() && |given| == g.npages && k < |given|
    ensures ReplacedBy(g, given, k, newPage, pages)
  {
    var list: seq<Page> := [];
    var idx := 0;
    while idx < |given|
      invariant 0 <= idx <= |given| && |list| == idx
      invariant forall j :: 0 <= j < idx ==> list[j] == if j == k then newPage else given[j]
    {
      list := list + [if idx == k then newPage else given[idx]];
      idx := idx + 1;
    }
    pages := CreatePageChain(list);
    pages := pages[k := pages[k].(firstObj := given[k].firstObj)];
    if g.Huge() {
      pages := pages[k := pages[k].(index := given[k].index)];
    }
  }
}
