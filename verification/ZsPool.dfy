/** Handles and zspages of one size class: who points where, and what every operation keeps. */
module ZsPool {
  import opened Arith
  import opened ZsLayout
  import opened ZsPage

  /** The geometry of the class and 2^OBJ_INDEX_BITS. */
  datatype Config = Config(g: Geometry, I: nat) {
    predicate Ok() { g.Ok() && g.Objs() < I }
  }

  /** zspages by identity, the value stored in each handle, and page_private: the zspage of a page frame. */
  datatype Pool = Pool(zs: map<nat, Zspage>, handles: map<Word, nat>, owner: map<nat, nat>)

  /** The free list of every zspage, in list order. */
  type Lists = map<nat, seq<nat>>

  /** location_to_obj and obj_to_location */
  function Encode(c: Config, pfn: nat, idx: nat): nat requires c.I > 0 { pfn * c.I + idx % c.I }
  function PfnOf(c: Config, obj: nat): nat requires c.I > 0 { obj / c.I }
  function IdxOf(c: Config, obj: nat): nat requires c.I > 0 { obj % c.I }

  /** Every index a class uses survives encoding together with its page frame. */
  lemma EncodeDecode(c: Config, pfn: nat, idx: nat)
    requires idx < c.I
    ensures PfnOf(c, Encode(c, pfn, idx)) == pfn && IdxOf(c, Encode(c, pfn, idx)) == idx
  {
    assert idx % c.I == idx;
    DivUnique(pfn * c.I + idx, c.I, pfn);
  }

  /** The page frame in which a slot starts. */
  function StartPfn(c: Config, pages: seq<Page>, idx: nat): nat
    requires c.Ok() && Shape(c.g, pages) && idx < c.g.Objs()
  {
    SlotInside(c.g, idx);
    PosInPage(c.g, c.g.Start(idx));
    pages[c.g.PageOf(c.g.Start(idx))].pfn
  }

  predicate Owned(p: Pool, z: nat)
    requires z in p.zs
  {
    forall k :: 0 <= k < |p.zs[z].pages| ==> p.zs[z].pages[k].pfn in p.owner && p.owner[p.zs[z].pages[k].pfn] == z
  }

  /** An allocated slot is the one its handle resolves to. */
  predicate SlotOk(c: Config, p: Pool, pages: seq<Page>, idx: nat)
    requires c.Ok() && Shape(c.g, pages) && idx < c.g.Objs()
  {
    var w := Header(c.g, pages, idx);
    w > 0 && w - 1 in p.handles && p.handles[w - 1] == Encode(c, StartPfn(c, pages, idx), idx)
  }

  predicate ZspageOk(c: Config, p: Pool, fl: Lists, z: nat)
    requires c.Ok() && z in p.zs && z in fl
  {
    && ZsOk(c.g, p.zs[z], fl[z]) && Owned(p, z)
    && forall idx :: 0 <= idx < c.g.Objs() && idx !in fl[z] ==> SlotOk(c, p, p.zs[z].pages, idx)
  }

  /** Where a handle points: zspage and slot. */
  function Zid(c: Config, p: Pool, h: Word): nat
    requires c.I > 0 && h in p.handles && PfnOf(c, p.handles[h]) in p.owner
  {
    p.owner[PfnOf(c, p.handles[h])]
  }

  function Slot(c: Config, p: Pool, h: Word): nat
    requires c.I > 0 && h in p.handles
  {
    IdxOf(c, p.handles[h])
  }

  /** A live handle resolves to an allocated slot that starts in the page it names and carries the handle in its
      header. */
  predicate HandleOk(c: Config, p: Pool, fl: Lists, h: Word)
    requires c.Ok() && h in p.handles
  {
    && h % 2 == 0 && h > 0
    && PfnOf(c, p.handles[h]) in p.owner
    && var z, idx := Zid(c, p, h), Slot(c, p, h);
      && z in p.zs && z in fl && Shape(c.g, p.zs[z].pages) && idx < c.g.Objs() && idx !in fl[z]
      && Header(c.g, p.zs[z].pages, idx) == h + 1
      && StartPfn(c, p.zs[z].pages, idx) == PfnOf(c, p.handles[h])
  }

  predicate PoolOk(c: Config, p: Pool, fl: Lists) {
    && c.Ok() && p.zs.Keys == fl.Keys
    && (forall z :: z in p.zs ==> ZspageOk(c, p, fl, z))
    && (forall h :: h in p.handles ==> HandleOk(c, p, fl, h))
    && (forall f :: f in p.owner ==> p.owner[f] in p.zs)
  }

  /** The user's data behind a handle. */
  function Content(c: Config, p: Pool, fl: Lists, h: Word): seq<Word>
    requires c.Ok() && h in p.handles && HandleOk(c, p, fl, h)
  {
    Payload(c.g, p.zs[Zid(c, p, h)].pages, Slot(c, p, h))
  }

  /** A handle that is live and sound in both states, with the same data. */
  ghost predicate KeptOne(c: Config, p: Pool, fl: Lists, p': Pool, fl': Lists, h: Word) {
    && c.Ok() && h in p.handles && h in p'.handles && HandleOk(c, p, fl, h) && HandleOk(c, p', fl', h)
    && Content(c, p', fl', h) == Content(c, p, fl, h)
  }

  /** Both states are sound, and the handles in `hs` are live in both with the same data. */
  ghost predicate Keeps(c: Config, p: Pool, fl: Lists, p': Pool, fl': Lists, hs: set<Word>) {
    && PoolOk(c, p, fl) && PoolOk(c, p', fl')
    && forall h :: h in hs ==> KeptOne(c, p, fl, p', fl', h)
  }

  predicate PointsTo(c: Config, p: Pool, h: Word, z: nat, idx: nat) {
    c.I > 0 && h in p.handles && PfnOf(c, p.handles[h]) in p.owner && Zid(c, p, h) == z && Slot(c, p, h) == idx
  }

  /** The object of the handle starts in a page of zspage z. */
  predicate LiesIn(c: Config, p: Pool, h: Word, z: nat) {
    c.I > 0 && h in p.handles && PfnOf(c, p.handles[h]) in p.owner && Zid(c, p, h) == z
  }

  /** No two live handles share a slot. */
  lemma HandlesApart(c: Config, p: Pool, fl: Lists, h: Word, h': Word)
    requires PoolOk(c, p, fl) && h in p.handles && h' in p.handles && h != h'
    ensures Zid(c, p, h) != Zid(c, p, h') || Slot(c, p, h) != Slot(c, p, h')
  {
    assert HandleOk(c, p, fl, h) && HandleOk(c, p, fl, h');
  }

  // ---------------------------------------------------------------------------------------------
  // obj_malloc

  function Malloc(c: Config, p: Pool, z: nat, h: Word): Pool
    requires c.Ok() && z in p.zs && Shape(c.g, p.zs[z].pages) && p.zs[z].freeobj < c.g.Objs() && h + 1 < WORDS
  {
    var idx := p.zs[z].freeobj;
    p.(zs := p.zs[z := Take(c.g, p.zs[z], h)],
       handles := p.handles[h := Encode(c, StartPfn(c, p.zs[z].pages, idx), idx)])
  }

  predicate FreshHandle(p: Pool, h: Word) { h !in p.handles && h % 2 == 0 && h > 0 && h + 1 < WORDS }

  /** Taking a slot does not move pages: frames are the same. */
  lemma TakeFrames(c: Config, z: Zspage, h: Word)
    requires c.Ok() && Shape(c.g, z.pages) && z.freeobj < c.g.Objs() && h + 1 < WORDS
    ensures var z' := Take(c.g, z, h);
      |z'.pages| == |z.pages| && (forall k :: 0 <= k < |z.pages| ==> z'.pages[k].pfn == z.pages[k].pfn)
      && forall i :: 0 <= i < c.g.Objs() ==> StartPfn(c, z'.pages, i) == StartPfn(c, z.pages, i)
  {
    var z' := Take(c.g, z, h);
    forall i | 0 <= i < c.g.Objs() ensures StartPfn(c, z'.pages, i) == StartPfn(c, z.pages, i) {
      SlotInside(c.g, i);
      PosInPage(c.g, c.g.Start(i));
    }
  }

  /** What PoolOk says about one zspage with a free slot. */
  lemma HasFree(c: Config, p: Pool, fl: Lists, z: nat)
    requires PoolOk(c, p, fl) && z in p.zs && fl[z] != []
    ensures Shape(c.g, p.zs[z].pages) && p.zs[z].freeobj == fl[z][0] < c.g.Objs()
  {
    assert ZspageOk(c, p, fl, z);
    TakeChain(c.g, p.zs[z], fl[z], 0);
  }

  lemma MallocZspage(c: Config, p: Pool, fl: Lists, z: nat, h: Word, z': nat)
    requires PoolOk(c, p, fl) && z in p.zs && fl[z] != [] && FreshHandle(p, h) && z' in p.zs
    requires Shape(c.g, p.zs[z].pages) && p.zs[z].freeobj == fl[z][0] < c.g.Objs()
    ensures ZspageOk(c, Malloc(c, p, z, h), fl[z := fl[z][1..]], z')
  {
    hide Header, Payload, StartPfn, ZsOk, Encode, Take, Geometry.Objs;
    var p', fl' := Malloc(c, p, z, h), fl[z := fl[z][1..]];
    assert ZspageOk(c, p, fl, z') && ZspageOk(c, p, fl, z);
    if z' == z {
      var zp := p.zs[z];
      TakeOk(c.g, zp, fl[z], h);
      TakeFrames(c, zp, h);
      forall idx | 0 <= idx < c.g.Objs() && idx !in fl'[z] ensures SlotOk(c, p', p'.zs[z].pages, idx) {
        if idx != fl[z][0] {
          assert idx !in fl[z];
          assert SlotOk(c, p, zp.pages, idx);
        }
      }
    } else {
      ZsShape(c.g, p.zs[z'], fl[z']);
      forall idx | 0 <= idx < c.g.Objs() && idx !in fl[z'] ensures SlotOk(c, p', p'.zs[z'].pages, idx) {
        assert SlotOk(c, p, p.zs[z'].pages, idx);
      }
    }
  }

  lemma ZsShape(g: Geometry, z: Zspage, fl: seq<nat>)
    requires ZsOk(g, z, fl)
    ensures Shape(g, z.pages)
  {
  }

  lemma MallocNew(c: Config, p: Pool, fl: Lists, z: nat, h: Word)
    requires PoolOk(c, p, fl) && z in p.zs && fl[z] != [] && FreshHandle(p, h)
    requires Shape(c.g, p.zs[z].pages) && p.zs[z].freeobj == fl[z][0] < c.g.Objs()
    ensures var p', fl' := Malloc(c, p, z, h), fl[z := fl[z][1..]];
      HandleOk(c, p', fl', h) && PointsTo(c, p', h, z, fl[z][0])
  {
    hide Header, Payload, StartPfn, Encode, PfnOf, IdxOf, Take, Linked, Chain, TailFree, Geometry.Objs, HandleOk;
    var p', fl' := Malloc(c, p, z, h), fl[z := fl[z][1..]];
    assert ZspageOk(c, p, fl, z);
    var zp := p.zs[z];
    var idx := fl[z][0];
    TakeOk(c.g, zp, fl[z], h);
    TakeFrames(c, zp, h);
    EncodeDecode(c, StartPfn(c, zp.pages, idx), idx);
    var k := SlotPage(c, zp.pages, idx);
    assert PointsTo(c, p', h, z, idx);
    assert idx !in fl'[z];
    HandleFrom(c, p', fl', h, z, idx);
  }

  /** A handle is sound if the slot it points to is. */
  lemma HandleFrom(c: Config, p: Pool, fl: Lists, h: Word, z: nat, idx: nat)
    requires c.Ok() && h % 2 == 0 && h > 0 && PointsTo(c, p, h, z, idx)
    requires z in p.zs && z in fl && Shape(c.g, p.zs[z].pages) && idx < c.g.Objs() && idx !in fl[z]
    requires h + 1 < WORDS && Header(c.g, p.zs[z].pages, idx) == h + 1
    requires StartPfn(c, p.zs[z].pages, idx) == PfnOf(c, p.handles[h])
    ensures HandleOk(c, p, fl, h)
  {
  }

  lemma MallocOther(c: Config, p: Pool, fl: Lists, z: nat, h: Word, h': Word)
    requires PoolOk(c, p, fl) && z in p.zs && fl[z] != [] && FreshHandle(p, h) && h' in p.handles
    requires Shape(c.g, p.zs[z].pages) && p.zs[z].freeobj == fl[z][0] < c.g.Objs()
    ensures KeptOne(c, p, fl, Malloc(c, p, z, h), fl[z := fl[z][1..]], h')
  {
    hide Header, Payload, StartPfn, Encode, PfnOf, IdxOf, Take, ZsOk, Geometry.Objs;
    assert HandleOk(c, p, fl, h') && ZspageOk(c, p, fl, z);
    TakeOk(c.g, p.zs[z], fl[z], h);
    TakeFrames(c, p.zs[z], h);
  }

  /** The frame a slot starts in is one of the frames of the zspage. */
  lemma SlotPage(c: Config, pages: seq<Page>, idx: nat) returns (k: nat)
    requires c.Ok() && Shape(c.g, pages) && idx < c.g.Objs()
    ensures k < |pages| && pages[k].pfn == StartPfn(c, pages, idx)
  {
    SlotInside(c.g, idx);
    PosInPage(c.g, c.g.Start(idx));
    k := c.g.PageOf(c.g.Start(idx));
  }

  /** obj_malloc keeps the invariant: the slot at the head of the list is given to the new handle, all data stays. */
  lemma MallocOk(c: Config, p: Pool, fl: Lists, z: nat, h: Word)
    requires PoolOk(c, p, fl) && z in p.zs && fl[z] != [] && FreshHandle(p, h)
    ensures Shape(c.g, p.zs[z].pages) && p.zs[z].freeobj == fl[z][0] < c.g.Objs()
    ensures var p', fl' := Malloc(c, p, z, h), fl[z := fl[z][1..]];
      Keeps(c, p, fl, p', fl', p.handles.Keys) && PointsTo(c, p', h, z, fl[z][0])
  {
    hide HandleOk, ZspageOk, Content, Take, StartPfn, Encode;
    HasFree(c, p, fl, z);
    var p', fl' := Malloc(c, p, z, h), fl[z := fl[z][1..]];
    forall z' | z' in p'.zs ensures ZspageOk(c, p', fl', z') { MallocZspage(c, p, fl, z, h, z'); }
    forall h' | h' in p'.handles
      ensures HandleOk(c, p', fl', h')
      ensures h' != h ==> KeptOne(c, p, fl, p', fl', h')
    {
      if h' == h { MallocNew(c, p, fl, z, h); } else { MallocOther(c, p, fl, z, h, h'); }
    }
    MallocNew(c, p, fl, z, h);
  }

  // ---------------------------------------------------------------------------------------------
  // obj_free

  /** Remove a handle and give its slot back. */
  function Release(c: Config, p: Pool, h: Word): Pool
    requires c.Ok() && h in p.handles && PfnOf(c, p.handles[h]) in p.owner
    requires var z := Zid(c, p, h); z in p.zs && Shape(c.g, p.zs[z].pages) && p.zs[z].inuse > 0
    requires Slot(c, p, h) < c.g.Objs()
  {
    var z := Zid(c, p, h);
    p.(zs := p.zs[z := Give(c.g, p.zs[z], Slot(c, p, h))], handles := p.handles - {h})
  }

  /** What PoolOk says about one handle. */
  lemma LiveSlot(c: Config, p: Pool, fl: Lists, h: Word)
    requires PoolOk(c, p, fl) && h in p.handles
    ensures PfnOf(c, p.handles[h]) in p.owner
    ensures var z := Zid(c, p, h);
      && z in p.zs && Shape(c.g, p.zs[z].pages) && p.zs[z].inuse > 0
      && Slot(c, p, h) < c.g.Objs() && Slot(c, p, h) !in fl[z] && ZsOk(c.g, p.zs[z], fl[z])
  {
    hide Header, Linked, Chain, TailFree, StartPfn, Give;
    assert HandleOk(c, p, fl, h);
    var z := Zid(c, p, h);
    assert ZspageOk(c, p, fl, z);
    GiveOk(c.g, p.zs[z], fl[z], Slot(c, p, h));
  }

  lemma GiveFrames(c: Config, z: Zspage, idx: nat)
    requires c.Ok() && Shape(c.g, z.pages) && idx < c.g.Objs() && z.inuse > 0
    ensures var z' := Give(c.g, z, idx);
      |z'.pages| == |z.pages| && (forall k :: 0 <= k < |z.pages| ==> z'.pages[k].pfn == z.pages[k].pfn)
      && forall i :: 0 <= i < c.g.Objs() ==> StartPfn(c, z'.pages, i) == StartPfn(c, z.pages, i)
  {
    var z' := Give(c.g, z, idx);
    forall i | 0 <= i < c.g.Objs() ensures StartPfn(c, z'.pages, i) == StartPfn(c, z.pages, i) {
      SlotInside(c.g, i);
      PosInPage(c.g, c.g.Start(i));
    }
  }

  predicate CanRelease(c: Config, p: Pool, fl: Lists, h: Word) {
    && c.Ok() && PoolOk(c, p, fl) && h in p.handles && PfnOf(c, p.handles[h]) in p.owner
    && var z := Zid(c, p, h);
      && z in p.zs && Shape(c.g, p.zs[z].pages) && p.zs[z].inuse > 0
      && Slot(c, p, h) < c.g.Objs() && Slot(c, p, h) !in fl[z] && ZsOk(c.g, p.zs[z], fl[z])
  }

  function ReleasedLists(c: Config, p: Pool, fl: Lists, h: Word): Lists
    requires CanRelease(c, p, fl, h)
  {
    var z := Zid(c, p, h);
    fl[z := [Slot(c, p, h)] + fl[z]]
  }

  lemma ReleaseZspage(c: Config, p: Pool, fl: Lists, h: Word, z': nat)
    requires CanRelease(c, p, fl, h) && z' in p.zs
    ensures ZspageOk(c, Release(c, p, h), ReleasedLists(c, p, fl, h), z')
  {
    hide Header, Payload, StartPfn, Encode, Give, ZsOk, Geometry.Objs;
    var p', fl' := Release(c, p, h), ReleasedLists(c, p, fl, h);
    var z, i := Zid(c, p, h), Slot(c, p, h);
    assert ZspageOk(c, p, fl, z') && ZspageOk(c, p, fl, z) && HandleOk(c, p, fl, h);
    ZsShape(c.g, p.zs[z'], fl[z']);
    if z' == z {
      GiveOk(c.g, p.zs[z], fl[z], i);
      GiveFrames(c, p.zs[z], i);
    }
    forall idx | 0 <= idx < c.g.Objs() && idx !in fl'[z'] ensures SlotOk(c, p', p'.zs[z'].pages, idx) {
      assert idx !in fl[z'];
      assert SlotOk(c, p, p.zs[z'].pages, idx);
      if Header(c.g, p.zs[z'].pages, idx) == h + 1 {
        SameSlot(c, p, fl, h, z', idx);
      }
    }
  }

  /** The slot whose header carries a handle is the slot the handle points to. */
  lemma SameSlot(c: Config, p: Pool, fl: Lists, h: Word, z: nat, idx: nat)
    requires PoolOk(c, p, fl) && h in p.handles && z in p.zs && Shape(c.g, p.zs[z].pages)
    requires idx < c.g.Objs() && idx !in fl[z] && Header(c.g, p.zs[z].pages, idx) == h + 1
    ensures PointsTo(c, p, h, z, idx)
  {
    hide Header, Encode, StartPfn, ZsOk, PfnOf, IdxOf, Geometry.Objs;
    assert ZspageOk(c, p, fl, z);
    assert SlotOk(c, p, p.zs[z].pages, idx);
    EncodeDecode(c, StartPfn(c, p.zs[z].pages, idx), idx);
    var k := SlotPage(c, p.zs[z].pages, idx);
  }

  lemma ReleaseOther(c: Config, p: Pool, fl: Lists, h: Word, h': Word)
    requires CanRelease(c, p, fl, h) && h' in p.handles && h' != h
    ensures KeptOne(c, p, fl, Release(c, p, h), ReleasedLists(c, p, fl, h), h')
  {
    hide Header, Payload, StartPfn, Encode, PfnOf, IdxOf, Give, ZsOk, Geometry.Objs;
    var z, i := Zid(c, p, h), Slot(c, p, h);
    HandlesApart(c, p, fl, h, h');
    assert HandleOk(c, p, fl, h');
    GiveOk(c.g, p.zs[z], fl[z], i);
    GiveFrames(c, p.zs[z], i);
  }

  /** obj_free keeps the invariant: the slot returns to the head of the list, all other data stays. */
  lemma ReleaseOk(c: Config, p: Pool, fl: Lists, h: Word)
    requires PoolOk(c, p, fl) && h in p.handles
    ensures CanRelease(c, p, fl, h)
    ensures Keeps(c, p, fl, Release(c, p, h), ReleasedLists(c, p, fl, h), p.handles.Keys - {h})
  {
    hide HandleOk, ZspageOk, Content, Give, StartPfn, Encode;
    LiveSlot(c, p, fl, h);
    var p', fl' := Release(c, p, h), ReleasedLists(c, p, fl, h);
    forall z' | z' in p'.zs ensures ZspageOk(c, p', fl', z') { ReleaseZspage(c, p, fl, h, z'); }
    forall h' | h' in p'.handles
      ensures HandleOk(c, p', fl', h') && KeptOne(c, p, fl, p', fl', h')
    {
      ReleaseOther(c, p, fl, h, h');
    }
  }

  // ---------------------------------------------------------------------------------------------
  // Writing an object's payload.

  function Rewrite(p: Pool, z: nat, pages: seq<Page>): Pool
    requires z in p.zs
  {
    p.(zs := p.zs[z := p.zs[z].(pages := pages)])
  }

  /** `pages'` differs from `pages` in the payload of slot idx only. */
  ghost predicate OnlyPayload(g: Geometry, pages: seq<Page>, pages': seq<Page>, idx: nat) {
    && g.Ok() && Shape(g, pages) && Shape(g, pages') && SameFrames(pages, pages') &&
      (TailFree(g, pages) ==> TailFree(g, pages'))
    && forall i :: 0 <= i < g.Objs() ==>
      Header(g, pages', i) == Header(g, pages, i) && (i != idx ==> Payload(g, pages', i) == Payload(g, pages, i))
  }

  lemma RewriteZs(c: Config, z: Zspage, fl: seq<nat>, pages': seq<Page>, idx: nat)
    requires c.Ok() && ZsOk(c.g, z, fl) && OnlyPayload(c.g, z.pages, pages', idx)
    ensures ZsOk(c.g, z.(pages := pages'), fl)
    ensures forall i :: 0 <= i < c.g.Objs() ==> StartPfn(c, pages', i) == StartPfn(c, z.pages, i)
  {
    hide Header, Payload, At, FirstObj, IsEnd, NextOf, LinkTo, TailFree, Geometry.Objs, Geometry.Start;
    forall i | 0 <= i < c.g.Objs() ensures StartPfn(c, pages', i) == StartPfn(c, z.pages, i) {
      SlotInside(c.g, i);
      PosInPage(c.g, c.g.Start(i));
    }
  }

  /** Writing one payload keeps the invariant and every other object's data. */
  lemma RewriteOk(c: Config, p: Pool, fl: Lists, h: Word, pages': seq<Page>)
    requires CanRelease(c, p, fl, h)
    requires OnlyPayload(c.g, p.zs[Zid(c, p, h)].pages, pages', Slot(c, p, h))
    ensures Keeps(c, p, fl, Rewrite(p, Zid(c, p, h), pages'), fl, p.handles.Keys - {h})
    ensures var p' := Rewrite(p, Zid(c, p, h), pages');
      HandleOk(c, p', fl, h) && Content(c, p', fl, h) == Payload(c.g, pages', Slot(c, p, h))
  {
    hide Header, Payload, StartPfn, Encode, PfnOf, IdxOf, ZsOk, Geometry.Objs;
    var z, idx := Zid(c, p, h), Slot(c, p, h);
    var p' := Rewrite(p, z, pages');
    RewriteZs(c, p.zs[z], fl[z], pages', idx);
    forall z' | z' in p'.zs ensures ZspageOk(c, p', fl, z') {
      assert ZspageOk(c, p, fl, z');
      ZsShape(c.g, p.zs[z'], fl[z']);
      forall i | 0 <= i < c.g.Objs() && i !in fl[z'] ensures SlotOk(c, p', p'.zs[z'].pages, i) {
        assert SlotOk(c, p, p.zs[z'].pages, i);
      }
    }
    forall h' | h' in p'.handles
      ensures HandleOk(c, p', fl, h') && HandleOk(c, p, fl, h')
      ensures h' != h ==> KeptOne(c, p, fl, p', fl, h')
    {
      assert HandleOk(c, p, fl, h');
      if h' != h { HandlesApart(c, p, fl, h, h'); }
    }
  }
}
