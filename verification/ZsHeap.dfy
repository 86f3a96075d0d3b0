/** The memory side of a size class: zspages, handles and page owners, changed in place. */
module ZsHeap {
  import opened ZsLayout
  import opened ZsPage
  import opened ZsMemory
  import opened ZsPool
  import opened ZsScan
  import opened ZsMoves
  import opened ZsMigrate

  class Heap {
    const c: Config
    var zs: map<nat, Zspage>
    var handles: map<Word, nat>
    var owner: map<nat, nat>
    ghost var free: Lists

    ghost function View(): Pool reads this { Pool(zs, handles, owner) }

    ghost predicate Valid() reads this { PoolOk(c, View(), free) }

    constructor (c: Config)
      requires c.Ok()
      ensures Valid() && this.c == c && zs == map[] && handles == map[]
    {
      this.c, zs, handles, owner, free := c, map[], map[], map[], map[];
    }

    /** alloc_zspage: chain the pages, thread the free list, and adopt the zspage. */
    method AllocZspage(z: nat, given: seq<Page>)
      requires Valid() && z !in zs && Shape(c.g, given) && DistinctFrames(given)
      requires Frames(given) !! owner.Keys
      modifies this
      ensures Valid() && Keeps(c, old(View()), old(free), View(), free, old(handles.Keys))
      ensures zs.Keys == old(zs.Keys) + {z} && zs[z].inuse == 0 && handles == old(handles)
      ensures forall z' :: z' in old(zs) ==> zs[z'] == old(zs[z'])
      ensures free == old(free)[z := Iota(c.g.Objs())]
    {
      hide PoolOk, ZsOk, Geometry.Objs, Keeps;
      assert c.Ok() by { PoolConfig(c, View(), free); }
      var pages := CreatePageChain(given);
      var zp := InitZspage(c.g, pages);
      assert Frames(zp.pages) <= Frames(given) by { FramesSame(given, zp.pages); }
      AddOk(c, View(), free, z, zp);
      zs, owner := zs[z := zp], owner + map f | f in Frames(zp.pages) :: z;
      free := free[z := Iota(c.g.Objs())];
      KeepsBoth(c, old(View()), old(free), View(), free, old(handles.Keys));
    }

    /** obj_malloc: hand out the first free slot of the zspage and record it in the handle. */
    method ObjMalloc(z: nat, h: Word)
      requires Valid() && z in zs && free[z] != [] && FreshHandle(View(), h)
      modifies this
      ensures Valid() && Keeps(c, old(View()), old(free), View(), free, old(handles.Keys))
      ensures PointsTo(c, View(), h, z, old(free)[z][0]) && handles.Keys == old(handles.Keys) + {h}
      ensures zs.Keys == old(zs.Keys) && owner == old(owner) && zs[z].inuse == old(zs[z].inuse) + 1
      ensures forall z' :: z' in zs && z' != z ==> zs[z'] == old(zs[z'])
      ensures free == old(free)[z := old(free)[z][1..]]
    {
      hide PoolOk, Keeps, Take, Encode, StartPfn;
      PoolConfig(c, View(), free);
      MallocOk(c, View(), free, z, h);
      KeepsBoth(c, View(), free, Malloc(c, View(), z, h), free[z := free[z][1..]], handles.Keys);
      var zp := zs[z];
      var obj := zp.freeobj;
      handles := handles[h := Encode(c, StartPfn(c, zp.pages, obj), obj)];
      zs := zs[z := Take(c.g, zp, h)];
      free := free[z := free[z][1..]];
    }

    /** The part of zs_malloc that allocates a zspage and its first object. */
    method AllocWithObject(z: nat, given: seq<Page>, h: Word)
      requires Valid() && z !in zs && Shape(c.g, given) && DistinctFrames(given) && FreshHandle(View(), h)
      requires Frames(given) !! owner.Keys
      modifies this
      ensures Valid() && Keeps(c, old(View()), old(free), View(), free, old(handles.Keys))
      ensures zs.Keys == old(zs.Keys) + {z} && zs[z].inuse == 1
      ensures handles.Keys == old(handles.Keys) + {h} && LiesIn(c, View(), h, z)
      ensures forall z' :: z' in old(zs) ==> zs[z'] == old(zs[z'])
    {
      hide PoolOk, Keeps, Geometry.Objs;
      PoolConfig(c, View(), free);
      AfterLastSlot(c.g);
      AllocZspage(z, given);
      ghost var p1, fl1 := View(), free;
      ObjMalloc(z, h);
      KeepsTrans(c, old(View()), old(free), p1, fl1, View(), free, old(handles.Keys));
    }

    /** obj_free together with the release of the handle. */
    method ObjFree(h: Word) returns (z: nat)
      requires Valid() && h in handles
      modifies this
      ensures Valid() && Keeps(c, old(View()), old(free), View(), free, old(handles.Keys) - {h})
      ensures z in old(zs) && handles.Keys == old(handles.Keys) - {h} && zs.Keys == old(zs.Keys) && owner == old(owner)
      ensures old(zs[z].inuse) > 0 && zs[z].inuse == old(zs[z].inuse) - 1
      ensures forall z' :: z' in zs && z' != z ==> zs[z'] == old(zs[z'])
    {
      hide PoolOk, Keeps, Give, Encode, StartPfn, ZsOk;
      ReleaseOk(c, View(), free, h);
      KeepsBoth(c, View(), free, Release(c, View(), h), ReleasedLists(c, View(), free, h), handles.Keys - {h});
      ghost var freed := ReleasedLists(c, View(), free, h);
      z := owner[PfnOf(c, handles[h])];
      zs := zs[z := Give(c.g, zs[z], IdxOf(c, handles[h]))];
      handles := handles - {h};
      free := freed;
    }

    /** __free_zspage: give back the frames of an empty zspage. */
    method FreeZspage(z: nat)
      requires Valid() && z in zs && zs[z].inuse == 0
      modifies this
      ensures Valid() && Keeps(c, old(View()), old(free), View(), free, old(handles.Keys))
      ensures zs == old(zs) - {z} && handles == old(handles)
    {
      hide PoolOk, Keeps;
      RemoveOk(c, View(), free, z);
      KeepsBoth(c, View(), free, RemoveZspage(View(), z), free - {z}, handles.Keys);
      owner := map f | f in owner && owner[f] != z :: owner[f];
      zs := zs - {z};
      free := free - {z};
    }

    /** What stays the same while objects move from s to d. */
    twostate predicate OnlyMoved(s: nat, d: nat)
      reads this
      requires old(s in zs && d in zs)
    {
      && zs.Keys == old(zs.Keys) && handles.Keys == old(handles.Keys) && owner == old(owner)
      && (forall z :: z in zs && z != s && z != d ==> zs[z] == old(zs[z]))
      && zs[s].inuse + zs[d].inuse == old(zs[s].inuse + zs[d].inuse) && zs[d].inuse >= old(zs[d].inuse)
    }

    /** Move the object of `handle` from slot si of s to d: obj_malloc, zs_object_copy, obj_free. */
    method MoveObject(s: nat, si: nat, d: nat, handle: Word)
      requires Valid() && s in zs && d in zs && s != d && !c.g.Huge() && zs[d].inuse < c.g.Objs()
      requires FoundAt(c.g, zs[s], free[s], si, handle)
      modifies this
      ensures Valid() && Keeps(c, old(View()), old(free), View(), free, old(handles.Keys))
      ensures OnlyMoved(s, d) && zs[s].inuse == old(zs[s].inuse) - 1
      ensures free[s] == [si] + old(free[s])
    {
      hide PoolOk, Keeps, Take, Give, Encode, StartPfn, ZsOk, Copied, Header, PfnOf, IdxOf, SameFrames;
      PoolConfig(c, View(), free);
      MoveReady(c, View(), free, s, si, d, handle);
      var di := zs[d].freeobj;
      var taken := Take(c.g, zs[d], handle);
      var pages := ObjectCopy(c.g, zs[s].pages, si, taken.pages, di);
      MoveOk(c, View(), free, s, si, d, handle, pages);
      KeepsBoth(c, View(), free, Move(c, View(), s, si, d, handle, pages), MovedLists(free, s, si, d), handles.Keys);
      handles := handles[handle := Encode(c, StartPfn(c, zs[d].pages, di), di)];
      zs := zs[d := taken.(pages := pages)][s := Give(c.g, zs[s], si)];
      free := MovedLists(free, s, si, d);
    }

    /** migrate_zspage: move objects from s to d until d is full or s is empty. */
    method MigrateZspage(s: nat, d: nat)
      requires Valid() && s in zs && d in zs && s != d && !c.g.Huge() && zs[d].inuse < c.g.Objs()
      modifies this
      ensures Valid() && Keeps(c, old(View()), old(free), View(), free, old(handles.Keys))
      ensures OnlyMoved(s, d)
      ensures zs[d].inuse == c.g.Objs() || zs[s].inuse == 0
    {
      hide PoolOk, Keeps, FirstIdx, FoundAt, Geometry.Objs, Headed;
      PoolConfig(c, View(), free);
      KeepsRefl(c, View(), free);
      FirstPage(c.g);
      var k, index := 0, 0;
      while true
        invariant Valid() && zs.Keys == free.Keys && k < c.g.npages && OnlyMoved(s, d) && zs[d].inuse < c.g.Objs()
        invariant Keeps(c, old(View()), old(free), View(), free, old(handles.Keys))
        invariant forall i :: 0 <= i < FirstIdx(c.g, k) + index && i < c.g.Objs() ==> i in free[s]
        decreases c.g.npages - k, zs[s].inuse
      {
        PoolZspage(c, View(), free, s);
        var handle: Word;
        handle, index := FindAllocedObj(c.g, zs[s], free[s], k, index);
        if handle == 0 {
          k := k + 1;
          if k == c.g.npages {
            Drained(c.g, zs[s], free[s]);
            break;
          }
          index := 0;
          continue;
        }
        ghost var was, wasFree := View(), free;
        MoveObject(s, FirstIdx(c.g, k) + index, d, handle);
        KeepsTrans(c, old(View()), old(free), was, wasFree, View(), free, old(handles.Keys));
        PoolConfig(c, View(), free);
        index := index + 1;
        if zs[d].inuse == c.g.Objs() { break; }
        PoolBound(c, View(), free, d);
        if zs[s].inuse == 0 { break; }
      }
    }

    /** The loop of zs_page_migrate: re-point the handle of every object that starts in page k. */
    method RepointHandles(z: nat, k: nat, newPfn: nat)
      requires Valid() && z in zs && k < |zs[z].pages|
      modifies this`handles
      ensures handles == Repointed(c, old(handles), zs[z].pages[k].pfn, newPfn)
    {
      hide PoolOk, FirstIdx, Encode, PfnOf, IdxOf, Geometry.Start, ScannedWord, Reads;
      ghost var p := View();
      PoolConfig(c, p, free);
      var page := zs[z].pages[k];
      PageShape(c, p, free, z, k);
      ghost var n := 0;
      var offset := page.firstObj;
      forall h | h in handles && InOldFrame(c, handles, page.pfn, h)
        ensures FirstIdx(c.g, k) <= IdxOf(c, handles[h]) < FirstIdx(c.g, k + 1)
      {
        StartsInPage(c, p, free, z, k, h);
      }
      while offset < c.g.P
        invariant offset == c.g.Start(FirstIdx(c.g, k) + n) - k * c.g.P >= 0
        invariant Progress(c, p.handles, page.pfn, newPfn, FirstIdx(c.g, k) + n, handles)
        decreases c.g.P - offset
      {
        var w := ScannedWord(c.g, page, offset);
        ScanReads(c, p, free, z, k, n, offset);
        ProgressStep(c, p.handles, page.pfn, newPfn, FirstIdx(c.g, k) + n, handles, w);
        if w % 2 == 1 {
          handles := handles[w - 1 := Encode(c, newPfn, IdxOf(c, handles[w - 1]))];
        }
        StartNext(c.g, FirstIdx(c.g, k) + n);
        offset := offset + c.g.sz;
        n := n + 1;
      }
      forall h | h in p.handles && InOldFrame(c, p.handles, page.pfn, h)
        ensures IdxOf(c, p.handles[h]) < FirstIdx(c.g, k) + n
      {
        PageDone(c.g, k, n, IdxOf(c, p.handles[h]));
      }
      assert handles == Repointed(c, p.handles, page.pfn, newPfn);
    }

    /** zs_page_migrate: copy the page into a new frame, re-point the handles, rebuild the chain. */
    method MigratePage(z: nat, k: nat, newPfn: nat)
      requires Valid() && z in zs && k < |zs[z].pages| && newPfn !in owner
      modifies this
      ensures Valid() && Keeps(c, old(View()), old(free), View(), free, old(handles.Keys)) && free == old(free)
      ensures Replaced(c.g, old(zs[z].pages), k, newPfn, zs[z].pages)
      ensures forall h :: h in old(handles) ==>
        && PfnOf(c, old(handles[h])) in old(owner)
        && PointsTo(c, View(), h, Zid(c, old(View()), h), Slot(c, old(View()), h))
        && (PfnOf(c, old(handles[h])) != old(zs[z].pages[k].pfn) ==> handles[h] == old(handles[h]))
      ensures zs.Keys == old(zs.Keys) && handles.Keys == old(handles.Keys)
      ensures forall z' :: z' in zs && z' != z ==> zs[z'] == old(zs[z'])
    {
      hide PoolOk, Keeps, Encode, PfnOf, IdxOf, PointsTo, Replaced, Zid, Slot;
      ghost var p := View();
      PoolConfig(c, p, free);
      PageShape(c, p, free, z, k);
      var oldPage := zs[z].pages[k];
      var newPage := Page(newPfn, oldPage.words, NoLink, 0);
      RepointHandles(z, k, newPfn);
      var pages := ReplaceSubPage(c.g, zs[z].pages, k, newPage);
      MigrateReady(c, p, free, z, k, newPfn, pages);
      MigrateOk(c, p, free, z, k, newPfn, pages);
      KeepsBoth(c, p, free, Migrated(c, p, z, k, newPfn, pages), free, p.handles.Keys);
      forall h | h in p.handles ensures PfnOf(c, p.handles[h]) in p.owner { LiveSlot(c, p, free, h); }
      zs := zs[z := zs[z].(pages := pages)];
      owner := (owner - {oldPage.pfn})[newPfn := z];
    }

    /** zs_map_object for reading: the user's data. */
    method ReadObject(h: Word) returns (data: seq<Word>)
      requires Valid() && h in handles
      ensures HandleOk(c, View(), free, h) && data == Content(c, View(), free, h)
    {
      hide PfnOf, IdxOf, Payload;
      LiveSlot(c, View(), free, h);
      assert HandleOk(c, View(), free, h);
      hide PoolOk, HandleOk;
      var z := owner[PfnOf(c, handles[h])];
      data := MapObject(c.g, zs[z].pages, IdxOf(c, handles[h]));
    }

    /** zs_map_object, a store by the user, and zs_unmap_object: the object's data is replaced. */
    method WriteObject(h: Word, data: seq<Word>)
      requires Valid() && h in handles && HandleOk(c, View(), free, h) && |data| == |Content(c, View(), free, h)|
      modifies this`zs
      ensures Valid() && Keeps(c, old(View()), free, View(), free, handles.Keys - {h})
      ensures HandleOk(c, View(), free, h) && Content(c, View(), free, h) == data
      ensures zs.Keys == old(zs.Keys) && forall z :: z in zs && z != Zid(c, View(), h) ==> zs[z] == old(zs[z])
    {
      hide PoolOk, Keeps, HandleOk, PfnOf, IdxOf, Payload, ZsOk, Stored, SameFrames, Geometry.Objs;
      PoolConfig(c, View(), free);
      LiveSlot(c, View(), free, h);
      var z, idx := owner[PfnOf(c, handles[h])], IdxOf(c, handles[h]);
      var pages := UnmapObject(c.g, zs[z].pages, idx, data);
      StoreOk(c, View(), free, h, pages, data);
      zs := zs[z := zs[z].(pages := pages)];
    }
  }

  lemma StoredOnly(g: Geometry, from: seq<Page>, to: seq<Page>, idx: nat, data: seq<Word>)
    requires g.Ok() && idx < g.Objs() && Stored(g, from, to, idx, data) && SameFrames(from, to)
    ensures OnlyPayload(g, from, to, idx) && Payload(g, to, idx) == data
  {
    hide SameFrames, TailFree, Header, Payload, Geometry.Objs, WordAfter;
    UnmapWritesPayload(g, from, to, idx, data);
  }

  /** What is stored in a mapped object is its data from then on, and no other object's data changes. */
  lemma StoreOk(c: Config, p: Pool, fl: Lists, h: Word, pages: seq<Page>, data: seq<Word>)
    requires CanRelease(c, p, fl, h)
    requires Stored(c.g, p.zs[Zid(c, p, h)].pages, pages, Slot(c, p, h), data)
    requires SameFrames(p.zs[Zid(c, p, h)].pages, pages)
    ensures var p' := Rewrite(p, Zid(c, p, h), pages);
      && PoolOk(c, p', fl) && Keeps(c, p, fl, p', fl, p.handles.Keys - {h})
      && HandleOk(c, p', fl, h) && Content(c, p', fl, h) == data
  {
    var z, idx := Zid(c, p, h), Slot(c, p, h);
    StoredOnly(c.g, p.zs[z].pages, pages, idx, data);
    hide PoolOk, Keeps, HandleOk, PfnOf, IdxOf, Payload, ZsOk, SameFrames, OnlyPayload, Stored, Geometry.Objs;
    RewriteOk(c, p, fl, h, pages);
    KeepsBoth(c, p, fl, Rewrite(p, z, pages), fl, p.handles.Keys - {h});
  }

  /** What MoveObject needs, from what the scan found. */
  lemma MoveReady(c: Config, p: Pool, fl: Lists, s: nat, si: nat, d: nat, h: Word)
    requires PoolOk(c, p, fl) && s in p.zs && d in p.zs && s != d && !c.g.Huge() && p.zs[d].inuse < c.g.Objs()
    requires s in fl && FoundAt(c.g, p.zs[s], fl[s], si, h)
    ensures CanMove(c, p, fl, s, si, d, h)
  {
    hide Header, StartPfn, Encode, PfnOf, IdxOf, Geometry.Objs, ZsOk;
    PoolBound(c, p, fl, d);
    HasFree(c, p, fl, d);
    assert ZspageOk(c, p, fl, s);
    assert SlotOk(c, p, p.zs[s].pages, si);
    SameSlot(c, p, fl, h, s, si);
    ReleaseOk(c, p, fl, h);
  }

  lemma KeepsBoth(c: Config, p: Pool, fl: Lists, p': Pool, fl': Lists, hs: set<Word>)
    requires Keeps(c, p, fl, p', fl', hs)
    ensures PoolOk(c, p, fl) && PoolOk(c, p', fl')
  {
  }

  lemma FramesSame(given: seq<Page>, pages: seq<Page>)
    requires |given| == |pages| && forall k :: 0 <= k < |given| ==> pages[k].pfn == given[k].pfn
    ensures Frames(pages) <= Frames(given)
  {
  }

  lemma KeepsRefl(c: Config, p: Pool, fl: Lists)
    requires PoolOk(c, p, fl)
    ensures Keeps(c, p, fl, p, fl, p.handles.Keys)
  {
  }

  lemma KeepsTrans(c: Config, p: Pool, fl: Lists, p1: Pool, fl1: Lists, p2: Pool, fl2: Lists, hs: set<Word>)
    requires Keeps(c, p, fl, p1, fl1, hs) && Keeps(c, p1, fl1, p2, fl2, p1.handles.Keys)
    ensures Keeps(c, p, fl, p2, fl2, hs)
  {
    hide HandleOk, Content, PoolOk;
    forall h | h in hs ensures KeptOne(c, p, fl, p2, fl2, h) {
      assert KeptOne(c, p, fl, p1, fl1, h) && KeptOne(c, p1, fl1, p2, fl2, h);
    }
  }

  lemma PoolBound(c: Config, p: Pool, fl: Lists, z: nat)
    requires PoolOk(c, p, fl) && z in p.zs
    ensures p.zs[z].inuse <= c.g.Objs() && |fl[z]| == c.g.Objs() - p.zs[z].inuse
  {
    assert ZspageOk(c, p, fl, z);
  }
}
