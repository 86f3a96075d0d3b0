/** The larger steps on a pool: adding and removing a zspage, moving an object between zspages. */
module ZsMoves {
  import opened ZsLayout
  import opened ZsPage
  import opened ZsMemory
  import opened ZsPool

  // ---------------------------------------------------------------------------------------------
  // A new zspage, and freeing an empty one.

  function Frames(pages: seq<Page>): (s: set<nat>)
    ensures forall k :: 0 <= k < |pages| ==> pages[k].pfn in s
    ensures forall f :: f in s ==> exists k :: 0 <= k < |pages| && pages[k].pfn == f
  {
    set k | 0 <= k < |pages| :: pages[k].pfn
  }

  function AddZspage(p: Pool, z: nat, zp: Zspage): Pool {
    p.(zs := p.zs[z := zp], owner := p.owner + map f | f in Frames(zp.pages) :: z)
  }

  /** A freshly initialised zspage joins without disturbing anything. */
  lemma AddOk(c: Config, p: Pool, fl: Lists, z: nat, zp: Zspage)
    requires PoolOk(c, p, fl) && z !in p.zs && ZsOk(c.g, zp, Iota(c.g.Objs()))
    requires Frames(zp.pages) !! p.owner.Keys
    ensures Keeps(c, p, fl, AddZspage(p, z, zp), fl[z := Iota(c.g.Objs())], p.handles.Keys)
  {
    hide Header, Payload, StartPfn, Encode, PfnOf, IdxOf, ZsOk, Geometry.Objs;
    var p', fl' := AddZspage(p, z, zp), fl[z := Iota(c.g.Objs())];
    forall z' | z' in p'.zs ensures ZspageOk(c, p', fl', z') {
      if z' == z {
        forall idx | 0 <= idx < c.g.Objs() ensures idx in fl'[z] { assert Iota(c.g.Objs())[idx] == idx; }
      } else {
        assert ZspageOk(c, p, fl, z');
        ZsShape(c.g, p.zs[z'], fl[z']);
        forall idx | 0 <= idx < c.g.Objs() && idx !in fl[z'] ensures SlotOk(c, p', p'.zs[z'].pages, idx) {
          assert SlotOk(c, p, p.zs[z'].pages, idx);
        }
      }
    }
    forall h | h in p'.handles ensures HandleOk(c, p', fl', h) && KeptOne(c, p, fl, p', fl', h) {
      assert HandleOk(c, p, fl, h);
    }
  }

  function RemoveZspage(p: Pool, z: nat): Pool {
    p.(zs := p.zs - {z}, owner := map f | f in p.owner && p.owner[f] != z :: p.owner[f])
  }

  /** A zspage with nothing in use can go: no handle points into it. */
  lemma RemoveOk(c: Config, p: Pool, fl: Lists, z: nat)
    requires PoolOk(c, p, fl) && z in p.zs && p.zs[z].inuse == 0
    ensures Keeps(c, p, fl, RemoveZspage(p, z), fl - {z}, p.handles.Keys)
  {
    hide Header, Payload, StartPfn, Encode, PfnOf, IdxOf, ZsOk, Geometry.Objs;
    var p', fl' := RemoveZspage(p, z), fl - {z};
    forall h | h in p.handles ensures HandleOk(c, p, fl, h) && Zid(c, p, h) != z { LiveSlot(c, p, fl, h); }
    forall z' | z' in p'.zs ensures ZspageOk(c, p', fl', z') {
      assert ZspageOk(c, p, fl, z');
      ZsShape(c.g, p.zs[z'], fl[z']);
      forall idx | 0 <= idx < c.g.Objs() && idx !in fl[z'] ensures SlotOk(c, p', p'.zs[z'].pages, idx) {
        assert SlotOk(c, p, p.zs[z'].pages, idx);
      }
    }
    forall h | h in p'.handles ensures HandleOk(c, p', fl', h) && KeptOne(c, p, fl, p', fl', h) {
      assert HandleOk(c, p, fl, h) && Zid(c, p, h) != z;
    }
  }

  // ---------------------------------------------------------------------------------------------
  // One turn of migrate_zspage: move an object to another zspage.

  /** Allocate in d, copy, free in s: the state after all three, with `pages` the destination pages after the copy. */
  function Move(c: Config, p: Pool, s: nat, si: nat, d: nat, h: Word, pages: seq<Page>): Pool
    requires c.Ok() && s in p.zs && d in p.zs && Shape(c.g, p.zs[s].pages) && Shape(c.g, p.zs[d].pages)
    requires si < c.g.Objs() && p.zs[s].inuse > 0 && p.zs[d].freeobj < c.g.Objs() && h + 1 < WORDS
  {
    var di := p.zs[d].freeobj;
    Pool(p.zs[d := Take(c.g, p.zs[d], h).(pages := pages)][s := Give(c.g, p.zs[s], si)],
         p.handles[h := Encode(c, StartPfn(c, p.zs[d].pages, di), di)], p.owner)
  }

  function MovedLists(fl: Lists, s: nat, si: nat, d: nat): Lists
    requires s in fl && d in fl && fl[d] != []
  {
    fl[s := [si] + fl[s]][d := fl[d][1..]]
  }

  /** Everything migrate_zspage relies on when it moves handle h from slot si of s to zspage d. */
  ghost predicate CanMove(c: Config, p: Pool, fl: Lists, s: nat, si: nat, d: nat, h: Word) {
    && CanRelease(c, p, fl, h) && PointsTo(c, p, h, s, si) && s in fl && d in p.zs && d in fl && d != s && fl[d] != []
    && !c.g.Huge() && h + 1 < WORDS
    && Shape(c.g, p.zs[d].pages) && p.zs[d].freeobj == fl[d][0] < c.g.Objs()
  }

  /** The copy of the slot into what obj_malloc left of the destination. */
  ghost predicate MovedPages(c: Config, p: Pool, s: nat, si: nat, d: nat, h: Word, pages: seq<Page>)
    requires c.Ok() && s in p.zs && d in p.zs && Shape(c.g, p.zs[s].pages) && Shape(c.g, p.zs[d].pages)
    requires si < c.g.Objs() && p.zs[d].freeobj < c.g.Objs() && h + 1 < WORDS
  {
    var taken := Take(c.g, p.zs[d], h).pages;
    var di := p.zs[d].freeobj;
    && Shape(c.g, pages) && SameFrames(taken, pages)
    && c.g.Start(si) + c.g.sz <= c.g.Total() && c.g.Start(di) + c.g.sz <= c.g.Total()
    && Copied(c.g, p.zs[s].pages, c.g.Start(si), taken, pages, c.g.Start(di), c.g.sz)
  }

  /** The move is a free, an allocation and a payload write; all three keep the pool sound. */
  lemma MoveOk(c: Config, p: Pool, fl: Lists, s: nat, si: nat, d: nat, h: Word, pages: seq<Page>)
    requires CanMove(c, p, fl, s, si, d, h) && MovedPages(c, p, s, si, d, h, pages)
    ensures Keeps(c, p, fl, Move(c, p, s, si, d, h, pages), MovedLists(fl, s, si, d), p.handles.Keys)
  {
    hide PoolOk, Header, Payload, Give, Take, StartPfn, Encode, PfnOf, IdxOf, HandleOk, Content, Copied, OnlyPayload,
         ZsOk;
    var di := fl[d][0];
    ReleaseOk(c, p, fl, h);
    var p1, fl1 := Release(c, p, h), ReleasedLists(c, p, fl, h);
    FreshAgain(c, p, fl, h);
    MallocOk(c, p1, fl1, d, h);
    var p2, fl2 := Malloc(c, p1, d, h), fl1[d := fl1[d][1..]];
    CopyIsPayload(c, p, fl, s, si, d, h, pages);
    ReleaseOk(c, p2, fl2, h);
    RewriteOk(c, p2, fl2, h, pages);
    var p3 := Rewrite(p2, d, pages);
    assert p3.zs == Move(c, p, s, si, d, h, pages).zs;
    assert p3 == Move(c, p, s, si, d, h, pages);
    assert fl2 == MovedLists(fl, s, si, d);
    assert KeptOne(c, p, fl, p3, fl2, h) by {
      CopyKeepsData(c, p, fl, s, si, d, h, pages);
      assert HandleOk(c, p, fl, h) by { PoolHandle(c, p, fl, h); }
      assert Content(c, p, fl, h) == Payload(c.g, p.zs[s].pages, si) by { ContentIs(c, p, fl, h, s, si); }
    }
    forall h' | h' in p.handles && h' != h ensures KeptOne(c, p, fl, p3, fl2, h') {
      assert KeptOne(c, p, fl, p1, fl1, h') && KeptOne(c, p1, fl1, p2, fl2, h') && KeptOne(c, p2, fl2, p3, fl2, h');
    }
  }

  lemma PoolHandle(c: Config, p: Pool, fl: Lists, h: Word)
    requires PoolOk(c, p, fl) && h in p.handles
    ensures HandleOk(c, p, fl, h)
  {
  }

  lemma ContentIs(c: Config, p: Pool, fl: Lists, h: Word, z: nat, idx: nat)
    requires c.Ok() && h in p.handles && HandleOk(c, p, fl, h) && PointsTo(c, p, h, z, idx)
    ensures z in p.zs && Shape(c.g, p.zs[z].pages) && idx < c.g.Objs()
    ensures Content(c, p, fl, h) == Payload(c.g, p.zs[z].pages, idx)
  {
  }

  lemma FreshAgain(c: Config, p: Pool, fl: Lists, h: Word)
    requires CanRelease(c, p, fl, h) && h + 1 < WORDS
    ensures FreshHandle(Release(c, p, h), h)
  {
    assert HandleOk(c, p, fl, h);
  }

  lemma CopyIsPayload(c: Config, p: Pool, fl: Lists, s: nat, si: nat, d: nat, h: Word, pages: seq<Page>)
    requires CanMove(c, p, fl, s, si, d, h) && MovedPages(c, p, s, si, d, h, pages)
    ensures OnlyPayload(c.g, Take(c.g, p.zs[d], h).pages, pages, fl[d][0])
  {
    hide Payload, StartPfn, Encode, PfnOf, IdxOf, Take, ZsOk, Copied, TailFree, Geometry.Objs, Geometry.Start;
    var taken := Take(c.g, p.zs[d], h).pages;
    assert ZspageOk(c, p, fl, d) && HandleOk(c, p, fl, h);
    TakeOk(c.g, p.zs[d], fl[d], h);
    CopiedSlot(c.g, p.zs[s].pages, si, taken, pages, fl[d][0]);
  }

  lemma CopyKeepsData(c: Config, p: Pool, fl: Lists, s: nat, si: nat, d: nat, h: Word, pages: seq<Page>)
    requires CanMove(c, p, fl, s, si, d, h) && MovedPages(c, p, s, si, d, h, pages)
    ensures Payload(c.g, pages, fl[d][0]) == Payload(c.g, p.zs[s].pages, si)
  {
    CopiedSlot(c.g, p.zs[s].pages, si, Take(c.g, p.zs[d], h).pages, pages, fl[d][0]);
  }
}
