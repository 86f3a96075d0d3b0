/** A size class at work: allocation, freeing, deferred freeing and compaction on the heap and the books together. */
module ZsClass {
  import opened ZsLayout
  import opened ZsPage
  import opened ZsMemory
  import opened ZsPool
  import opened ZsMoves
  import opened ZsAccount
  import opened ZsBooks
  import H = ZsHeap

  /** What a page allocation brings: an identity and pages for a new zspage. */
  datatype Supply = NoMemory | Pages(z: nat, pages: seq<Page>)

  /** The partly full zspages. */
  ghost function Partly(c: Config, zs: map<nat, Zspage>): set<nat> {
    set z | z in zs && c.g.sz > 0 && 0 < zs[z].inuse < c.g.Objs()
  }

  /** The destination __zs_compact holds isolated, if any. */
  datatype Dst = NoDst | Dst(z: nat)

  ghost predicate DstOk(c: Config, zs: map<nat, Zspage>, dst: Dst, held: set<nat>) {
    && held == (if dst.NoDst? then {} else {dst.z})
    && (dst.Dst? ==> dst.z in zs && dst.z in Partly(c, zs))
  }

  /** No page was freed, or those of one zspage; the counters follow if the pages really went. */
  predicate Freed(c: Config, n: Counts, n': Counts, freed: nat, trylock: bool) {
    && c.g.sz > 0 && n'.inuse == n.inuse && (freed == 0 || freed == c.g.npages)
    && n'.slots == n.slots - if freed > 0 && trylock then c.g.Objs() else 0
  }

  /** The zspages that had objects and have none any more, given back or not. */
  ghost function Emptied(zs: map<nat, Zspage>, zs': map<nat, Zspage>): set<nat> {
    set z | z in zs && zs[z].inuse > 0 && (z !in zs' || zs'[z].inuse == 0)
  }

  /** No zspage is new, and the empty ones stay as they are. */
  ghost predicate Drains(zs: map<nat, Zspage>, zs': map<nat, Zspage>) {
    zs'.Keys <= zs.Keys && forall z :: z in zs && zs[z].inuse == 0 ==> z in zs' && zs'[z].inuse == 0
  }

  /** The pages of every zspage that was emptied are reported as freed, and nothing else goes; `sure` says that what was
      emptied went. */
  ghost predicate Reported(c: Config, zs: map<nat, Zspage>, zs': map<nat, Zspage>, freed: nat, sure: bool) {
    && Drains(zs, zs') && freed == Times(c.g.npages, |Emptied(zs, zs')|)
    && (sure ==> forall z :: z in Emptied(zs, zs') ==> z !in zs')
  }

  /** The pages reported are the pages given back exactly if every emptied zspage went. */
  ghost predicate RightIfGone(c: Config, zs: map<nat, Zspage>, zs': map<nat, Zspage>, freed: nat) {
    freed == Times(c.g.npages, |zs.Keys - zs'.Keys|) <==> forall z :: z in Emptied(zs, zs') ==> z !in zs'
  }

  /** z is the first of the fullest non-empty list, from group lo on, of those with room. */
  predicate Fullest(lists: seq<seq<nat>>, lo: nat, z: nat) {
    && |lists| == GROUPS
    && exists g :: lo <= g < GROUPS - 1 && lists[g] != [] && lists[g][0] == z
                   && forall g' :: g < g' < GROUPS - 1 ==> lists[g'] == []
  }

  /** z is the first of the emptiest non-empty list, from group lo on, of those with room. */
  predicate Emptiest(lists: seq<seq<nat>>, lo: nat, z: nat) {
    && |lists| == GROUPS
    && exists g :: lo <= g < GROUPS - 1 && lists[g] != [] && lists[g][0] == z
                   && forall g' :: lo <= g' < g ==> lists[g'] == []
  }

  class SizeClass {
    const heap: H.Heap
    var lists: seq<seq<nat>>
    var fullness: map<nat, nat>
    var stat: seq<int>
    var counts: Counts
    var spliced: seq<nat>
    ghost var held: set<nat>

    ghost function Books(): Board reads this { Board(lists, fullness, stat, spliced) }

    ghost predicate Valid()
      reads this, heap
    {
      ClassOk(heap.c, heap.View(), heap.free, Books(), counts, held)
    }

    /** Every object is where it was, with the same data. */
    twostate predicate Undisturbed()
      reads this, heap
    {
      && heap.handles.Keys == old(heap.handles.Keys)
      && Keeps(heap.c, old(heap.View()), old(heap.free), heap.View(), heap.free, old(heap.handles.Keys))
    }

    constructor (c: Config)
      requires c.Ok()
      ensures Valid() && held == {} && fresh(heap) && heap.c == c && heap.handles == map[]
    {
      heap := new H.Heap(c);
      lists := seq(GROUPS, _ => []);
      fullness := map[];
      stat := seq(GROUPS, _ => 0);
      counts, spliced, held := Counts(0, 0, 0), [], {};
      new;
      StartsEmpty(c, heap.View(), heap.free, Books());
    }

    method InsertZspage(z: nat, g: nat)
      requires |lists| == GROUPS == |stat| && g < GROUPS
      modifies this`lists, this`fullness, this`stat
      ensures Books() == Insert(old(Books()), z, g)
    {
      stat := stat[g := stat[g] + 1];
      lists := lists[g := [z] + lists[g]];
      fullness := fullness[z := g];
    }

    method RemoveZspage(z: nat)
      requires |lists| == GROUPS == |stat| && Listed(Books(), z)
      modifies this`lists, this`stat
      ensures Books() == Remove(old(Books()), z)
    {
      var g := fullness[z];
      lists := lists[g := Without(lists[g], z)];
      stat := stat[g := stat[g] - 1];
    }

    /** fix_fullness_group: move the zspage to the list its number of objects calls for. */
    method FixFullnessGroup(z: nat, newfg: nat)
      requires |lists| == GROUPS == |stat| && newfg < GROUPS && Listed(Books(), z)
      modifies this`lists, this`fullness, this`stat
      ensures Books() == Fix(old(Books()), z, newfg)
    {
      if newfg != fullness[z] {
        RemoveZspage(z);
        InsertZspage(z, newfg);
      }
    }

    /** find_get_zspage: the first zspage of the fullest group that still has room. */
    method FindGetZspage() returns (found: bool, z: nat)
      requires Valid() && held == {}
      ensures |lists| == GROUPS
      ensures found ==> Fullest(lists, 0, z) && z in heap.zs && z !in spliced && heap.zs[z].inuse < heap.c.g.Objs()
      ensures !found ==> forall g :: 0 <= g < GROUPS - 1 ==> lists[g] == []
    {
      hide ClassOk, Geometry.Objs;
      ClassParts(heap.c, heap.View(), heap.free, Books(), counts, held);
      var i := GROUPS - 2;
      found, z := false, 0;
      while i >= 0
        invariant -1 <= i < GROUPS - 1 && !found
        invariant forall g :: i < g < GROUPS - 1 ==> lists[g] == []
      {
        if lists[i] != [] {
          found, z := true, lists[i][0];
          HeadOf(heap.c, heap.View(), heap.free, Books(), counts, held, i);
          return;
        }
        i := i - 1;
      }
    }

    /** The first branch of zs_malloc: obj_malloc in a zspage that has room. */
    method MallocIn(z: nat, h: Word)
      requires Valid() && held == {} && FreshHandle(heap.View(), h)
      requires z in heap.zs && z !in spliced && heap.zs[z].inuse < heap.c.g.Objs()
      modifies this`lists, this`fullness, this`stat, this`counts, heap
      ensures Valid() && heap.handles.Keys == old(heap.handles.Keys) + {h} && LiesIn(heap.c, heap.View(), h, z)
      ensures Keeps(heap.c, old(heap.View()), old(heap.free), heap.View(), heap.free, old(heap.handles.Keys))
    {
      hide ClassOk, PoolOk, Keeps, Geometry.Objs, Listed, FreshHandle, Fix, FullnessGroup;
      ghost var p, fl, b, n := heap.View(), heap.free, Books(), counts;
      ClassParts(heap.c, p, fl, b, n, held);
      RoomOk(heap.c, p, fl, z);
      heap.ObjMalloc(z, h);
      assert p.zs.Keys + {z} == p.zs.Keys;
      ChangeOk(heap.c, p, fl, b, n, held, heap.View(), heap.free, z);
      FixFullnessGroup(z, FullnessGroup(heap.zs[z].inuse, heap.c.g.Objs()));
      counts := counts.(inuse := counts.inuse + 1);
    }

    /** The second branch: a new zspage, its first object, then the list and the counters. */
    method MallocNew(h: Word, z: nat, pages: seq<Page>)
      requires Valid() && held == {} && FreshHandle(heap.View(), h)
      requires z !in heap.zs && Shape(heap.c.g, pages) && DistinctFrames(pages) && Frames(pages) !! heap.owner.Keys
      modifies this`lists, this`fullness, this`stat, this`counts, heap
      ensures Valid() && heap.handles.Keys == old(heap.handles.Keys) + {h} && LiesIn(heap.c, heap.View(), h, z)
      ensures Keeps(heap.c, old(heap.View()), old(heap.free), heap.View(), heap.free, old(heap.handles.Keys))
    {
      hide ClassOk, PoolOk, Keeps, Geometry.Objs, FreshHandle, Insert, FullnessGroup;
      ghost var p, fl, b, n := heap.View(), heap.free, Books(), counts;
      ClassParts(heap.c, p, fl, b, n, held);
      heap.AllocWithObject(z, pages, h);
      NewOk(heap.c, p, fl, b, n, heap.View(), heap.free, z);
      InsertZspage(z, FullnessGroup(1, heap.c.g.Objs()));
      counts := Counts(counts.slots + heap.c.g.Objs(), counts.inuse + 1, counts.pages + heap.c.g.npages);
    }

    /** zs_malloc for this class, with the handle at hand: place the object in a zspage that has room, or in a new
        one. */
    method Malloc(h: Word, supply: Supply) returns (ok: bool)
      requires Valid() && held == {} && FreshHandle(heap.View(), h)
      requires supply.Pages? ==>
        && supply.z !in heap.zs && Shape(heap.c.g, supply.pages) && DistinctFrames(supply.pages)
        && Frames(supply.pages) !! heap.owner.Keys
      modifies this`lists, this`fullness, this`stat, this`counts, heap
      ensures Valid()
      ensures !ok ==>
        supply.NoMemory? && heap.View() == old(heap.View()) && Books() == old(Books()) && counts == old(counts)
      ensures !ok ==> |lists| == GROUPS && forall g :: 0 <= g < GROUPS - 1 ==> lists[g] == []
      ensures ok ==> heap.handles.Keys == old(heap.handles.Keys) + {h}
      ensures ok ==> exists z ::
        LiesIn(heap.c, heap.View(), h, z) && (Fullest(old(lists), 0, z) || (supply.Pages? && z == supply.z))
      ensures ok ==> Keeps(heap.c, old(heap.View()), old(heap.free), heap.View(), heap.free, old(heap.handles.Keys))
    {
      hide ClassOk, PoolOk, Keeps, Geometry.Objs, FreshHandle;
      ok := true;
      var found, z := FindGetZspage();
      if found {
        MallocIn(z, h);
      } else if supply.Pages? {
        MallocNew(h, supply.z, supply.pages);
      } else {
        ok := false;
      }
    }

    /** free_zspage: with the page locks at hand, take the empty zspage off its list and give its pages back. */
    method FreeZspage(z: nat, trylock: bool)
      requires Valid() && z in heap.zs && z !in held && z !in spliced && heap.zs[z].inuse == 0
      modifies this`lists, this`stat, this`counts, heap
      ensures Valid() && Undisturbed()
      ensures heap.zs == (if trylock then old(heap.zs) - {z} else old(heap.zs))
      ensures counts.inuse == old(counts.inuse)
      ensures counts.slots == old(counts.slots) - if trylock then heap.c.g.Objs() else 0
    {
      hide ClassOk, PoolOk, Keeps, Geometry.Objs, Listed, Remove;
      ghost var p, fl := heap.View(), heap.free;
      ClassParts(heap.c, p, fl, Books(), counts, held);
      H.KeepsRefl(heap.c, p, fl);
      if !trylock { return; }
      TakeOffOk(heap.c, p, fl, Books(), counts, held, z);
      RemoveZspage(z);
      heap.FreeZspage(z);
      FreedOk(heap.c, p, fl, Books(), counts, held + {z}, heap.View(), heap.free, z);
      assert held + {z} - {z} == held;
      counts := Counts(counts.slots - heap.c.g.Objs(), counts.inuse, counts.pages - heap.c.g.npages);
    }

    /** zs_free: release the object, move the zspage to its new group, free it if it is empty. */
    method Free(h: Word, trylock: bool)
      requires Valid() && held == {} && h in heap.handles
      modifies this`lists, this`fullness, this`stat, this`counts, heap
      ensures Valid() && heap.handles.Keys == old(heap.handles.Keys) - {h}
      ensures Keeps(heap.c, old(heap.View()), old(heap.free), heap.View(), heap.free, old(heap.handles.Keys) - {h})
      ensures counts.inuse == old(counts.inuse) - 1
      ensures trylock && old(NoEmpty(heap.zs)) ==> NoEmpty(heap.zs)
      ensures !trylock ==> heap.zs.Keys == old(heap.zs.Keys)
    {
      hide ClassOk, PoolOk, Keeps, Geometry.Objs, Listed, Fix, FullnessGroup;
      ghost var p, fl, b, n := heap.View(), heap.free, Books(), counts;
      ClassParts(heap.c, p, fl, b, n, held);
      var z := heap.ObjFree(h);
      ghost var p1, fl1 := heap.View(), heap.free;
      assert p.zs.Keys + {z} == p.zs.Keys;
      SplicedEmpty(heap.c, p, fl, b, n, held, z);
      ChangeOk(heap.c, p, fl, b, n, held, p1, fl1, z);
      var fg := FullnessGroup(heap.zs[z].inuse, heap.c.g.Objs());
      FixFullnessGroup(z, fg);
      counts := counts.(inuse := counts.inuse - 1);
      if fg == 0 {
        FreeZspage(z, trylock);
        H.KeepsTrans(heap.c, p, fl, p1, fl1, heap.View(), heap.free, old(heap.handles.Keys) - {h});
      }
    }

    /** async_free_zspage, first half: splice out the empty zspages of the class. */
    method SpliceEmpty()
      requires Valid()
      modifies this`lists, this`spliced
      ensures Valid() && |old(lists)| == GROUPS && Books() == Splice(old(Books()))
    {
      hide ClassOk;
      ClassParts(heap.c, heap.View(), heap.free, Books(), counts, held);
      SplicedOk(heap.c, heap.View(), heap.free, Books(), counts, held);
      spliced := lists[0] + spliced;
      lists := lists[0 := []];
    }

    /** async_free_zspage, second half: free the first spliced zspage. */
    method FreeSpliced()
      requires Valid() && spliced != []
      modifies this`spliced, this`stat, this`counts, heap
      ensures Valid() && Undisturbed()
      ensures spliced == old(spliced)[1..] && heap.zs == old(heap.zs) - {old(spliced)[0]}
    {
      hide ClassOk, PoolOk, Keeps, Geometry.Objs;
      ghost var p, fl := heap.View(), heap.free;
      ClassParts(heap.c, p, fl, Books(), counts, held);
      UnsplicedOk(heap.c, p, fl, Books(), counts, held);
      SplicedEmptyHead(heap.c, p, fl, Books(), counts, held);
      var z := spliced[0];
      spliced := spliced[1..];
      stat := stat[0 := stat[0] - 1];
      heap.FreeZspage(z);
      FreedOk(heap.c, p, fl, Books(), counts, held + {z}, heap.View(), heap.free, z);
      assert held + {z} - {z} == held;
      counts := Counts(counts.slots - heap.c.g.Objs(), counts.inuse, counts.pages - heap.c.g.npages);
    }

    // -------------------------------------------------------------------------------------------
    // Compaction.

    /** list_first_entry and remove_zspage: take the first zspage off the list of group fg. */
    method TakeFirst(fg: nat) returns (z: nat)
      requires Valid() && 1 <= fg < GROUPS - 1 && |lists| == GROUPS && lists[fg] != []
      modifies this`lists, this`stat, this`held
      ensures Valid() && z == old(lists)[fg][0] && z !in old(held) && held == old(held) + {z}
      ensures |lists| == GROUPS && z in Partly(heap.c, heap.zs) && z in heap.zs
    {
      hide ClassOk, Geometry.Objs, Listed, Remove, FullnessGroup, PoolOk;
      ClassParts(heap.c, heap.View(), heap.free, Books(), counts, held);
      z := lists[fg][0];
      HeadOf(heap.c, heap.View(), heap.free, Books(), counts, held, fg);
      TakeOffOk(heap.c, heap.View(), heap.free, Books(), counts, held, z);
      RemoveZspage(z);
      held := held + {z};
      ClassParts(heap.c, heap.View(), heap.free, Books(), counts, held);
    }

    /** isolate_src_zspage: take the first zspage of the emptiest group of partly full ones. */
    method IsolateSrc() returns (found: bool, z: nat)
      requires Valid()
      modifies this`lists, this`stat, this`held
      ensures Valid() && |lists| == GROUPS && held == old(held) + if found then {z} else {}
      ensures found ==> Emptiest(old(lists), 1, z) && z in heap.zs && z in Partly(heap.c, heap.zs) && z !in old(held)
      ensures !found ==> Books() == old(Books()) && forall g :: 1 <= g < GROUPS - 1 ==> lists[g] == []
    {
      hide ClassOk, Geometry.Objs, Partly;
      ClassParts(heap.c, heap.View(), heap.free, Books(), counts, held);
      var fg := 1;
      while fg < GROUPS - 1
        invariant 1 <= fg <= GROUPS - 1
        invariant forall g :: 1 <= g < fg ==> lists[g] == []
      {
        if lists[fg] != [] {
          found := true;
          z := TakeFirst(fg);
          return;
        }
        fg := fg + 1;
      }
      found, z := false, 0;
    }

    /** isolate_dst_zspage: take the first zspage of the fullest group of partly full ones. */
    method IsolateDst() returns (found: bool, z: nat)
      requires Valid()
      modifies this`lists, this`stat, this`held
      ensures Valid() && |lists| == GROUPS && held == old(held) + if found then {z} else {}
      ensures found ==> Fullest(old(lists), 1, z) && z in heap.zs && z in Partly(heap.c, heap.zs) && z !in old(held)
      ensures !found ==> Books() == old(Books()) && forall g :: 1 <= g < GROUPS - 1 ==> lists[g] == []
    {
      hide ClassOk, Geometry.Objs, Partly;
      ClassParts(heap.c, heap.View(), heap.free, Books(), counts, held);
      var fg := GROUPS - 2;
      while fg >= 1
        invariant 0 <= fg <= GROUPS - 2
        invariant forall g :: fg < g < GROUPS - 1 ==> lists[g] == []
      {
        if lists[fg] != [] {
          found := true;
          z := TakeFirst(fg);
          return;
        }
        fg := fg - 1;
      }
      found, z := false, 0;
    }

    /** putback_zspage: insert the zspage into the list of its group, and say which. */
    method Putback(z: nat) returns (fg: nat)
      requires Valid() && z in held && z in heap.zs
      modifies this`lists, this`fullness, this`stat, this`held
      ensures Valid() && held == old(held) - {z}
      ensures fg == 0 <==> heap.zs[z].inuse == 0
    {
      hide ClassOk, Geometry.Objs, Insert, FullnessGroup, PoolOk;
      ClassParts(heap.c, heap.View(), heap.free, Books(), counts, held);
      PutBackOk(heap.c, heap.View(), heap.free, Books(), counts, held, z);
      fg := FullnessGroup(heap.zs[z].inuse, heap.c.g.Objs());
      InsertZspage(z, fg);
      held := held - {z};
    }

    /** One turn of the loop of __zs_compact, with source and destination isolated. */
    method Turn(s: nat, d: nat, trylock: bool) returns (freed: nat)
      requires Valid() && s != d && held == {s, d} && s in Partly(heap.c, heap.zs) && d in Partly(heap.c, heap.zs)
      modifies this`lists, this`fullness, this`stat, this`counts, this`held, heap
      ensures Valid() && Undisturbed() && held == {d} && d in heap.zs && 0 < heap.zs[d].inuse
      ensures Partly(heap.c, heap.zs) < Partly(heap.c, old(heap.zs))
      ensures trylock && old(NoEmpty(heap.zs)) ==> NoEmpty(heap.zs)
      ensures Freed(heap.c, old(counts), counts, freed, trylock)
      ensures Reported(heap.c, old(heap.zs), heap.zs, freed, trylock)
    {
      hide ClassOk, PoolOk, Keeps, Geometry.Objs, Partly, Reported;
      ghost var p, fl := heap.View(), heap.free;
      ClassParts(heap.c, p, fl, Books(), counts, held);
      PartlyRoom(heap.c, p, s);
      PartlyRoom(heap.c, p, d);
      heap.MigrateZspage(s, d);
      ghost var p1, fl1 := heap.View(), heap.free;
      H.PoolBound(heap.c, p1, fl1, s);
      H.PoolBound(heap.c, p1, fl1, d);
      MovedOk(heap.c, p, fl, Books(), counts, held, p1, fl1, s, d);
      HeldApart(heap.c, p1, fl1, Books(), counts, held, s);
      var fg := Putback(s);
      freed := 0;
      H.KeepsBoth(heap.c, p, fl, p1, fl1, old(heap.handles.Keys));
      if fg == 0 {
        FreeZspage(s, trylock);
        freed := heap.c.g.npages;
        H.KeepsTrans(heap.c, p, fl, p1, fl1, heap.View(), heap.free, old(heap.handles.Keys));
      }
      Fewer(heap.c, p.zs, heap.zs, s, d);
      OneReported(heap.c, p.zs, heap.zs, s, d, freed, trylock);
    }

    /** The end of a pass: a destination that is full, or any if the lock is wanted elsewhere, goes back to its list. */
    method Settle(d: nat, contended: bool) returns (dst: Dst)
      requires Valid() && held == {d} && d in heap.zs && 0 < heap.zs[d].inuse
      modifies this`lists, this`fullness, this`stat, this`held
      ensures Valid() && DstOk(heap.c, heap.zs, dst, held)
    {
      hide ClassOk, PoolOk, Geometry.Objs, Partly, FullnessGroup;
      ClassParts(heap.c, heap.View(), heap.free, Books(), counts, held);
      PartlyUnlessFull(heap.c, heap.zs, d);
      var fg := FullnessGroup(heap.zs[d].inuse, heap.c.g.Objs());
      dst := Dst(d);
      if fg == GROUPS - 1 || contended {
        fg := Putback(d);
        dst := NoDst;
      }
    }

    /** Isolate a destination unless there is one. */
    method NeedDst(dst: Dst) returns (found: bool, d: nat)
      requires Valid() && DstOk(heap.c, heap.zs, dst, held)
      modifies this`lists, this`stat, this`held
      ensures Valid() && DstOk(heap.c, heap.zs, if found then Dst(d) else NoDst, held) &&
        (dst.Dst? ==> found && d == dst.z)
      ensures heap.c.g.Objs() > 0 &&
        (!found ==> NoEmpty(heap.zs) ==> CanCompact(counts, heap.c.g.Objs(), heap.c.g.npages) == 0)
    {
      hide ClassOk, PoolOk, Geometry.Objs, Partly, NoEmpty, CanCompact;
      ClassParts(heap.c, heap.View(), heap.free, Books(), counts, held);
      if dst.Dst? { return true, dst.z; }
      found, d := IsolateDst();
      if !found { Exhausted(heap.c, heap.View(), heap.free, Books(), counts, held); }
    }

    /** One pass of the loop of __zs_compact: make sure of a destination, take a source, move, put back. */
    method Pass(dst: Dst, contended: bool, trylock: bool) returns (stop: bool, dst': Dst, freed: nat)
      requires Valid() && DstOk(heap.c, heap.zs, dst, held)
      modifies this`lists, this`fullness, this`stat, this`counts, this`held, heap
      ensures Valid() && Undisturbed() && DstOk(heap.c, heap.zs, dst', held)
      ensures heap.c.g.Objs() > 0 && Freed(heap.c, old(counts), counts, freed, trylock)
      ensures trylock && NoEmpty(old(heap.zs)) ==> NoEmpty(heap.zs)
      ensures Reported(heap.c, old(heap.zs), heap.zs, freed, trylock)
      ensures stop ==> NoEmpty(heap.zs) ==> CanCompact(counts, heap.c.g.Objs(), heap.c.g.npages) == 0
      ensures !stop ==> Partly(heap.c, heap.zs) < Partly(heap.c, old(heap.zs))
    {
      hide ClassOk, PoolOk, Keeps, Geometry.Objs, NoEmpty, Partly, CanCompact, FullnessGroup, Reported;
      ClassParts(heap.c, heap.View(), heap.free, Books(), counts, held);
      NoneReported(heap.c, heap.zs, trylock);
      H.KeepsRefl(heap.c, heap.View(), heap.free);
      stop, dst', freed := true, dst, 0;
      var found, d := NeedDst(dst);
      if !found { return; }
      dst' := Dst(d);
      var s;
      found, s := IsolateSrc();
      if !found {
        Exhausted(heap.c, heap.View(), heap.free, Books(), counts, held);
        return;
      }
      assert held == {s, d};
      stop := false;
      freed := Turn(s, d, trylock);
      dst' := Settle(d, contended);
    }

    /** __zs_compact. `contended(i)` and `trylock(i)` say what pass i finds of the lock and of the source's page
        locks. */
    method Compact(contended: nat -> bool, trylock: nat -> bool) returns (freed: nat)
      requires Valid() && held == {}
      modifies this`lists, this`fullness, this`stat, this`counts, this`held, heap
      ensures Valid() && held == {} && Undisturbed() && heap.c.g.Objs() > 0
      ensures counts.inuse == old(counts.inuse)
      ensures old(NoEmpty(heap.zs)) && (forall i :: trylock(i)) ==>
        freed == CanCompact(old(counts), heap.c.g.Objs(), heap.c.g.npages) && NoEmpty(heap.zs)
      ensures Reported(heap.c, old(heap.zs), heap.zs, freed, forall i :: trylock(i))
      ensures RightIfGone(heap.c, old(heap.zs), heap.zs, freed)
    {
      hide ClassOk, PoolOk, Keeps, Geometry.Objs, NoEmpty, Partly, CanCompact, Exactly, Reported, RightIfGone;
      ClassParts(heap.c, heap.View(), heap.free, Books(), counts, held);
      H.KeepsRefl(heap.c, heap.View(), heap.free);
      ghost var sure := forall i :: trylock(i);
      ghost var exact := NoEmpty(heap.zs) && sure;
      ghost var gone := 0;
      var dst, i, stop := NoDst, 0, false;
      freed := 0;
      NoneGone(heap.c, counts);
      NoneReported(heap.c, heap.zs, sure);
      while !stop && CanCompact(counts, heap.c.g.Objs(), heap.c.g.npages) > 0
        invariant Valid() && Undisturbed() && DstOk(heap.c, heap.zs, dst, held)
        invariant counts.inuse == old(counts.inuse) && Reported(heap.c, old(heap.zs), heap.zs, freed, sure)
        invariant exact ==> NoEmpty(heap.zs) && Exactly(heap.c, old(counts), counts, freed, gone)
        invariant exact && stop ==> CanCompact(counts, heap.c.g.Objs(), heap.c.g.npages) == 0
        decreases !stop, Partly(heap.c, heap.zs)
      {
        ghost var p, fl, n := heap.View(), heap.free, counts;
        var more;
        stop, dst, more := Pass(dst, contended(i), trylock(i));
        H.KeepsTrans(heap.c, old(heap.View()), old(heap.free), p, fl, heap.View(), heap.free, old(heap.handles.Keys));
        if exact { OneGone(heap.c, old(counts), n, counts, freed, gone, more); }
        MoreReported(heap.c, old(heap.zs), p.zs, heap.zs, freed, more, trylock(i), sure);
        freed, gone, i := freed + more, if more > 0 then gone + 1 else gone, i + 1;
      }
      ClassParts(heap.c, heap.View(), heap.free, Books(), counts, held);
      if exact {
        NeverOverfull(heap.c, heap.View(), heap.free, Books(), counts, held);
        AllGone(heap.c, old(counts), counts, freed, gone);
      }
      ReportedIff(heap.c, old(heap.zs), heap.zs, freed, sure);
      if dst.Dst? {
        var _ := Putback(dst.z);
      }
    }
  }

  lemma StartsEmpty(c: Config, p: Pool, fl: Lists, b: Board)
    requires PoolOk(c, p, fl) && c.Ok() && p.zs == map[]
    requires b.lists == seq(GROUPS, _ => []) && b.stat == seq(GROUPS, _ => 0) && b.spliced == []
    ensures ClassOk(c, p, fl, b, Counts(0, 0, 0), {})
  {
    AfterLastSlot(c.g);
    assert Inuse(p.zs) == map[];
    assert Number(p.zs) == 0;
  }

  /** A zspage with fewer objects than slots has a free slot. */
  lemma RoomOk(c: Config, p: Pool, fl: Lists, z: nat)
    requires PoolOk(c, p, fl) && z in p.zs
    ensures c.Ok() && z in fl && p.zs[z].inuse <= c.g.Objs() && 0 < c.g.Objs()
    ensures p.zs[z].inuse < c.g.Objs() <==> fl[z] != []
  {
    H.PoolBound(c, p, fl, z);
    AfterLastSlot(c.g);
  }

  lemma SplicedEmpty(c: Config, p: Pool, fl: Lists, b: Board, n: Counts, held: set<nat>, z: nat)
    requires ClassOk(c, p, fl, b, n, held) && z in p.zs && p.zs[z].inuse > 0
    ensures z !in b.spliced
  {
    assert Inuse(p.zs)[z] > 0;
  }

  lemma SplicedEmptyHead(c: Config, p: Pool, fl: Lists, b: Board, n: Counts, held: set<nat>)
    requires ClassOk(c, p, fl, b, n, held) && b.spliced != []
    ensures b.spliced[0] !in held
  {
    assert b.spliced[0] in b.spliced;
  }

  /** A partly full zspage has objects, room, and more than one slot. */
  lemma PartlyRoom(c: Config, p: Pool, z: nat)
    requires c.Ok() && z in Partly(c, p.zs)
    ensures z in p.zs && 0 < p.zs[z].inuse < c.g.Objs() && !c.g.Huge()
  {
  }

  lemma HeldApart(c: Config, p: Pool, fl: Lists, b: Board, n: Counts, held: set<nat>, z: nat)
    requires ClassOk(c, p, fl, b, n, held) && z in held
    ensures z !in b.spliced
  {
  }

  /** After objects moved from s to d, and s was possibly freed, fewer zspages are partly full. */
  lemma Fewer(c: Config, zs: map<nat, Zspage>, zs': map<nat, Zspage>, s: nat, d: nat)
    requires c.Ok() && s != d && {s, d} <= Partly(c, zs)
    requires zs'.Keys <= zs.Keys && (forall z :: z in zs' && z != s && z != d ==> zs'[z] == zs[z])
    requires (d in zs' ==> zs'[d].inuse == c.g.Objs()) || (s in zs' ==> zs'[s].inuse == 0)
    ensures Partly(c, zs') < Partly(c, zs)
  {
    assert s !in Partly(c, zs') || d !in Partly(c, zs');
  }

  /** `gone` whole zspages were freed, and nothing else. */
  predicate Exactly(c: Config, first: Counts, now: Counts, freed: nat, gone: nat)
    requires c.g.sz > 0
  {
    && now.inuse == first.inuse
    && now.slots == first.slots - Times(c.g.Objs(), gone)
    && freed == Times(c.g.npages, gone)
  }

  lemma NoneGone(c: Config, n: Counts)
    requires c.g.sz > 0
    ensures Exactly(c, n, n, 0, 0)
  {
  }

  lemma OneGone(c: Config, first: Counts, n: Counts, n': Counts, freed: nat, gone: nat, more: nat)
    requires c.Ok() && Exactly(c, first, n, freed, gone) && Freed(c, n, n', more, true)
    ensures Exactly(c, first, n', freed + more, if more > 0 then gone + 1 else gone)
  {
    hide Times, Geometry.Objs;
    CountOne(c.g.npages, gone);
    CountOne(c.g.Objs(), gone);
  }

  lemma AllGone(c: Config, first: Counts, last: Counts, freed: nat, gone: nat)
    requires c.Ok() && c.g.Objs() > 0 && Exactly(c, first, last, freed, gone)
    requires last.inuse <= last.slots && CanCompact(last, c.g.Objs(), c.g.npages) == 0
    ensures CanCompact(first, c.g.Objs(), c.g.npages) == freed
  {
    ExactGain(first, last, c.g.Objs(), c.g.npages, gone);
  }

  lemma NoneReported(c: Config, zs: map<nat, Zspage>, sure: bool)
    ensures Reported(c, zs, zs, 0, sure)
  {
    assert Emptied(zs, zs) == {};
  }

  lemma OneReported(c: Config, zs: map<nat, Zspage>, zs': map<nat, Zspage>, s: nat, d: nat, freed: nat, sure: bool)
    requires s in zs && d in zs && 0 < zs[s].inuse && 0 < zs[d].inuse && d in zs' && 0 < zs'[d].inuse
    requires zs.Keys - {s} <= zs'.Keys <= zs.Keys && forall z :: z in zs' && z != s && z != d ==> zs'[z] == zs[z]
    requires freed == if s in zs' && zs'[s].inuse > 0 then 0 else c.g.npages
    requires sure && s in zs' ==> zs'[s].inuse > 0
    ensures Reported(c, zs, zs', freed, sure)
  {
    assert Emptied(zs, zs') == if s in zs' && zs'[s].inuse > 0 then {} else {s};
  }

  lemma EmptiedTwice(zs: map<nat, Zspage>, zs1: map<nat, Zspage>, zs2: map<nat, Zspage>)
    requires Drains(zs, zs1) && Drains(zs1, zs2)
    ensures Drains(zs, zs2) && Emptied(zs, zs1) !! Emptied(zs1, zs2)
    ensures Emptied(zs, zs2) == Emptied(zs, zs1) + Emptied(zs1, zs2)
    ensures forall z :: z in Emptied(zs, zs1) && z !in zs1 ==> z !in zs2
  {
    forall z ensures z in Emptied(zs, zs2) <==> z in Emptied(zs, zs1) || z in Emptied(zs1, zs2) {
      if z in zs && z in zs1 && zs1[z].inuse == 0 { assert z in zs2 && zs2[z].inuse == 0; }
    }
  }

  /** What one pass emptied comes on top of what the passes before it did. */
  lemma MoreReported(c: Config, zs: map<nat, Zspage>, zs1: map<nat, Zspage>, zs2: map<nat, Zspage>, freed: nat,
      more: nat,
      trylock: bool, sure: bool)
    requires Reported(c, zs, zs1, freed, sure) && Reported(c, zs1, zs2, more, trylock) && (sure ==> trylock)
    ensures Reported(c, zs, zs2, freed + more, sure)
  {
    hide Times, Emptied, Drains;
    EmptiedTwice(zs, zs1, zs2);
    TimesSum(c.g.npages, |Emptied(zs, zs1)|, |Emptied(zs1, zs2)|);
  }

  lemma GoneEmptied(zs: map<nat, Zspage>, zs': map<nat, Zspage>)
    requires Drains(zs, zs')
    ensures zs.Keys - zs'.Keys <= Emptied(zs, zs')
    ensures Emptied(zs, zs') <= zs.Keys - zs'.Keys <==> forall z :: z in Emptied(zs, zs') ==> z !in zs'
  {
  }

  lemma SameSize<T>(a: set<T>, b: set<T>)
    requires a <= b
    ensures |a| == |b| <==> b <= a
  {
    assert b == a + (b - a);
    if |a| == |b| { assert b - a == {}; }
  }

  lemma ReportedIff(c: Config, zs: map<nat, Zspage>, zs': map<nat, Zspage>, freed: nat, sure: bool)
    requires Reported(c, zs, zs', freed, sure) && c.g.npages > 0
    ensures RightIfGone(c, zs, zs', freed)
  {
    hide Times, Emptied, Drains;
    GoneEmptied(zs, zs');
    SameSize(zs.Keys - zs'.Keys, Emptied(zs, zs'));
    TimesSame(c.g.npages, |Emptied(zs, zs')|, |zs.Keys - zs'.Keys|);
  }

  lemma PartlyUnlessFull(c: Config, zs: map<nat, Zspage>, z: nat)
    requires c.Ok() && z in zs && 0 < zs[z].inuse <= c.g.Objs()
    ensures z in Partly(c, zs) || zs[z].inuse == c.g.Objs()
  {
  }

  /** Without empty zspages, compaction only stops looking when there is nothing to gain. */
  lemma Exhausted(c: Config, p: Pool, fl: Lists, b: Board, n: Counts, held: set<nat>)
    requires ClassOk(c, p, fl, b, n, held) && |held| <= 1
    requires |b.lists| == GROUPS && forall g :: 1 <= g < GROUPS - 1 ==> b.lists[g] == []
    ensures c.g.Objs() > 0 && (NoEmpty(p.zs) ==> CanCompact(n, c.g.Objs(), c.g.npages) == 0)
  {
    hide ClassOk, NoEmpty, CanCompact, Geometry.Objs;
    ClassParts(c, p, fl, b, n, held);
    if NoEmpty(p.zs) { NothingToGain(c, p, fl, b, n, held); }
  }
}
