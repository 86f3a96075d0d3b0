/** Addresses, page table entries and cached translations together: why the TLB need not be flushed at every unmap. */
module FastTlb {
  import opened FastIova

  /** A buffer on its way: address taken, pages mapped, pages unmapped. */
  datatype Phase = Fetched | InUse | Done
  datatype Buffer = Buffer(bit: nat, n: nat, phase: Phase)

  /**
   * The allocator; the buffers there are; pages with a valid entry; pages with a cached translation;
   * pages handed out since the last flush; pages reserved.
   */
  datatype World =
    World(s: Iova, bufs: map<nat, Buffer>, ptes: set<nat>, tlb: set<nat>, handed: set<nat>, reserved: set<nat>)

  predicate Inside(bit: nat, n: nat, p: nat) { bit <= p < bit + n }

  function Range(bit: nat, n: nat): set<nat> { set p: nat | p < bit + n && Inside(bit, n, p) }

  function Pages(b: Buffer): set<nat> { Range(b.bit, b.n) }

  datatype Event =
    | Alloc(id: nat, bit: nat, n: nat, flushed: bool)
    | AllocFails(n: nat, flushed: bool)
    | Map(id: nat)
    | Access(p: nat)
    | Unmap(id: nat)
    | Free(id: nat)
    | Reserve(bit: nat, n: nat)

  /** One step of a driver, the device or the allocator. */
  ghost predicate Next(w: World, ev: Event, w': World) {
    match ev
    case Alloc(id, bit, n, flushed) =>
      && id !in w.bufs && n > 0 && Taken(w.s, w'.s, bit, n, flushed)
      && w' == w.(s := w'.s, bufs := w.bufs[id := Buffer(bit, n, Fetched)], tlb := if flushed then {} else w.tlb,
                  handed := (if flushed then {} else w.handed) + Range(bit, n))
    case AllocFails(n, flushed) =>
      && Refused(w.s, w'.s, n, flushed)
      && w' == w.(s := w'.s, tlb := if flushed then {} else w.tlb, handed := if flushed then {} else w.handed)
    case Map(id) =>
      && id in w.bufs && w.bufs[id].phase == Fetched
      && w' == w.(bufs := w.bufs[id := w.bufs[id].(phase := InUse)], ptes := w.ptes + Pages(w.bufs[id]))
    case Access(p) => p in w.ptes && w' == w.(tlb := w.tlb + {p})
    case Unmap(id) =>
      && id in w.bufs && w.bufs[id].phase == InUse
      && w' == w.(bufs := w.bufs[id := w.bufs[id].(phase := Done)], ptes := w.ptes - Pages(w.bufs[id]))
    case Free(id) =>
      && id in w.bufs && w.bufs[id].phase != InUse && w.bufs[id].bit + w.bufs[id].n <= |w.s.live|
      && w' == w.(s := w.s.(live := Put(w.s.live, w.bufs[id].bit, w.bufs[id].n, false), stale := true),
        bufs := w.bufs - {id})
    case Reserve(bit, n) =>
      && bit + n <= |w.s.live| == |w.s.clean| && (forall id, p :: Holds(w, id, p) ==> p !in Range(bit, n))
      && w' == w.(s := w.s.(live := Put(w.s.live, bit, n, true), clean := Put(w.s.clean, bit, n, true)),
                  reserved := w.reserved + Range(bit, n))
  }

  /** A page a buffer holds. */
  ghost predicate Holds(w: World, id: nat, p: nat) { id in w.bufs && p in Pages(w.bufs[id]) }

  predicate Marked(b: Bits, p: nat) { p < |b| && b[p] }

  ghost predicate Inv(w: World) {
    && IovaOk(w.s)
    && (forall id, p :: Holds(w, id, p) ==> Marked(w.s.live, p))
    && (forall i, j, p :: Holds(w, i, p) && Holds(w, j, p) ==> i == j)
    && (forall p :: p in w.ptes ==> exists id :: Holds(w, id, p) && w.bufs[id].phase == InUse)
    && (forall p :: p in w.tlb ==> Marked(w.s.clean, p))
    && (forall p :: p in w.handed ==> Marked(w.s.clean, p))
    && (forall p :: p in w.reserved ==> Marked(w.s.live, p) && Marked(w.s.clean, p))
    && (forall id, p :: Holds(w, id, p) ==> p !in w.reserved)
  }

  /** A new mapping. */
  lemma StartInv(w: World)
    requires IovaOk(w.s) && w.bufs == map[] && w.ptes == w.tlb == w.handed == w.reserved == {}
    ensures Inv(w)
  {
  }

  /** What a successful allocation guarantees: no page of it is cached, was handed out since the last flush, is held or
      reserved. */
  lemma AllocSafe(w: World, id: nat, bit: nat, n: nat, flushed: bool, w': World)
    requires Inv(w) && Next(w, Alloc(id, bit, n, flushed), w')
    ensures Range(bit, n) !! w'.tlb
    ensures !flushed ==> Range(bit, n) !! w.handed
    ensures Range(bit, n) !! w.reserved
    ensures forall j, p :: Holds(w, j, p) ==> p !in Range(bit, n)
  {
    var clean := if flushed then w.s.live else w.s.clean;
    forall p | p in Range(bit, n) ensures !Marked(clean, p) && !Marked(w.s.live, p) {
      assert !clean[p];
    }
  }

  lemma AllocInv(w: World, id: nat, bit: nat, n: nat, flushed: bool, w': World)
    requires Inv(w) && Next(w, Alloc(id, bit, n, flushed), w')
    ensures Inv(w')
  {
    AllocSafe(w, id, bit, n, flushed, w');
    forall j, p | Holds(w', j, p) ensures Marked(w'.s.live, p) && (j != id ==> Holds(w, j, p)) {
      assert j != id ==> Holds(w, j, p);
    }
    forall p | p in w'.ptes ensures exists j :: Holds(w', j, p) && w'.bufs[j].phase == InUse {
      var j :| Holds(w, j, p) && w.bufs[j].phase == InUse;
      assert Holds(w', j, p);
    }
  }

  lemma PhaseInv(w: World, id: nat, phase: Phase, ptes: set<nat>)
    requires Inv(w) && id in w.bufs
    requires forall p :: p in ptes ==>
      (p in w.ptes && (phase == InUse || !Holds(w, id, p))) || (phase == InUse && Holds(w, id, p))
    ensures Inv(w.(bufs := w.bufs[id := w.bufs[id].(phase := phase)], ptes := ptes))
  {
    var w' := w.(bufs := w.bufs[id := w.bufs[id].(phase := phase)], ptes := ptes);
    assert forall j, p :: Holds(w', j, p) <==> Holds(w, j, p);
    forall p | p in ptes ensures exists j :: Holds(w', j, p) && w'.bufs[j].phase == InUse {
      if phase == InUse && Holds(w, id, p) {
        assert Holds(w', id, p);
      } else {
        var j :| Holds(w, j, p) && w.bufs[j].phase == InUse;
        assert Holds(w', j, p) && j != id;
      }
    }
  }

  lemma FreeInv(w: World, id: nat, w': World)
    requires Inv(w) && Next(w, Free(id), w')
    ensures Inv(w')
  {
    forall j, p | Holds(w', j, p) ensures Marked(w'.s.live, p) && p !in w'.reserved {
      assert Holds(w, j, p) && j != id;
      assert !Holds(w, id, p);
    }
    forall p | p in w'.reserved ensures Marked(w'.s.live, p) { assert !Holds(w, id, p); }
    forall i, j, p | Holds(w', i, p) && Holds(w', j, p) ensures i == j { assert Holds(w, i, p) && Holds(w, j, p); }
    forall p | p in w'.ptes ensures exists j :: Holds(w', j, p) && w'.bufs[j].phase == InUse {
      var j :| Holds(w, j, p) && w.bufs[j].phase == InUse;
      assert Holds(w', j, p);
    }
  }

  lemma ReserveInv(w: World, bit: nat, n: nat, w': World)
    requires Inv(w) && Next(w, Reserve(bit, n), w')
    ensures Inv(w')
  {
    forall id, p | Holds(w', id, p) ensures Holds(w, id, p) && Marked(w'.s.live, p) && p !in w'.reserved {
      assert Holds(w, id, p);
    }
    forall p | p in w'.ptes ensures exists j :: Holds(w', j, p) && w'.bufs[j].phase == InUse {
      var j :| Holds(w, j, p) && w.bufs[j].phase == InUse;
      assert Holds(w', j, p);
    }
  }

  /** Every step keeps the invariant. In particular entries go before addresses: only so can a page be cached only
      while it is marked. */
  lemma NextInv(w: World, ev: Event, w': World)
    requires Inv(w) && Next(w, ev, w')
    ensures Inv(w')
  {
    match ev
    case Alloc(id, bit, n, flushed) => AllocInv(w, id, bit, n, flushed, w');
    case AllocFails(n, flushed) =>
      forall id, p | Holds(w', id, p) ensures Holds(w, id, p) {}
      forall p | p in w'.ptes ensures exists j :: Holds(w', j, p) && w'.bufs[j].phase == InUse {
        var j :| Holds(w, j, p) && w.bufs[j].phase == InUse;
        assert Holds(w', j, p);
      }
    case Map(id) => PhaseInv(w, id, InUse, w.ptes + Pages(w.bufs[id]));
    case Access(p) =>
      var j :| Holds(w, j, p) && w.bufs[j].phase == InUse;
      assert Marked(w.s.clean, p);
      forall id, q | Holds(w', id, q) ensures Holds(w, id, q) {}
      forall q | q in w'.ptes ensures exists k :: Holds(w', k, q) && w'.bufs[k].phase == InUse {
        var k :| Holds(w, k, q) && w.bufs[k].phase == InUse;
        assert Holds(w', k, q);
      }
    case Unmap(id) => PhaseInv(w, id, Done, w.ptes - Pages(w.bufs[id]));
    case Free(id) => FreeInv(w, id, w');
    case Reserve(bit, n) => ReserveInv(w, bit, n, w');
  }

  /** A run: worlds and the events between them. */
  ghost predicate Run(ws: seq<World>, evs: seq<Event>) {
    |ws| == |evs| + 1 && forall i :: 0 <= i < |evs| ==> Next(ws[i], evs[i], ws[i + 1])
  }

  /** In every run, an address range that was just handed out has no cached translation and no reserved page,
      and no page since the last flush comes twice. */
  lemma {:induction false} RunSafe(ws: seq<World>, evs: seq<Event>, i: nat)
    requires Run(ws, evs) && Inv(ws[0]) && i <= |evs|
    ensures Inv(ws[i])
    ensures i < |evs| && evs[i].Alloc? ==> Range(evs[i].bit, evs[i].n) !! ws[i + 1].tlb
    ensures i < |evs| && evs[i].Alloc? && !evs[i].flushed ==> Range(evs[i].bit, evs[i].n) !! ws[i].handed
    ensures i < |evs| && evs[i].Alloc? ==> Range(evs[i].bit, evs[i].n) !! ws[i].reserved
    decreases i
  {
    if i > 0 {
      RunSafe(ws, evs, i - 1);
      NextInv(ws[i - 1], evs[i - 1], ws[i]);
    }
    if i < |evs| && evs[i].Alloc? { AllocSafe(ws[i], evs[i].id, evs[i].bit, evs[i].n, evs[i].flushed, ws[i + 1]); }
  }

  /** What was reserved at any time is never handed out later. */
  lemma {:induction false} NeverReserved(ws: seq<World>, evs: seq<Event>, j: nat, i: nat)
    requires Run(ws, evs) && Inv(ws[0]) && j <= i < |evs| && evs[i].Alloc?
    ensures Range(evs[i].bit, evs[i].n) !! ws[j].reserved
  {
    RunSafe(ws, evs, i);
    ReservedStays(ws, evs, j, i);
  }

  lemma {:induction false} ReservedStays(ws: seq<World>, evs: seq<Event>, j: nat, i: nat)
    requires Run(ws, evs) && j <= i <= |evs|
    ensures ws[j].reserved <= ws[i].reserved
    decreases i - j
  {
    if j < i {
      ReservedStays(ws, evs, j, i - 1);
      assert Next(ws[i - 1], evs[i - 1], ws[i]);
    }
  }
}
