/** LPAE tables in memory: pages by address, and which table each page holds. */
module LpaeMem {
  import opened Counting
  import opened LpaeLevels
  import opened LpaeAddr
  import opened LpaeTable
  import opened LpaeOps

  type Mem = map<nat, seq<Pte>>
  type Where = map<Label, nat>

  ghost function TabOf(mem: Mem, at: Where): Tab { map l | l in at && at[l] in mem :: mem[at[l]] }

  /** Every table has its own page. */
  ghost predicate Placed(mem: Mem, at: Where) {
    && (forall l :: l in at ==> at[l] in mem)
    && (forall l, m :: l in at && m in at && at[l] == at[m] ==> l == m)
  }

  /** Pages waiting to be freed or free to be used hold no table, and each is listed once. */
  ghost predicate Apart(at: Where, pool: seq<nat>, queue: seq<nat>) {
    Distinct(pool + queue) && forall l :: l in at ==> at[l] !in pool && at[l] !in queue
  }

  ghost predicate MemOk(g: Geom, root: nat, mem: Mem, at: Where, pool: seq<nat>, queue: seq<nat>) {
    && Placed(mem, at) && Apart(at, pool, queue)
    && Shape(g, at, TabOf(mem, at)) && Counted(g, TabOf(mem, at))
    && Label(g.H, 0) in at && at[Label(g.H, 0)] == root
  }

  /** Is page a a table, queued or free? */
  ghost predicate Owned(at: Where, pool: seq<nat>, queue: seq<nat>, a: nat) {
    a in pool || a in queue || exists l :: l in at && at[l] == a
  }

  /** No page is lost or won. */
  ghost predicate SamePages(at: Where, pool: seq<nat>, queue: seq<nat>, at': Where, pool': seq<nat>, queue': seq<nat>) {
    forall a :: Owned(at, pool, queue, a) <==> Owned(at', pool', queue', a)
  }

  /** Page a holds the table that x meets at height h. */
  ghost predicate Here(g: Geom, at: Where, h: nat, x: nat, a: nat) {
    g.Ok() && h <= g.H && Slot(g, h, x) in at && at[Slot(g, h, x)] == a
  }

  // ---------------------------------------------------------------------------------------------
  // Writing to a page is writing to its table.

  lemma TabKeys(mem: Mem, at: Where)
    requires Placed(mem, at)
    ensures TabOf(mem, at).Keys == at.Keys
    ensures forall l :: l in at ==> TabOf(mem, at)[l] == mem[at[l]]
  {
  }

  lemma WriteOne(mem: Mem, at: Where, l: Label, s: seq<Pte>)
    requires Placed(mem, at) && l in at
    ensures Placed(mem[at[l] := s], at)
    ensures SameBut(TabOf(mem, at), TabOf(mem[at[l] := s], at), l) && TabOf(mem[at[l] := s], at)[l] == s
  {
  }

  lemma NewPage(mem: Mem, at: Where, kid: Label, a: nat, s: seq<Pte>)
    requires Placed(mem, at) && kid !in at && a !in at.Values
    ensures Placed(mem[a := s], at[kid := a])
    ensures TabOf(mem[a := s], at[kid := a]) == TabOf(mem, at)[kid := s]
    ensures TabOf(mem[a := s], at) == TabOf(mem, at) && Placed(mem[a := s], at)
  {
    assert forall l :: l in at ==> at[l] in at.Values;
  }

  // ---------------------------------------------------------------------------------------------
  // The walk.

  /** arm_lpae_iova_to_phys, from a table on. */
  function Walk(g: Geom, mem: Mem, a: nat, h: nat, x: nat): Phys
    requires g.Ok()
    decreases h
  {
    if a !in mem || g.Index(h, x) >= |mem[a]| then Fault
    else match mem[a][g.Index(h, x)]
         case Empty => Fault
         case Leaf(pa, prot) => Phys(Or(pa, g.Off(h, x)), prot)
         case Table(c, _) => if h == 0 then Fault else Walk(g, mem, c, h - 1, x)
  }

  /** Following pointers is following places. */
  lemma {:induction false} WalkLook(g: Geom, mem: Mem, at: Where, a: nat, h: nat, x: nat)
    requires Placed(mem, at) && Shape(g, at, TabOf(mem, at)) && Here(g, at, h, x, a)
    ensures Walk(g, mem, a, h, x) == Look(g, TabOf(mem, at), h, x)
    decreases h
  {
    hide Geom.Cell, Geom.Ok, Geom.Off, Geom.Index, Kid;
    TabKeys(mem, at);
    var t: Tab := TabOf(mem, at);
    var l, i := Slot(g, h, x), g.Index(h, x);
    if i < |t[l]| && t[l][i].Table? && h > 0 {
      assert CellOk(g, at, t, l, i);
      KidSlot(g, h, x);
      WalkLook(g, mem, at, t[l][i].addr, h - 1, x);
    }
  }

  lemma RootHere(g: Geom, root: nat, mem: Mem, at: Where, pool: seq<nat>, queue: seq<nat>, x: nat)
    requires g.Ok() && x < g.Limit()
    requires MemOk(g, root, mem, at, pool, queue)
    ensures Here(g, at, g.H, x, root)
  {
    UnderLimit(g, x);
  }

  /** Parts of MemOk that most steps need. */
  lemma MemParts(g: Geom, root: nat, mem: Mem, at: Where, pool: seq<nat>, queue: seq<nat>)
    requires MemOk(g, root, mem, at, pool, queue)
    ensures g.Ok() && Placed(mem, at) && Shape(g, at, TabOf(mem, at)) && Counted(g, TabOf(mem, at))
    ensures Apart(at, pool, queue)
    ensures forall l :: l in at ==> l.h <= g.H && |mem[at[l]]| == g.Size(l.h)
  {
    TabKeys(mem, at);
    forall l | l in at ensures l.h <= g.H && |mem[at[l]]| == g.Size(l.h) { TableFits(g, at, TabOf(mem, at), l); }
  }

  /** The table under a table entry is where the entry says. */
  lemma KidHere(g: Geom, root: nat, mem: Mem, at: Where, pool: seq<nat>, queue: seq<nat>, h: nat, x: nat, a: nat)
    requires g.Ok() && Here(g, at, h, x, a) && h > 0 && x < g.Limit()
    requires MemOk(g, root, mem, at, pool, queue)
    ensures a in mem && g.Index(h, x) < |mem[a]|
    ensures mem[a][g.Index(h, x)].Table? ==> Here(g, at, h - 1, x, mem[a][g.Index(h, x)].addr)
  {
    hide Geom.Cell, Geom.Ok, Geom.Index, Kid;
    IndexFits(g, root, mem, at, pool, queue, h, x, a);
    TabKeys(mem, at);
    assert CellOk(g, at, TabOf(mem, at), Slot(g, h, x), g.Index(h, x));
    KidSlot(g, h, x);
  }

  lemma IndexFits(g: Geom, root: nat, mem: Mem, at: Where, pool: seq<nat>, queue: seq<nat>, h: nat, x: nat, a: nat)
    requires g.Ok() && Here(g, at, h, x, a) && x < g.Limit()
    requires MemOk(g, root, mem, at, pool, queue)
    ensures h <= g.H && a in mem && g.Index(h, x) < |mem[a]| && |mem[a]| == g.Size(h) <= g.n
  {
    hide Geom.Cell, Geom.Ok, Geom.Index;
    MemParts(g, root, mem, at, pool, queue);
    if h == g.H { UnderLimit(g, x); }
  }
}
