/** A block unmapped while a mapper waits under its entry: the mapper's page ends up in somebody else's table. */
module LpaeRaceExample {
  import opened Arith
  import opened LpaeLevels
  import opened LpaeAddr
  import opened LpaeTable
  import opened LpaeOps
  import opened LpaeMem
  import opened LpaeSteps
  import opened LpaeRace
  import F = LpaeFree

  // ---------------------------------------------------------------------------------------------
  // Addresses.

  /** The first page of block j of the table under entry i of the root. */
  function Page(g: Geom, i: nat, j: nat): nat requires g.Ok() { (i * g.n + j) * g.Block(1) }

  lemma PageCells(g: Geom, i: nat, j: nat)
    requires g.Ok() && i < g.n && j < g.n
    ensures g.Cell(3, Page(g, i, j)) == 0 && g.Cell(2, Page(g, i, j)) == i && g.Cell(1, Page(g, i, j)) == i * g.n + j
    ensures g.Index(2, Page(g, i, j)) == i && g.Index(1, Page(g, i, j)) == j && g.Index(0, Page(g, i, j)) == 0
    ensures g.Off(0, Page(g, i, j)) == 0
  {
    hide Geom.Index;
    var x, m := Page(g, i, j), i * g.n + j;
    Rows(g, m);
    DivUnique(x, g.Block(1), m);
    DivUnique(m, g.n, i);
    DivUnique(i, g.n, 0);
    CellUp(g, 0, x);
    CellUp(g, 1, x);
    CellUp(g, 2, x);
  }

  lemma Rows(g: Geom, m: nat)
    requires g.Ok()
    ensures (m * g.Block(1)) % g.Block(0) == 0
    ensures g.Cell(0, m * g.Block(1)) == m * g.n
  {
    assert g.Block(1) == g.n * g.Block(0);
    assert m * g.Block(1) == (m * g.n) * g.Block(0);
    DivUnique(m * g.Block(1), g.Block(0), m * g.n);
  }

  lemma PageOk(g: Geom, i: nat, j: nat)
    requires g.Ok() && g.H == 2 && i < g.top && j < g.n
    ensures ReqOk(g, Page(g, i, j), 1)
  {
    hide Geom.Block, Geom.Index, Page;
    var x := Page(g, i, j);
    PageCells(g, i, j);
    DivTimes(x, g.Block(2));
    MulMonotone(i + 1, g.top, g.Block(2));
  }

  // ---------------------------------------------------------------------------------------------
  // States.

  ghost predicate Small(g: Geom, root: nat, a: nat, c: nat) {
    g.Ok() && g.H == 2 && g.top >= 2 && root != a && root != c && a != c
  }

  function Full(n: nat): seq<Pte> { seq(n, _ => Leaf(0, 0)) }

  function Waiter(g: Geom, pa: nat, prot: nat): Req requires g.Ok() { Req(Page(g, 0, 1), 1, pa, prot) }
  function Other(g: Geom, pb: nat): Req requires g.Ok() { Req(Page(g, 1, 0), 1, pb, 0) }

  /** Page a holds a table of blocks, all mapped; thread 0 once found entry 1 of it empty and got page c for a table
      there. */
  function Before(g: Geom, root: nat, a: nat, c: nat, r: Req): State
    requires g.Ok()
  {
    State(map[root := Zeros(g.top)[0 := Table(a, 0)], a := Full(g.n)], [], [], [Holding(r, 1, a, c), Idle],
          map[Label(2, 0) := root, Label(1, 0) := a])
  }

  /** The block is gone and page a is queued. */
  function Gone(g: Geom, root: nat, a: nat, c: nat, r: Req): State
    requires g.Ok()
  {
    State(map[root := Zeros(g.top), a := Full(g.n)], [], [a], [Holding(r, 1, a, c), Idle], map[Label(2, 0) := root])
  }

  /** Page a holds the other mapper's table. */
  function Reused(g: Geom, root: nat, a: nat, c: nat, r: Req, q: Req): State
    requires g.Ok() && g.top >= 2
  {
    State(map[root := Zeros(g.top)[1 := Table(a, 0)], a := Zeros(g.n)], [], [], [Holding(r, 1, a, c), Waiting(q, 1, a)],
          map[Label(2, 0) := root, Label(1, 1) := a])
  }

  lemma BeforeShape(g: Geom, root: nat, a: nat, at: Where, t: Tab)
    requires g.Ok() && g.H == 2 && at == map[Label(2, 0) := root, Label(1, 0) := a]
    requires t == map[Label(2, 0) := Zeros(g.top)[0 := Table(a, 0)], Label(1, 0) := Full(g.n)]
    ensures Shape(g, at, t) && Counted(g, t)
  {
    hide Geom.Block, Used;
    assert Parent(g, Label(1, 0)) == Label(2, 0) && Place(g, Label(1, 0)) == 0;
  }

  lemma BeforeMem(g: Geom, root: nat, a: nat, c: nat, r: Req)
    requires Small(g, root, a, c)
    ensures var s := Before(g, root, a, c, r); MemOk(g, root, s.mem, s.at, s.pool, s.queue)
  {
    hide Shape, Counted, Geom.Block;
    var s := Before(g, root, a, c, r);
    TabKeys(s.mem, s.at);
    BeforeShape(g, root, a, s.at, TabOf(s.mem, s.at));
  }

  lemma BeforeOk(g: Geom, root: nat, a: nat, c: nat, pa: nat, prot: nat)
    requires Small(g, root, a, c)
    ensures Inv(g, root, Before(g, root, a, c, Waiter(g, pa, prot)))
  {
    PageCells(g, 0, 1);
    PageOk(g, 0, 1);
    BeforeMem(g, root, a, c, Waiter(g, pa, prot));
    hide Geom.Block, Geom.Index, Geom.Cell, Page, ReqOk, MemOk;
  }

  /** Everything under entry 0 of the root is one block further down. */
  lemma AllFull(g: Geom, root: nat, a: nat, t: Tab)
    requires g.Ok() && g.H == 2
    requires t == map[Label(2, 0) := Zeros(g.top)[0 := Table(a, 0)], Label(1, 0) := Full(g.n)]
    ensures AllThere(g, t, 0, g.Block(2))
  {
    forall y: nat | y < g.Block(2) ensures Trans(g, t, y) != Fault {
      hide Geom.Block, Or, Geom.Off;
      DivUnique(y, g.Block(2), 0);
      CellUp(g, 1, y);
      CellUp(g, 2, y);
      hide Geom.Cell;
      assert Look(g, t, 1, y) != Fault;
    }
  }

  /** Page a is the only one under entry 0 of the root. */
  lemma OneKept(g: Geom, root: nat, a: nat, at: Where)
    requires g.Ok() && at == map[Label(2, 0) := root, Label(1, 0) := a]
    ensures Kept(g, at, Label(2, 0), 0) == map[Label(2, 0) := root]
    ensures F.Listed(at, Kept(g, at, Label(2, 0), 0), [a])
  {
    assert Label(1, 0) in at && at[Label(1, 0)] == a;
  }

  lemma BeforeBlock(g: Geom, root: nat, a: nat, c: nat, pa: nat, prot: nat)
    requires Small(g, root, a, c)
    ensures BlockOk(g, Before(g, root, a, c, Waiter(g, pa, prot)), 0, 2, [a])
    ensures WaitsUnder(g, Before(g, root, a, c, Waiter(g, pa, prot)), 0, 2, 0)
  {
    var s := Before(g, root, a, c, Waiter(g, pa, prot));
    PageCells(g, 0, 1);
    TabKeys(s.mem, s.at);
    hide Kept, F.Listed, AllThere, Geom.Block, Page;
    AllFull(g, root, a, TabOf(s.mem, s.at));
    OneKept(g, root, a, s.at);
    DivTimes(Page(g, 0, 1), g.Block(2));
  }

  lemma AtZero(g: Geom)
    requires g.Ok()
    ensures g.Index(2, 0) == 0 && Slot(g, 2, 0) == Label(2, 0)
  {
  }

  lemma CutBlock(g: Geom, root: nat, a: nat, c: nat, r: Req)
    requires Small(g, root, a, c)
    ensures CutOff(g, root, Before(g, root, a, c, r), 0, 2, [a]) == Gone(g, root, a, c, r)
  {
    hide Kept, Geom.Block, Geom.Index, Slot;
    AtZero(g);
    OneKept(g, root, a, Before(g, root, a, c, r).at);
    assert Zeros(g.top)[0 := Table(a, 0)][0 := Empty] == Zeros(g.top);
  }

  // ---------------------------------------------------------------------------------------------
  // Events.

  /** The freed page goes to the other mapper, who makes it a table. */
  function Reuse(q: Req): seq<Event> { [Sync, MapPages(1, q), Alloc(1), InstallTable(1)] }

  lemma Onward(g: Geom, root: nat, s: State, ev: Event, evs: seq<Event>)
    requires g.Ok() && Enabled(g, s, ev) && Possible(g, root, Step(g, root, s, ev), evs)
    ensures Possible(g, root, s, [ev] + evs)
    ensures After(g, root, s, [ev] + evs) == After(g, root, Step(g, root, s, ev), evs)
  {
    assert ([ev] + evs)[1..] == evs;
  }

  lemma Reaches(g: Geom, root: nat, a: nat, c: nat, r: Req, pb: nat)
    requires Small(g, root, a, c)
    ensures Possible(g, root, Gone(g, root, a, c, r), Reuse(Other(g, pb)))
    ensures After(g, root, Gone(g, root, a, c, r), Reuse(Other(g, pb))) == Reused(g, root, a, c, r, Other(g, pb))
  {
    var q := Other(g, pb);
    PageCells(g, 1, 0);
    PageOk(g, 1, 0);
    hide Geom.Block, Page, Geom.Index, ReqOk, Geom.Cell;
    var s1 := Gone(g, root, a, c, r);
    var s2 := Step(g, root, s1, Sync);
    var s3 := Step(g, root, s2, MapPages(1, q));
    assert s3.threads[1] == Waiting(q, 2, root);
    var s4 := Step(g, root, s3, Alloc(1));
    var s5 := Step(g, root, s4, InstallTable(1));
    assert s5 == Reused(g, root, a, c, r, q);
    Onward(g, root, s4, InstallTable(1), []);
    Onward(g, root, s3, Alloc(1), [InstallTable(1)]);
    Onward(g, root, s2, MapPages(1, q), [Alloc(1), InstallTable(1)]);
    Onward(g, root, s1, Sync, [MapPages(1, q), Alloc(1), InstallTable(1)]);
  }

  /** The waiting mapper finds entry 1 of page a empty, as it was, and writes its page below the other mapper's table.
      */
  lemma GoesOn(g: Geom, root: nat, a: nat, c: nat, pa: nat, prot: nat, q: Req)
    requires Small(g, root, a, c)
    ensures var mem := Install(g, Reused(g, root, a, c, Waiter(g, pa, prot), q), 0).mem;
      && root in mem && mem[root] == Zeros(g.top)[1 := Table(a, 0)]
      && a in mem && |mem[a]| == g.n && mem[a][1] == Table(c, 1)
      && c in mem && |mem[c]| == g.n && mem[c][0] == Leaf(Stored(g.page, pa), prot)
  {
    PageCells(g, 0, 1);
    hide Geom.Block, Page, Geom.Index, Geom.Cell, Stored;
  }

  lemma Lookups(g: Geom, root: nat, a: nat, c: nat, mem: Mem, e: Pte)
    requires Small(g, root, a, c) && root in mem && mem[root] == Zeros(g.top)[1 := Table(a, 0)]
    requires a in mem && |mem[a]| == g.n
    ensures Walk(g, mem, root, 2, Page(g, 0, 1)) == Fault
    ensures mem[a][1] == Empty ==> Walk(g, mem, root, 2, Page(g, 1, 1)) == Fault
    ensures mem[a][1] == Table(c, 1) && c in mem && |mem[c]| == g.n && mem[c][0] == e && e.Leaf? ==>
      Walk(g, mem, root, 2, Page(g, 1, 1)) == Phys(e.pa, e.prot)
  {
    PageCells(g, 1, 1);
    PageCells(g, 0, 1);
    hide Geom.Block, Page, Geom.Index, Geom.Cell, Or, Geom.Off;
    if e.Leaf? { OrZero(e.pa); }
    if mem[a][1].Table? { assert Walk(g, mem, root, 2, Page(g, 1, 1)) == Walk(g, mem, a, 1, Page(g, 1, 1)); }
  }

  lemma NotAsked(g: Geom, i: nat, j: nat)
    requires g.Ok() && i <= 1 && j <= 1 && (i, j) != (1, 1)
    ensures Page(g, i, j) + g.Span(0, 1) <= Page(g, 1, 1)
  {
    assert g.Block(1) >= g.Block(0) by { MulAtLeast(g.n, g.Block(0)); }
    MulMonotone(i * g.n + j, g.n, g.Block(1));
    assert Page(g, 1, 1) == g.n * g.Block(1) + g.Block(1);
  }

  /**
   * Two mappers and an unmapper, none of whom asks for the first page of block 1 under entry 1 of the root: unmapping a
   * block under which one of the mappers waits makes that page translate to what the mapper wanted elsewhere.
   */
  lemma Astray(g: Geom, root: nat, a: nat, c: nat, pa: nat, prot: nat, pb: nat)
    requires Small(g, root, a, c)
    ensures var s := Before(g, root, a, c, Waiter(g, pa, prot));
      && Inv(g, root, s) && BlockOk(g, s, 0, 2, [a]) && !NobodyUnder(g, s, 0, 2)
      && var s1, evs := CutOff(g, root, s, 0, 2, [a]), Reuse(Other(g, pb));
      && Possible(g, root, s1, evs)
      && var s2 := After(g, root, s1, evs);
      && Enabled(g, s2, InstallTable(0))
      && var s3 := Step(g, root, s2, InstallTable(0));
      && Walk(g, s2.mem, root, g.H, Page(g, 1, 1)) == Fault
      && Walk(g, s3.mem, root, g.H, Page(g, 1, 1)) == Phys(Stored(g.page, pa), prot)
      && Walk(g, s3.mem, root, g.H, Waiter(g, pa, prot).x) == Fault
    ensures Waiter(g, pa, prot).x + g.Span(0, 1) <= Page(g, 1, 1) && Other(g, pb).x + g.Span(0, 1) <= Page(g, 1, 1)
  {
    var r, q := Waiter(g, pa, prot), Other(g, pb);
    BeforeOk(g, root, a, c, pa, prot);
    BeforeBlock(g, root, a, c, pa, prot);
    CutBlock(g, root, a, c, r);
    Reaches(g, root, a, c, r, pb);
    GoesOn(g, root, a, c, pa, prot, q);
    Lookups(g, root, a, c, Reused(g, root, a, c, r, q).mem, Empty);
    Lookups(g, root, a, c, Install(g, Reused(g, root, a, c, r, q), 0).mem, Leaf(Stored(g.page, pa), prot));
    NotAsked(g, 0, 1);
    NotAsked(g, 1, 0);
    hide Geom.Block, Page, Geom.Index, Geom.Cell, Stored, Possible, After, CutOff, Install, Inv, BlockOk, Before, Gone,
         Walk;
  }
}
