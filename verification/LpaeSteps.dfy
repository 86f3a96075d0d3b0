/** The steps map and unmap take, on memory. */
module LpaeSteps {
  import opened LpaeLevels
  import opened LpaeAddr
  import opened LpaeTable
  import opened LpaeOps
  import opened LpaeCut
  import opened LpaeMem

  /** The entry above the table that x meets at height h: page and index. */
  datatype Prev = NoPrev | Prev(addr: nat, i: nat)

  ghost predicate PrevOk(g: Geom, at: Where, h: nat, x: nat, prev: Prev) {
    g.Ok() && (h == g.H ==> prev == NoPrev) &&
      (h < g.H ==> prev.Prev? && prev.i == g.Index(h + 1, x) && Here(g, at, h + 1, x, prev.addr))
  }

  /** iopte_tblcnt_add and iopte_tblcnt_sub. */
  function Recounted(e: Pte, d: int): Pte requires e.Table? { Table(e.addr, (e.cnt + d) % COUNTS) }

  /** The entry above points to the table. */
  lemma Above(g: Geom, root: nat, mem: Mem, at: Where, pool: seq<nat>, queue: seq<nat>, h: nat, x: nat, a: nat,
      prev: Prev)
    requires g.Ok() && Here(g, at, h, x, a) && PrevOk(g, at, h, x, prev) && x < g.Limit()
    requires MemOk(g, root, mem, at, pool, queue)
    ensures prev.Prev? ==>
      && prev.addr in mem && prev.i < |mem[prev.addr]| && prev.addr != a
      && mem[prev.addr][prev.i].Table? && mem[prev.addr][prev.i].addr == a
      && (h == 0 ==> mem[prev.addr][prev.i].cnt == Used(mem[a]) % COUNTS)
  {
    if prev.Prev? {
      var p := Slot(g, h + 1, x);
      KidHere(g, root, mem, at, pool, queue, h + 1, x, prev.addr);
      KidSlot(g, h + 1, x);
      TabKeys(mem, at);
      assert CellOk(g, at, TabOf(mem, at), p, prev.i);
      assert CountOk(g, TabOf(mem, at), p, prev.i);
      assert p != Slot(g, h, x);
      assert prev.addr != a;
      hide Shape, Counted, Geom.Cell, Geom.Ok, Geom.Index, Kid, Used, Placed, Apart, TabOf;
    }
  }

  /** Counts of entries two levels and more above the pages mean nothing. */
  lemma CountAbove(g: Geom, t: Tab, t': Tab, l: Label)
    requires Counted(g, t) && SameBut(t, t', l) && l.h >= 2
    ensures Counted(g, t')
  {
    hide Used, Kid;
    forall m, j | m in t' && 0 <= j < |t'[m]| ensures CountOk(g, t', m, j) {
      if m.h == 1 {
        assert CountOk(g, t, m, j);
        KidHeight(g, m, j);
      }
    }
  }

  lemma SmallTables(g: Geom, at: Where, t: Tab)
    requires Shape(g, at, t)
    ensures forall m :: m in t ==> |t[m]| <= g.n
  {
    forall m | m in t ensures |t[m]| <= g.n { TableFits(g, at, t, m); }
  }

  /** After the entries of the table that x meets at height h changed, the right count above makes all counts right. */
  lemma Recount(g: Geom, at: Where, t: Tab, t1: Tab, t2: Tab, h: nat, x: nat, d: int)
    requires Shape(g, at, t) && Shape(g, at, t1) && Counted(g, t) && h < g.H && Slot(g, h, x) in t
    requires Slot(g, h + 1, x) in t
    requires SameBut(t, t1, Slot(g, h, x)) && SameBut(t1, t2, Slot(g, h + 1, x))
    requires g.Index(h + 1, x) < |t[Slot(g, h + 1, x)]| && t[Slot(g, h + 1, x)][g.Index(h + 1, x)].Table?
    requires t2[Slot(g, h + 1, x)] ==
      t[Slot(g, h + 1, x)][g.Index(h + 1, x) := Recounted(t[Slot(g, h + 1, x)][g.Index(h + 1, x)], d)]
    requires Used(t1[Slot(g, h, x)]) == Used(t[Slot(g, h, x)]) + d
    requires h > 0 ==>
      && |t1[Slot(g, h, x)]| == |t[Slot(g, h, x)]|
      && forall i :: 0 <= i < |t[Slot(g, h, x)]| ==> t1[Slot(g, h, x)][i].Table? ==>
        t1[Slot(g, h, x)][i] == t[Slot(g, h, x)][i]
    ensures Counted(g, t2)
  {
    var l, p, i := Slot(g, h, x), Slot(g, h + 1, x), g.Index(h + 1, x);
    KidSlot(g, h + 1, x);
    SmallTables(g, at, t);
    assert t1[p] == t[p] && t2[p] == t1[p][i := t2[p][i]] && t2[p][i].addr == t[p][i].addr;
    hide Used, Geom.Cell, Geom.Index, Kid, Shape, SameBut;
    if h == 0 {
      CountLow(g, t, t1, p, i);
      assert CountOk(g, t, p, i);
      ModSum(Used(t[l]), d);
      CountFix(g, t1, t2, p, i, t[p][i].addr);
    } else {
      CountHigh(g, t, t1, l);
      CountAbove(g, t1, t2, p);
    }
  }

  lemma ModSum(u: nat, d: int)
    requires u + d >= 0
    ensures (u % COUNTS + d) % COUNTS == (u + d) % COUNTS
  {
  }

  // ---------------------------------------------------------------------------------------------

  /** Leaves written, and counted above. */
  lemma LeavesStep(g: Geom, root: nat, mem: Mem, at: Where, pool: seq<nat>, queue: seq<nat>, h: nat, x: nat, a: nat,
      prev: Prev, k: nat, pa: nat, prot: nat, mem1: Mem, mem2: Mem)
    requires g.Ok() && Here(g, at, h, x, a) && PrevOk(g, at, h, x, prev) && x < g.Limit()
    requires g.Aligned(h, x) && a in mem && AllEmpty(mem[a], g.Index(h, x), k)
    requires mem1 == mem[a := WithLeaves(g.page, mem[a], g.Index(h, x), k, pa, g.Block(h), prot)]
    requires prev.NoPrev? ==> mem2 == mem1
    requires prev.Prev? ==>
      && prev.addr in mem && prev.i < |mem[prev.addr]| && mem[prev.addr][prev.i].Table?
      && mem2 == mem1[prev.addr := mem[prev.addr][prev.i := Recounted(mem[prev.addr][prev.i], k)]]
    requires MemOk(g, root, mem, at, pool, queue)
    ensures MemOk(g, root, mem2, at, pool, queue)
    ensures Written(g, TabOf(mem, at), TabOf(mem2, at), x, g.Span(h, k), g.Block(h), pa, prot)
    ensures AllFault(g, TabOf(mem, at), x, g.Span(h, k))
  {
    var t, t1, t2 := TabOf(mem, at), TabOf(mem1, at), TabOf(mem2, at);
    var l, i := Slot(g, h, x), g.Index(h, x);
    TabKeys(mem, at);
    WriteOne(mem, at, l, mem1[a]);
    TabKeys(mem1, at);
    Above(g, root, mem, at, pool, queue, h, x, a, prev);
    hide Geom.Cell, Geom.Block, Geom.Span, Geom.Ok, Geom.Off, Geom.Aligned, Geom.Index, Shape, Trans, Counted, TabOf,
         SameBut, Placed, Apart, Shown, Stored;
    LeavesOk(g, at, t, t1, h, x, k, pa, prot);
    UsedMore(mem[a], mem1[a], i, k);
    if prev.Prev? {
      var p := Slot(g, h + 1, x);
      WriteOne(mem1, at, p, mem2[prev.addr]);
      RecountOk(g, at, t1, t2, p, prev.i, Recounted(mem[prev.addr][prev.i], k).cnt);
      Recount(g, at, t, t1, t2, h, x, k);
    } else if h == 0 {
      CountTop(g, at, t, t1, l);
    } else {
      CountHigh(g, t, t1, l);
    }
  }

  /** With a single level there is nothing to count. */
  lemma CountTop(g: Geom, at: Where, t: Tab, t': Tab, l: Label)
    requires Shape(g, at, t) && g.H == 0 && t'.Keys == t.Keys
    ensures Counted(g, t')
  {
    forall m | m in t' ensures m.h == 0 { assert LabelOk(g, t, m); }
  }

  function Zeros(n: nat): (s: seq<Pte>) ensures |s| == n && AllEmpty(s, 0, n) { seq(n, _ => Empty) }

  /** The first page of the pool, with contents s, under the entry e for x at height h. */
  ghost predicate Linked(g: Geom, mem: Mem, mem': Mem, h: nat, x: nat, a: nat, c: nat, s: seq<Pte>, cnt: nat) {
    && g.Ok() && a in mem && g.Index(h, x) < |mem[a]|
    && mem' == mem[c := s][a := mem[a][g.Index(h, x) := Table(c, cnt)]]
  }

  lemma LinkedTab(g: Geom, root: nat, mem: Mem, at: Where, pool: seq<nat>, queue: seq<nat>, h: nat, x: nat, a: nat,
                  mem': Mem, s: seq<Pte>, cnt: nat)
    requires g.Ok() && Here(g, at, h, x, a) && h > 0 && pool != []
    requires Linked(g, mem, mem', h, x, a, pool[0], s, cnt) && !mem[a][g.Index(h, x)].Table?
    requires |s| == g.n && forall j :: 0 <= j < |s| ==> !s[j].Table?
    requires MemOk(g, root, mem, at, pool, queue)
    ensures Placed(mem', at[Slot(g, h - 1, x) := pool[0]]) && Apart(at[Slot(g, h - 1, x) := pool[0]], pool[1..], queue)
    ensures Installed(g, TabOf(mem, at), TabOf(mem', at[Slot(g, h - 1, x) := pool[0]]), Slot(g, h, x), g.Index(h, x),
      Table(pool[0], cnt), s)
  {
    var l, i, kid, c := Slot(g, h, x), g.Index(h, x), Slot(g, h - 1, x), pool[0];
    TabKeys(mem, at);
    KidSlot(g, h, x);
    NotThere(g, at, TabOf(mem, at), l, i);
    PoolHead(at, pool, queue);
    hide Shape, Counted, Geom.Cell, Geom.Ok, Geom.Index, Kid, Apart;
    NewPage(mem, at, kid, c, s);
    WriteOne(mem[c := s], at[kid := c], l, mem[a][i := Table(c, cnt)]);
    NewApart(at, pool, queue, kid);
  }

  lemma PoolHead(at: Where, pool: seq<nat>, queue: seq<nat>)
    requires Apart(at, pool, queue) && pool != []
    ensures pool[0] !in at.Values
  {
    assert pool[0] in pool;
  }

  lemma NewApart(at: Where, pool: seq<nat>, queue: seq<nat>, kid: Label)
    requires Apart(at, pool, queue) && pool != []
    ensures Apart(at[kid := pool[0]], pool[1..], queue)
  {
    var rest := pool[1..] + queue;
    assert rest == (pool + queue)[1..];
    forall j | 0 <= j < |rest| ensures rest[j] != pool[0] { assert (pool + queue)[0] != (pool + queue)[j + 1]; }
    assert forall a :: a in pool[1..] ==> a in rest;
    assert forall a :: a in queue ==> a in rest;
  }

  /** arm_lpae_install_table with an empty table. */
  lemma InstallStep(g: Geom, root: nat, mem: Mem, at: Where, pool: seq<nat>, queue: seq<nat>, h: nat, x: nat, a: nat,
      mem': Mem)
    requires g.Ok() && Here(g, at, h, x, a) && h > 0 && pool != []
    requires Linked(g, mem, mem', h, x, a, pool[0], Zeros(g.n), 0) && mem[a][g.Index(h, x)] == Empty
    requires MemOk(g, root, mem, at, pool, queue)
    ensures MemOk(g, root, mem', at[Slot(g, h - 1, x) := pool[0]], pool[1..], queue)
    ensures SameTrans(g, TabOf(mem, at), TabOf(mem', at[Slot(g, h - 1, x) := pool[0]]))
    ensures Here(g, at[Slot(g, h - 1, x) := pool[0]], h - 1, x, pool[0])
    ensures Here(g, at[Slot(g, h - 1, x) := pool[0]], h, x, a)
  {
    var l, i, kid, c := Slot(g, h, x), g.Index(h, x), Slot(g, h - 1, x), pool[0];
    var at' := at[kid := c];
    var t, t' := TabOf(mem, at), TabOf(mem', at');
    TabKeys(mem, at);
    LinkedTab(g, root, mem, at, pool, queue, h, x, a, mem', Zeros(g.n), 0);
    KidSlot(g, h, x);
    UsedNone(Zeros(g.n));
    hide Shape, Counted, Geom.Cell, Geom.Ok, Geom.Index, Kid, Apart, Placed, TabOf, Installed, Linked, Trans, Used,
         Zeros;
    InstallEmptyOk(g, at, t, t', l, i, Table(c, 0), Zeros(g.n));
    InstalledCounted(g, at, t, t', l, i, Table(c, 0), Zeros(g.n));
  }

  ghost predicate SplitLinked(g: Geom, mem: Mem, mem': Mem, h: nat, x: nat, a: nat, c: nat, k: nat) {
    && h > 0 && g.Ok() && a in mem && (k > 0 ==> g.Aligned(h - 1, x)) && g.Index(h - 1, x) + k <= g.n &&
      g.Index(h, x) < |mem[a]|
    && mem[a][g.Index(h, x)].Leaf?
    && Linked(g, mem, mem', h, x, a, c,
              Pieces(g, mem[a][g.Index(h, x)].pa, mem[a][g.Index(h, x)].prot, g.Block(h - 1), g.Index(h - 1, x), k),
              (g.n - k) % COUNTS)
  }

  /** arm_lpae_split_blk_unmap: the block in pieces, less k of them. */
  lemma SplitStep(g: Geom, root: nat, mem: Mem, at: Where, pool: seq<nat>, queue: seq<nat>, h: nat, x: nat, a: nat,
      k: nat, mem': Mem)
    requires g.Ok() && Here(g, at, h, x, a) && h > 0 && pool != []
    requires SplitLinked(g, mem, mem', h, x, a, pool[0], k)
    requires MemOk(g, root, mem, at, pool, queue)
    ensures MemOk(g, root, mem', at[Slot(g, h - 1, x) := pool[0]], pool[1..], queue)
    ensures Entry(g, TabOf(mem, at), h, x) == mem[a][g.Index(h, x)]
    ensures Torn(g, TabOf(mem, at), TabOf(mem', at[Slot(g, h - 1, x) := pool[0]]), x, g.Span(h - 1, k), h, h - 1)
    ensures Here(g, at[Slot(g, h - 1, x) := pool[0]], h - 1, x, pool[0])
    ensures Here(g, at[Slot(g, h - 1, x) := pool[0]], h, x, a)
  {
    var l, i, kid, c := Slot(g, h, x), g.Index(h, x), Slot(g, h - 1, x), pool[0];
    var at' := at[kid := c];
    var t, t' := TabOf(mem, at), TabOf(mem', at');
    var e := mem[a][i];
    var s := Pieces(g, e.pa, e.prot, g.Block(h - 1), g.Index(h - 1, x), k);
    TabKeys(mem, at);
    LinkedTab(g, root, mem, at, pool, queue, h, x, a, mem', s, (g.n - k) % COUNTS);
    KidSlot(g, h, x);
    PiecesUsed(g, e.pa, e.prot, g.Block(h - 1), g.Index(h - 1, x), k);
    hide Shape, Counted, Geom.Cell, Geom.Ok, Geom.Index, Kid, Apart, Placed, TabOf, Installed, Linked, Trans, Used,
         Pieces, Geom.Block, Geom.Span, Geom.Aligned;
    hide Torn;
    SplitOk(g, at, t, t', h, Table(c, (g.n - k) % COUNTS), x, k);
    InstalledCounted(g, at, t, t', l, i, Table(c, (g.n - k) % COUNTS), s);
  }

  lemma PiecesUsed(g: Geom, pa: nat, prot: nat, step: nat, u: nat, k: nat)
    requires u + k <= g.n
    ensures Used(Pieces(g, pa, prot, step, u, k)) == g.n - k
  {
    var s, full := Pieces(g, pa, prot, step, u, k), Pieces(g, pa, prot, step, 0, 0);
    UsedMore(s, full, u, k);
    UsedMore(Zeros(g.n), full, 0, g.n);
    UsedNone(Zeros(g.n));
  }

  /** Pages cleared, and counted above. */
  lemma ClearStep(g: Geom, root: nat, mem: Mem, at: Where, pool: seq<nat>, queue: seq<nat>, x: nat, a: nat, prev: Prev,
                  k: nat, mem1: Mem, mem2: Mem)
    requires g.Ok() && Here(g, at, 0, x, a) && PrevOk(g, at, 0, x, prev) && x < g.Limit()
    requires prev.Prev? && g.Aligned(0, x) && a in mem && AllLeaf(mem[a], g.Index(0, x), k)
    requires mem1 == mem[a := Cleared(mem[a], g.Index(0, x), k)]
    requires prev.addr in mem && prev.i < |mem[prev.addr]| && mem[prev.addr][prev.i].Table?
    requires mem2 == mem1[prev.addr := mem[prev.addr][prev.i := Recounted(mem[prev.addr][prev.i], 0 - k)]]
    requires MemOk(g, root, mem, at, pool, queue)
    ensures MemOk(g, root, mem2, at, pool, queue) && Unmapped(g, TabOf(mem, at), TabOf(mem2, at), x, g.Span(0, k))
    ensures a in mem2 && mem2[a] == mem1[a]
  {
    var t, t1, t2 := TabOf(mem, at), TabOf(mem1, at), TabOf(mem2, at);
    var l, p := Slot(g, 0, x), Slot(g, 1, x);
    TabKeys(mem, at);
    WriteOne(mem, at, l, mem1[a]);
    TabKeys(mem1, at);
    Above(g, root, mem, at, pool, queue, 0, x, a, prev);
    hide Geom.Cell, Geom.Block, Geom.Span, Geom.Ok, Geom.Off, Geom.Aligned, Geom.Index, Shape, Trans, Counted, TabOf,
         SameBut, Placed, Apart, Used, Cleared, AllLeaf;
    ClearLeavesOk(g, at, t, t1, 0, x, k);
    ClearedUsed(mem[a], g.Index(0, x), k);
    WriteOne(mem1, at, p, mem2[prev.addr]);
    RecountOk(g, at, t1, t2, p, prev.i, Recounted(mem[prev.addr][prev.i], 0 - k).cnt);
    Recount(g, at, t, t1, t2, 0, x, 0 - k);
  }

  lemma ClearedUsed(s: seq<Pte>, i: nat, k: nat)
    requires AllLeaf(s, i, k)
    ensures Used(Cleared(s, i, k)) == Used(s) - k
  {
    UsedMore(Cleared(s, i, k), s, i, k);
  }

  ghost function Kept(g: Geom, at: Where, l: Label, i: nat): Where { map m | m in at && !Beneath(g, l, i, m) :: at[m] }

  /** An entry cleared, with every table under it off the map. */
  lemma CutStep(g: Geom, root: nat, mem: Mem, at: Where, pool: seq<nat>, queue: seq<nat>, h: nat, x: nat, a: nat,
                mem': Mem, at': Where, queue': seq<nat>)
    requires g.Ok() && Here(g, at, h, x, a) && (h > 0 || g.H == 0)
    requires a in mem && g.Index(h, x) < |mem[a]| && mem' == mem[a := mem[a][g.Index(h, x) := Empty]]
    requires at' == Kept(g, at, Slot(g, h, x), g.Index(h, x)) && Apart(at', pool, queue')
    requires MemOk(g, root, mem, at, pool, queue)
    ensures MemOk(g, root, mem', at', pool, queue') && Here(g, at', h, x, a)
    ensures Cut(g, TabOf(mem, at), TabOf(mem', at'), Slot(g, h, x), g.Index(h, x))
  {
    var l, i := Slot(g, h, x), g.Index(h, x);
    var t, t' := TabOf(mem, at), TabOf(mem', at');
    CutTab(g, mem, at, l, i, mem', at');
    assert Label(g.H, 0) in at' by { NotBeneath(g, l, i, Label(g.H, 0)); }
    hide Geom.Cell, Geom.Ok, Geom.Index, Shape, Counted, TabOf, Placed, Apart, Beneath, Cut;
    CutShape(g, at, t, at', t', l, i);
    if h > 0 { CutCounted(g, t, t', l, i); } else { CutTop(g, at, t, t', l, i); }
  }

  lemma CutTop(g: Geom, at: Where, t: Tab, t': Tab, l: Label, i: nat)
    requires Shape(g, at, t) && Cut(g, t, t', l, i) && g.H == 0
    ensures Counted(g, t')
  {
    forall m | m in t' ensures m.h == 0 { assert LabelOk(g, t, m); }
  }

  lemma CutTab(g: Geom, mem: Mem, at: Where, l: Label, i: nat, mem': Mem, at': Where)
    requires Placed(mem, at) && l in at && i < |mem[at[l]]| && mem' == mem[at[l] := mem[at[l]][i := Empty]]
    requires at' == Kept(g, at, l, i)
    ensures Placed(mem', at') && l in at' && at'.Keys == TabOf(mem', at').Keys
    ensures Cut(g, TabOf(mem, at), TabOf(mem', at'), l, i)
  {
    NotBeneath(g, l, i, l);
  }

  lemma CutKept(g: Geom, root: nat, mem: Mem, at: Where, pool: seq<nat>, queue: seq<nat>, l: Label, i: nat, t': Tab)
    requires MemOk(g, root, mem, at, pool, queue) && Cut(g, TabOf(mem, at), t', l, i)
    ensures Shape(g, at, TabOf(mem, at)) && Shape(g, map m | m in at && m in t' :: at[m], t')
  {
    TabKeys(mem, at);
    CutShape(g, at, TabOf(mem, at), map m | m in at && m in t' :: at[m], t', l, i);
  }

  /** Under a table without entries nothing is translated, so cutting it off changes no translation. */
  lemma CutEmpty(g: Geom, root: nat, mem: Mem, at: Where, pool: seq<nat>, queue: seq<nat>, h: nat, x: nat, a: nat,
      c: nat, t': Tab)
    requires g.Ok() && h > 0 && Here(g, at, h, x, a) && Here(g, at, h - 1, x, c)
    requires c in mem && (forall j :: 0 <= j < |mem[c]| ==> mem[c][j] == Empty)
    requires Cut(g, TabOf(mem, at), t', Slot(g, h, x), g.Index(h, x))
    requires MemOk(g, root, mem, at, pool, queue)
    ensures SameTrans(g, TabOf(mem, at), t')
  {
    TabKeys(mem, at);
    hide Geom.Cell, Geom.Ok, Geom.Index, Shape, Counted, TabOf, Placed, Apart, Beneath, Cut, Trans, Look, MemOk;
    var t: Tab := TabOf(mem, at);
    var l, i := Slot(g, h, x), g.Index(h, x);
    CutKept(g, root, mem, at, pool, queue, l, i, t');
    forall y: nat ensures Trans(g, t', y) == Trans(g, t, y) {
      CutTrans(g, at, t, t', l, i, y);
      SameBlock(g, h, x, y);
      if Slot(g, h, y) == l && g.Index(h, y) == i { FaultUnder(g, at, t, h - 1, y); }
    }
  }

  lemma FaultUnder(g: Geom, at: Where, t: Tab, h: nat, y: nat)
    requires g.Ok() && Slot(g, h, y) in t && h <= g.H &&
      (forall j :: 0 <= j < |t[Slot(g, h, y)]| ==> t[Slot(g, h, y)][j] == Empty)
    requires Shape(g, at, t)
    ensures Trans(g, t, y) == Fault
  {
    LookDown(g, at, t, h, y);
    LookEmpty(g, t, h, y);
  }

  /** What is translated has an entry in every table it meets, a leaf in the last. */
  lemma EntryThere(g: Geom, root: nat, mem: Mem, at: Where, pool: seq<nat>, queue: seq<nat>, h: nat, x: nat, a: nat)
    requires g.Ok() && Here(g, at, h, x, a) && Trans(g, TabOf(mem, at), x) != Fault
    requires MemOk(g, root, mem, at, pool, queue)
    ensures a in mem && g.Index(h, x) < |mem[a]| && mem[a][g.Index(h, x)] != Empty
    ensures h == 0 ==> mem[a][g.Index(h, x)].Leaf?
  {
    hide Geom.Cell, Geom.Index, Geom.Ok, Geom.Off;
    TabKeys(mem, at);
    LookDown(g, at, TabOf(mem, at), h, x);
  }
}
