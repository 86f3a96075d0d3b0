/**
 * Mappers of pages and unmappers of pages and blocks on one table, interleaved wherever the lock is dropped: before a
 * table page is allocated, and again before the new table is installed. Everything between taking and dropping the lock
 * is one step. Table pages are such that their entries read back as their addresses.
 */
module LpaeRace {
  import opened Counting
  import opened LpaeLevels
  import opened LpaeAddr
  import opened LpaeTable
  import opened LpaeOps
  import opened LpaeCut
  import opened LpaeMem
  import opened LpaeSteps
  import opened LpaeBusy
  import opened Lpae
  import F = LpaeFree

  /** k pages from x on, to pa onwards. */
  datatype Req = Req(x: nat, k: nat, pa: nat, prot: nat)

  /** A mapper that found no table under its entry of page a, before and after it got a page for one. */
  datatype Thread = Idle | Waiting(req: Req, h: nat, a: nat) | Holding(req: Req, h: nat, a: nat, c: nat)

  /** Memory, the allocator, the pages to be freed, the threads, and which table each page holds. */
  datatype State = State(mem: Mem, pool: seq<nat>, queue: seq<nat>, threads: seq<Thread>, at: Where)

  // ---------------------------------------------------------------------------------------------
  // Steps.

  datatype Found = Reached(c: nat, prev: Prev) | Blocked(h: nat, a: nat) | Taken

  /** __arm_lpae_map down from page a at height h, as far as it gets without a new table. */
  function Descend(g: Geom, mem: Mem, a: nat, h: nat, x: nat, prev: Prev): Found
    requires g.Ok()
    decreases h
  {
    if h == 0 then Reached(a, prev)
    else if a !in mem || g.Index(h, x) >= |mem[a]| then Taken
    else match mem[a][g.Index(h, x)]
         case Empty => Blocked(h, a)
         case Leaf(_, _) => Taken
         case Table(c, _) => Descend(g, mem, c, h - 1, x, Prev(a, g.Index(h, x)))
  }

  /** arm_lpae_init_pte on the pages of a last-level table. */
  function Write(g: Geom, mem: Mem, req: Req, c: nat, prev: Prev): Mem
    requires g.Ok()
  {
    var i := g.Index(0, req.x);
    if c !in mem || !AllEmpty(mem[c], i, req.k) then mem
    else
      var mem1 := mem[c := WithLeaves(g.page, mem[c], i, req.k, req.pa, g.page, req.prot)];
      if prev.Prev? && prev.addr in mem && prev.i < |mem[prev.addr]| && mem[prev.addr][prev.i].Table?
      then mem1[prev.addr := mem[prev.addr][prev.i := Recounted(mem[prev.addr][prev.i], req.k)]]
      else mem1
  }

  /** Go on from page a at height h: write the pages, or wait for a table. */
  function Go(g: Geom, s: State, i: nat, req: Req, a: nat, h: nat, prev: Prev): State
    requires g.Ok() && i < |s.threads|
  {
    match Descend(g, s.mem, a, h, req.x, prev)
    case Reached(c, p) => s.(mem := Write(g, s.mem, req, c, p), threads := s.threads[i := Idle])
    case Blocked(h', a') => s.(threads := s.threads[i := Waiting(req, h', a')])
    case Taken => s.(threads := s.threads[i := Idle])
  }

  /** The page with a new, empty table goes under the entry if that is still empty, and back otherwise. */
  function Install(g: Geom, s: State, i: nat): State
    requires g.Ok() && i < |s.threads| && s.threads[i].Holding?
  {
    var Holding(req, h, a, c) := s.threads[i];
    var j := g.Index(h, req.x);
    var free := s.threads[i := Idle];
    if a !in s.mem || j >= |s.mem[a]| || h == 0 then s.(threads := free)
    else match s.mem[a][j]
         case Empty =>
           var mem := s.mem[c := Zeros(g.n)];
           var s1 := s.(mem := mem[a := s.mem[a][j := Table(c, 0)]], at := s.at[Slot(g, h - 1, req.x) := c],
             threads := free);
           Go(g, s1, i, req, c, h - 1, Prev(a, j))
         case Leaf(_, _) => s.(pool := [c] + s.pool, threads := free)
         case Table(b, _) => Go(g, s.(pool := [c] + s.pool, threads := free), i, req, b, h - 1, Prev(a, j))
  }

  /** __arm_lpae_unmap for k pages of a last-level table c under entry j of page a: clear the pages and count down. */
  function Lower(g: Geom, mem: Mem, x: nat, k: nat, a: nat, c: nat): Mem
    requires g.Ok()
  {
    var i, j := g.Index(0, x), g.Index(1, x);
    if c !in mem || i + k > |mem[c]| || a !in mem || j >= |mem[a]| || !mem[a][j].Table? then mem
    else mem[c := Cleared(mem[c], i, k)][a := mem[a][j := Recounted(mem[a][j], 0 - k)]]
  }

  /** If the count says that nothing is left, unlink the table and queue its page. */
  function Unlink(g: Geom, s: State, x: nat, a: nat, c: nat): State
    requires g.Ok()
  {
    var j := g.Index(1, x);
    if a in s.mem && j < |s.mem[a]| && s.mem[a][j].Table? && s.mem[a][j].cnt == 0
    then s.(mem := s.mem[a := s.mem[a][j := Empty]], at := s.at - {Slot(g, 0, x)}, queue := s.queue + [c])
    else s
  }

  function Clear(g: Geom, s: State, x: nat, k: nat, a: nat, c: nat): State
    requires g.Ok()
  {
    Unlink(g, s.(mem := Lower(g, s.mem, x, k, a, c)), x, a, c)
  }

  /** The page of the table for x at height `stop`, down from page a at height h. */
  function PageAt(g: Geom, mem: Mem, a: nat, h: nat, x: nat, stop: nat): nat
    requires g.Ok()
    decreases h
  {
    if h <= stop || a !in mem || g.Index(h, x) >= |mem[a]| || !mem[a][g.Index(h, x)].Table? then a
    else PageAt(g, mem, mem[a][g.Index(h, x)].addr, h - 1, x, stop)
  }

  /** The first branch of __arm_lpae_unmap: clear the entry of height h for x and queue the pages of the tables under
      it. */
  ghost function CutOff(g: Geom, root: nat, s: State, x: nat, h: nat, freed: seq<nat>): State
    requires g.Ok()
  {
    var a, j := PageAt(g, s.mem, root, g.H, x, h), g.Index(h, x);
    if a !in s.mem || j >= |s.mem[a]| then s
    else s.(mem := s.mem[a := s.mem[a][j := Empty]], at := Kept(g, s.at, Slot(g, h, x), j), queue := s.queue + freed)
  }

  datatype Event =
    | MapPages(i: nat, req: Req)
    | Alloc(i: nat)
    | InstallTable(i: nat)
    | UnmapPages(x: nat, k: nat)
    | UnmapBlock(x: nat, h: nat, freed: seq<nat>)
    | Sync

  ghost function Step(g: Geom, root: nat, s: State, ev: Event): State
    requires g.Ok() && Enabled(g, s, ev)
  {
    match ev
    case MapPages(i, req) => Go(g, s, i, req, root, g.H, NoPrev)
    case Alloc(i) =>
      var t := s.threads[i];
      if s.pool == [] then s.(threads := s.threads[i := Idle])
      else s.(pool := s.pool[1..], threads := s.threads[i := Holding(t.req, t.h, t.a, s.pool[0])])
    case InstallTable(i) => Install(g, s, i)
    case UnmapPages(x, k) =>
      var f := Descend(g, s.mem, root, g.H, x, NoPrev);
      if f.Reached? && f.prev.Prev? then Clear(g, s, x, k, f.prev.addr, f.c) else s
    case UnmapBlock(x, h, freed) => CutOff(g, root, s, x, h, freed)
    case Sync => s.(pool := s.pool + s.queue, queue := [])
  }

  ghost predicate ReqOk(g: Geom, x: nat, k: nat) {
    g.Ok() && x < g.Limit() && g.Aligned(0, x) && k > 0 && g.Index(0, x) + k <= g.Size(0)
  }

  /** A block of which everything is mapped, and the pages of the tables under its entry, in the order they are
      freed. */
  ghost predicate BlockOk(g: Geom, s: State, x: nat, h: nat, freed: seq<nat>) {
    && g.Ok() && 0 < h <= g.H && x < g.Limit() && g.Aligned(h, x) && Slot(g, h, x) in s.at
    && AllThere(g, TabOf(s.mem, s.at), x, g.Block(h))
    && Distinct(freed) && F.Listed(s.at, Kept(g, s.at, Slot(g, h, x), g.Index(h, x)), freed)
  }

  /** Thread i waits for an address of the block, at a table under its entry. */
  ghost predicate WaitsUnder(g: Geom, s: State, x: nat, h: nat, i: nat)
    requires g.Ok() && i < |s.threads|
  {
    var t := s.threads[i];
    !t.Idle? && t.h < h && x <= t.req.x < x + g.Block(h)
  }

  ghost predicate NobodyUnder(g: Geom, s: State, x: nat, h: nat)
    requires g.Ok()
  {
    forall i :: 0 <= i < |s.threads| ==> !WaitsUnder(g, s, x, h, i)
  }

  /** Requests stay within a table and within the address range, and only what is mapped is unmapped, pages where there
      are pages. */
  ghost predicate Enabled(g: Geom, s: State, ev: Event)
    requires g.Ok()
  {
    match ev
    case MapPages(i, req) => i < |s.threads| && s.threads[i].Idle? && ReqOk(g, req.x, req.k)
    case Alloc(i) => i < |s.threads| && s.threads[i].Waiting?
    case InstallTable(i) => i < |s.threads| && s.threads[i].Holding?
    case UnmapPages(x, k) => g.H > 0 && ReqOk(g, x, k) && AllThere(g, TabOf(s.mem, s.at), x, g.Span(0, k)) &&
      Slot(g, 0, x) in s.at
    case UnmapBlock(x, h, freed) => BlockOk(g, s, x, h, freed) && NobodyUnder(g, s, x, h)
    case Sync => true
  }

  // ---------------------------------------------------------------------------------------------
  // What every step keeps.

  /** A waiting mapper's page still holds the table its address meets, and a page it got is nobody else's. */
  ghost predicate ThreadOk(g: Geom, s: State, i: nat)
    requires i < |s.threads|
  {
    var t := s.threads[i];
    && (t.Waiting? || t.Holding? ==> ReqOk(g, t.req.x, t.req.k) && t.h > 0 && Here(g, s.at, t.h, t.req.x, t.a))
    && (t.Holding? ==> t.c !in s.pool && t.c !in s.queue && t.c !in s.at.Values)
    && (t.Holding? ==> forall j :: 0 <= j < |s.threads| && j != i && s.threads[j].Holding? ==> s.threads[j].c != t.c)
  }

  ghost predicate Inv(g: Geom, root: nat, s: State) {
    && g.Ok() && MemOk(g, root, s.mem, s.at, s.pool, s.queue)
    && forall i :: 0 <= i < |s.threads| ==> ThreadOk(g, s, i)
  }

  lemma {:induction false} DescendOk(g: Geom, root: nat, mem: Mem, at: Where, pool: seq<nat>, queue: seq<nat>, a: nat,
      h: nat, x: nat, prev: Prev)
    requires g.Ok() && Here(g, at, h, x, a) && PrevOk(g, at, h, x, prev) && x < g.Limit()
    requires MemOk(g, root, mem, at, pool, queue)
    ensures match Descend(g, mem, a, h, x, prev)
      case Reached(c, p) => Here(g, at, 0, x, c) && PrevOk(g, at, 0, x, p)
      case Blocked(h', a') => h' > 0 && Here(g, at, h', x, a') && a' in mem && g.Index(h', x) < |mem[a']| &&
        mem[a'][g.Index(h', x)] == Empty
      case Taken => true
    decreases h
  {
    hide Geom.Index, MemOk, Geom.Ok, Here, PrevOk, Geom.Limit;
    if h > 0 {
      KidHere(g, root, mem, at, pool, queue, h, x, a);
      var e := mem[a][g.Index(h, x)];
      if e.Table? {
        NextPrev(g, at, h, x, a);
        DescendOk(g, root, mem, at, pool, queue, e.addr, h - 1, x, Prev(a, g.Index(h, x)));
      }
    }
  }

  /** The pages asked for were not translated and are now, as their leaves show them; nothing else changed. */
  ghost predicate Done(g: Geom, t: Tab, t': Tab, req: Req) {
    && g.Ok() && AllFault(g, t, req.x, g.Span(0, req.k))
    && Written(g, t, t', req.x, g.Span(0, req.k), g.page, req.pa, req.prot)
  }

  /** Pages are written to the table their addresses meet, and to no other; the count above follows. */
  lemma WriteOk(g: Geom, root: nat, mem: Mem, at: Where, pool: seq<nat>, queue: seq<nat>, req: Req, c: nat, prev: Prev)
    requires ReqOk(g, req.x, req.k) && Here(g, at, 0, req.x, c) && PrevOk(g, at, 0, req.x, prev)
    requires MemOk(g, root, mem, at, pool, queue)
    ensures MemOk(g, root, Write(g, mem, req, c, prev), at, pool, queue)
    ensures Write(g, mem, req, c, prev) != mem ==> Done(g, TabOf(mem, at), TabOf(Write(g, mem, req, c, prev), at), req)
    ensures forall b :: b in mem && b != c && (prev.NoPrev? || b != prev.addr) ==>
      Write(g, mem, req, c, prev)[b] == mem[b]
  {
    hide Geom.Index, MemOk, Geom.Ok, Here, PrevOk, Geom.Limit, Geom.Aligned, Written, TabOf, WithLeaves, Geom.Span,
         AllFault;
    if c in mem && AllEmpty(mem[c], g.Index(0, req.x), req.k) {
      Above(g, root, mem, at, pool, queue, 0, req.x, c, prev);
      var mem1 := mem[c := WithLeaves(g.page, mem[c], g.Index(0, req.x), req.k, req.pa, g.page, req.prot)];
      assert g.Block(0) == g.page;
      LeavesStep(g, root, mem, at, pool, queue, 0, req.x, c, prev, req.k, req.pa, req.prot, mem1, Write(g, mem, req, c,
          prev));
    }
  }

  // ---------------------------------------------------------------------------------------------

  /** All threads but i are fine. */
  ghost predicate OthersOk(g: Geom, s: State, i: nat) {
    forall j :: 0 <= j < |s.threads| && j != i ==> ThreadOk(g, s, j)
  }

  /** Thread i changes its state to one without a page; memory may change under the same tables. */
  lemma OneThread(g: Geom, s: State, i: nat, t: Thread, mem: Mem)
    requires i < |s.threads| && OthersOk(g, s, i) && !t.Holding?
    ensures OthersOk(g, s.(mem := mem, threads := s.threads[i := t]), i)
  {
    hide ReqOk, Here;
    var s' := s.(mem := mem, threads := s.threads[i := t]);
    forall j | 0 <= j < |s'.threads| && j != i ensures ThreadOk(g, s', j) { assert ThreadOk(g, s, j); }
  }

  lemma GoOk(g: Geom, root: nat, s: State, i: nat, req: Req, a: nat, h: nat, prev: Prev)
    requires i < |s.threads| && ReqOk(g, req.x, req.k) && Here(g, s.at, h, req.x, a) && PrevOk(g, s.at, h, req.x, prev)
    requires MemOk(g, root, s.mem, s.at, s.pool, s.queue) && OthersOk(g, s, i)
    ensures Inv(g, root, Go(g, s, i, req, a, h, prev))
  {
    DescendOk(g, root, s.mem, s.at, s.pool, s.queue, a, h, req.x, prev);
    hide MemOk, Here, PrevOk, Descend, Write, ThreadOk, OthersOk;
    var s' := Go(g, s, i, req, a, h, prev);
    match Descend(g, s.mem, a, h, req.x, prev)
    case Reached(c, p) =>
      WriteOk(g, root, s.mem, s.at, s.pool, s.queue, req, c, p);
      OneThread(g, s, i, Idle, Write(g, s.mem, req, c, p));
      IdleOk(g, s', i);
      AllThreads(g, s', i);
    case Blocked(h', a') =>
      OneThread(g, s, i, Waiting(req, h', a'), s.mem);
      WaitingOk(g, s', i);
      AllThreads(g, s', i);
    case Taken =>
      OneThread(g, s, i, Idle, s.mem);
      IdleOk(g, s', i);
      AllThreads(g, s', i);
  }

  lemma IdleOk(g: Geom, s: State, i: nat)
    requires i < |s.threads| && s.threads[i].Idle?
    ensures ThreadOk(g, s, i)
  {
  }

  lemma WaitingOk(g: Geom, s: State, i: nat)
    requires i < |s.threads| && s.threads[i].Waiting?
    requires var t := s.threads[i]; ReqOk(g, t.req.x, t.req.k) && t.h > 0 && Here(g, s.at, t.h, t.req.x, t.a)
    ensures ThreadOk(g, s, i)
  {
  }

  lemma AllThreads(g: Geom, s: State, i: nat)
    requires i < |s.threads| && OthersOk(g, s, i) && ThreadOk(g, s, i)
    ensures forall j :: 0 <= j < |s.threads| ==> ThreadOk(g, s, j)
  {
    hide ThreadOk;
  }

  // Alloc

  lemma AllocOk(g: Geom, root: nat, s: State, i: nat)
    requires Inv(g, root, s) && i < |s.threads| && s.threads[i].Waiting?
    ensures Inv(g, root, Step(g, root, s, Alloc(i)))
  {
    hide Here, ReqOk, Shape, Counted, Placed;
    var s' := Step(g, root, s, Alloc(i));
    assert ThreadOk(g, s, i);
    if s.pool != [] {
      TakenApart(s.at, s.pool, s.queue);
      assert s.pool[0] in s.pool;
    }
    forall j | 0 <= j < |s.threads| ensures ThreadOk(g, s', j) {
      assert ThreadOk(g, s, j);
      assert s.threads[j].Holding? ==> s.threads[j].c !in s.pool;
      forall k | 0 <= k < |s.threads| && k != j && s'.threads[k].Holding? && s'.threads[j].Holding?
        ensures s'.threads[k].c != s'.threads[j].c
      {
        assert ThreadOk(g, s, k);
      }
    }
  }

  lemma TakenApart(at: Where, pool: seq<nat>, queue: seq<nat>)
    requires Apart(at, pool, queue) && pool != []
    ensures Apart(at, pool[1..], queue) && pool[0] !in pool[1..] && pool[0] !in queue && pool[0] !in at.Values
    ensures forall a :: a in pool[1..] ==> a in pool
  {
    PoolHead(at, pool, queue);
    var all := pool + queue;
    var rest := pool[1..] + queue;
    assert rest == all[1..];
    forall j | 0 <= j < |rest| ensures rest[j] != pool[0] { assert all[0] != all[j + 1]; }
    assert forall a :: a in pool[1..] ==> a in rest;
    assert forall a :: a in queue ==> a in rest;
  }

  // Install

  lemma GivenApart(at: Where, pool: seq<nat>, queue: seq<nat>, c: nat)
    requires Apart(at, pool, queue) && c !in pool && c !in queue && c !in at.Values
    ensures Apart(at, [c] + pool, queue)
  {
    var all := pool + queue;
    assert [c] + pool + queue == [c] + all;
    assert c !in all;
  }

  /** With the page back in the pool, or under the entry, the other threads are as before. */
  lemma GivenBack(g: Geom, s: State, i: nat)
    requires i < |s.threads| && s.threads[i].Holding? && forall j :: 0 <= j < |s.threads| ==> ThreadOk(g, s, j)
    ensures OthersOk(g, s.(pool := [s.threads[i].c] + s.pool, threads := s.threads[i := Idle]), i)
  {
    hide ReqOk, Here;
    var s' := s.(pool := [s.threads[i].c] + s.pool, threads := s.threads[i := Idle]);
    forall j | 0 <= j < |s'.threads| && j != i
      ensures ThreadOk(g, s', j) { assert ThreadOk(g, s, j) && ThreadOk(g, s, i); }
  }

  lemma Installed1(g: Geom, s: State, i: nat, mem: Mem, kid: Label)
    requires i < |s.threads| && s.threads[i].Holding? && forall j :: 0 <= j < |s.threads| ==> ThreadOk(g, s, j)
    requires kid !in s.at
    ensures OthersOk(g, s.(mem := mem, at := s.at[kid := s.threads[i].c], threads := s.threads[i := Idle]), i)
  {
    var c := s.threads[i].c;
    var s' := s.(mem := mem, at := s.at[kid := c], threads := s.threads[i := Idle]);
    forall a | a in s'.at.Values ensures a == c || a in s.at.Values {
      var l :| l in s'.at && s'.at[l] == a;
      assert l != kid ==> s.at[l] in s.at.Values;
    }
    hide ReqOk;
    forall j | 0 <= j < |s'.threads| && j != i
      ensures ThreadOk(g, s', j) { assert ThreadOk(g, s, j) && ThreadOk(g, s, i); }
  }

  lemma InstallOk(g: Geom, root: nat, s: State, i: nat)
    requires Inv(g, root, s) && i < |s.threads| && s.threads[i].Holding?
    ensures Inv(g, root, Install(g, s, i))
  {
    var Holding(req, h, a, c) := s.threads[i];
    assert ThreadOk(g, s, i);
    assert MemOk(g, root, s.mem, s.at, [c] + s.pool, s.queue) by { GivenApart(s.at, s.pool, s.queue, c); }
    hide MemOk, Here, PrevOk, ThreadOk, Go, OthersOk, ReqOk, Inv;
    assert req.x < g.Limit() by { ReqParts(g, req.x, req.k); }
    KidHere(g, root, s.mem, s.at, s.pool, s.queue, h, req.x, a);
    if s.mem[a][g.Index(h, req.x)] == Empty {
      InstallEmptyEntry(g, root, s, i);
    } else {
      InstallLate(g, root, s, i);
    }
  }

  lemma ReqParts(g: Geom, x: nat, k: nat)
    requires ReqOk(g, x, k)
    ensures g.Ok() && x < g.Limit()
  {
  }

  /** What an installing thread brings. */
  ghost predicate Installing(g: Geom, root: nat, s: State, i: nat) {
    && i < |s.threads| && s.threads[i].Holding? && (forall j :: 0 <= j < |s.threads| ==> ThreadOk(g, s, j))
    && var t := s.threads[i];
       && ReqOk(g, t.req.x, t.req.k) && t.h > 0 && Here(g, s.at, t.h, t.req.x, t.a) && t.a in s.mem &&
         g.Index(t.h, t.req.x) < |s.mem[t.a]|
       && MemOk(g, root, s.mem, s.at, s.pool, s.queue) && MemOk(g, root, s.mem, s.at, [t.c] + s.pool, s.queue)
  }

  lemma InstallEmptyEntry(g: Geom, root: nat, s: State, i: nat)
    requires Installing(g, root, s, i) && s.mem[s.threads[i].a][g.Index(s.threads[i].h, s.threads[i].req.x)] == Empty
    ensures Inv(g, root, Install(g, s, i))
  {
    var Holding(req, h, a, c) := s.threads[i];
    assert g.Ok() by { ReqParts(g, req.x, req.k); }
    hide MemOk, Here, PrevOk, ThreadOk, Go, OthersOk, ReqOk, Inv, Zeros, Geom.Index, Geom.Ok;
    var x, j := req.x, g.Index(h, req.x);
    var mem := s.mem[c := Zeros(g.n)][a := s.mem[a][j := Table(c, 0)]];
    var kid := Slot(g, h - 1, x);
    assert ([c] + s.pool)[1..] == s.pool;
    InstallStep(g, root, s.mem, s.at, [c] + s.pool, s.queue, h, x, a, mem);
    NewKid(g, root, s.mem, s.at, s.pool, s.queue, h, x, a);
    Installed1(g, s, i, mem, kid);
    NextPrev(g, s.at[kid := c], h, x, a);
    GoOk(g, root, s.(mem := mem, at := s.at[kid := c], threads := s.threads[i := Idle]), i, req, c, h - 1, Prev(a, j));
  }

  lemma InstallLate(g: Geom, root: nat, s: State, i: nat)
    requires Installing(g, root, s, i) && s.mem[s.threads[i].a][g.Index(s.threads[i].h, s.threads[i].req.x)] != Empty
    ensures Inv(g, root, Install(g, s, i))
  {
    hide MemOk, Here, PrevOk, ThreadOk, Go, OthersOk, ReqOk, Geom.Index;
    var Holding(req, h, a, c) := s.threads[i];
    var s' := s.(pool := [c] + s.pool, threads := s.threads[i := Idle]);
    GivenBack(g, s, i);
    assert req.x < g.Limit() by { ReqParts(g, req.x, req.k); }
    KidHere(g, root, s.mem, s.at, s.pool, s.queue, h, req.x, a);
    var e := s.mem[a][g.Index(h, req.x)];
    if e.Table? {
      NextPrev(g, s.at, h, req.x, a);
      GoOk(g, root, s', i, req, e.addr, h - 1, Prev(a, g.Index(h, req.x)));
    } else {
      IdleOk(g, s', i);
      AllThreads(g, s', i);
    }
  }

  // Unmap

  /** Dropping the page of a last-level table leaves all threads as they were: they wait above the last level. */
  lemma DroppedLow(g: Geom, s: State, s': State, kid: Label, c: nat)
    requires kid in s.at && kid.h == 0 && s.at[kid] == c && s'.threads == s.threads && s'.pool == s.pool
    requires (s'.at == s.at && s'.queue == s.queue) || (s'.at == s.at - {kid} && s'.queue == s.queue + [c])
    requires forall j :: 0 <= j < |s.threads| ==> ThreadOk(g, s, j)
    ensures forall j :: 0 <= j < |s'.threads| ==> ThreadOk(g, s', j)
  {
    assert c in s.at.Values;
    forall a | a in s'.at.Values ensures a in s.at.Values {
      var l :| l in s'.at && s'.at[l] == a;
      assert s.at[l] == a;
    }
    hide ReqOk;
    forall j | 0 <= j < |s'.threads| ensures ThreadOk(g, s', j) { assert ThreadOk(g, s, j); }
  }

  lemma ClearOk(g: Geom, root: nat, s: State, x: nat, k: nat, a: nat, c: nat)
    requires Inv(g, root, s) && ReqOk(g, x, k) && g.H > 0 && Here(g, s.at, 0, x, c)
    requires PrevOk(g, s.at, 0, x, Prev(a, g.Index(1, x)))
    requires AllThere(g, TabOf(s.mem, s.at), x, g.Span(0, k))
    ensures Inv(g, root, Clear(g, s, x, k, a, c))
    ensures Unmapped(g, TabOf(s.mem, s.at), TabOf(Clear(g, s, x, k, a, c).mem, Clear(g, s, x, k, a, c).at), x,
      g.Span(0, k))
  {
    ClearReady(g, root, s, x, k, a, c);
    ReqParts(g, x, k);
    hide ThreadOk, ReqOk, Geom.Index, TabOf, Trans, Geom.Span, MemOk, AllThere, Unmapped, Geom.Limit, Geom.Ok,
         Geom.Aligned, AllLeaf, Lower, Unlink;
    var s1 := s.(mem := Lower(g, s.mem, x, k, a, c));
    LowerOk(g, root, s, x, k, a, c);
    UnlinkOk(g, root, s1, x, a, c);
    var s' := Clear(g, s, x, k, a, c);
    GoneSame(g, TabOf(s.mem, s.at), TabOf(s1.mem, s1.at), TabOf(s'.mem, s'.at), x, g.Span(0, k));
    DroppedLow(g, s, s', Slot(g, 0, x), c);
  }

  lemma LowerOk(g: Geom, root: nat, s: State, x: nat, k: nat, a: nat, c: nat)
    requires Inv(g, root, s) && ReqOk(g, x, k) && g.H > 0 && Here(g, s.at, 0, x, c)
    requires PrevOk(g, s.at, 0, x, Prev(a, g.Index(1, x)))
    requires AllThere(g, TabOf(s.mem, s.at), x, g.Span(0, k))
    ensures var mem := Lower(g, s.mem, x, k, a, c);
      && MemOk(g, root, mem, s.at, s.pool, s.queue) &&
        Unmapped(g, TabOf(s.mem, s.at), TabOf(mem, s.at), x, g.Span(0, k))
      && a in mem && c in mem && g.Index(1, x) < |mem[a]| && mem[a][g.Index(1, x)].Table?
      && (mem[a][g.Index(1, x)].cnt == 0 <==> Used(mem[c]) == 0)
  {
    ClearReady(g, root, s, x, k, a, c);
    ReqParts(g, x, k);
    var i, j := g.Index(0, x), g.Index(1, x);
    hide ThreadOk, ReqOk, Geom.Index, TabOf, Trans, Geom.Span, MemOk, AllThere, Unmapped, Geom.Limit, Geom.Ok,
         Geom.Aligned, Used, Cleared;
    var mem := Lower(g, s.mem, x, k, a, c);
    ClearStep(g, root, s.mem, s.at, s.pool, s.queue, x, c, Prev(a, j), k, s.mem[c := Cleared(s.mem[c], i, k)], mem);
    LowCount(g, s.mem[c], i, k, s.mem[a][j]);
  }

  lemma UnlinkOk(g: Geom, root: nat, s: State, x: nat, a: nat, c: nat)
    requires g.Ok() && Here(g, s.at, 1, x, a) && Here(g, s.at, 0, x, c) && x < g.Limit() && a in s.mem && c in s.mem
    requires g.Index(1, x) < |s.mem[a]| && s.mem[a][g.Index(1, x)].Table? &&
      (s.mem[a][g.Index(1, x)].cnt == 0 <==> Used(s.mem[c]) == 0)
    requires MemOk(g, root, s.mem, s.at, s.pool, s.queue)
    ensures var s' := Unlink(g, s, x, a, c);
      && MemOk(g, root, s'.mem, s'.at, s'.pool, s'.queue) && SameTrans(g, TabOf(s.mem, s.at), TabOf(s'.mem, s'.at))
      && s'.threads == s.threads && s'.pool == s.pool
      && ((s'.at == s.at && s'.queue == s.queue) || (s'.at == s.at - {Slot(g, 0, x)} && s'.queue == s.queue + [c]))
  {
    hide Geom.Index, TabOf, Trans, MemOk, Geom.Limit, Geom.Ok, Used;
    if s.mem[a][g.Index(1, x)].cnt == 0 {
      EmptyTable(s.mem[c]);
      CutLow(g, root, s.mem, s.at, s.pool, s.queue, x, a, c, Unlink(g, s, x, a, c).mem);
    }
  }

  /** What Clear finds. */
  lemma ClearReady(g: Geom, root: nat, s: State, x: nat, k: nat, a: nat, c: nat)
    requires Inv(g, root, s) && ReqOk(g, x, k) && g.H > 0 && Here(g, s.at, 0, x, c)
    requires PrevOk(g, s.at, 0, x, Prev(a, g.Index(1, x)))
    requires AllThere(g, TabOf(s.mem, s.at), x, g.Span(0, k))
    ensures c in s.mem && |s.mem[c]| <= g.n && AllLeaf(s.mem[c], g.Index(0, x), k) && k > 0 && g.Aligned(0, x)
    ensures a in s.mem && a != c && g.Index(1, x) < |s.mem[a]| && s.mem[a][g.Index(1, x)].Table?
    ensures s.mem[a][g.Index(1, x)].addr == c && s.mem[a][g.Index(1, x)].cnt == Used(s.mem[c]) % COUNTS
    ensures Here(g, s.at, 1, x, a)
  {
    PagesThere(g, root, s.mem, s.at, s.pool, s.queue, x, c, k);
    Above(g, root, s.mem, s.at, s.pool, s.queue, 0, x, c, Prev(a, g.Index(1, x)));
    IndexFits(g, root, s.mem, s.at, s.pool, s.queue, 0, x, c);
  }

  /** Unlinking a last-level table without entries. */
  lemma CutLow(g: Geom, root: nat, mem: Mem, at: Where, pool: seq<nat>, queue: seq<nat>, x: nat, a: nat, c: nat,
      mem': Mem)
    requires g.Ok() && Here(g, at, 1, x, a) && Here(g, at, 0, x, c) && x < g.Limit() && a in mem && c in mem
    requires g.Index(1, x) < |mem[a]|
    requires (forall j :: 0 <= j < |mem[c]| ==> mem[c][j] == Empty) && mem' == mem[a := mem[a][g.Index(1, x) := Empty]]
    requires MemOk(g, root, mem, at, pool, queue)
    ensures MemOk(g, root, mem', at - {Slot(g, 0, x)}, pool, queue + [c])
    ensures SameTrans(g, TabOf(mem, at), TabOf(mem', at - {Slot(g, 0, x)}))
  {
    var at' := at - {Slot(g, 0, x)};
    LowKept(g, at, x);
    F.QueueApart(mem, at, pool, queue, Slot(g, 0, x));
    hide MemOk, Geom.Index, TabOf, Trans, Cut, Kept, Apart;
    CutStep(g, root, mem, at, pool, queue, 1, x, a, mem', at', queue + [c]);
    CutEmpty(g, root, mem, at, pool, queue, 1, x, a, c, TabOf(mem', at'));
  }

  /** Under an entry above the last level there is at most one table. */
  lemma LowKept(g: Geom, at: Where, x: nat)
    requires g.Ok()
    ensures Kept(g, at, Slot(g, 1, x), g.Index(1, x)) == at - {Slot(g, 0, x)}
  {
    KidSlot(g, 1, x);
  }

  /** Where there is a last-level table, a walk reaches it. */
  lemma {:induction false} DescendReaches(g: Geom, root: nat, mem: Mem, at: Where, pool: seq<nat>, queue: seq<nat>,
      a: nat, h: nat, x: nat, prev: Prev)
    requires g.Ok() && Here(g, at, h, x, a) && x < g.Limit() && Slot(g, 0, x) in at
    requires MemOk(g, root, mem, at, pool, queue)
    ensures Descend(g, mem, a, h, x, prev).Reached? && (h > 0 ==> Descend(g, mem, a, h, x, prev).prev.Prev?)
    decreases h
  {
    if h > 0 {
      KidHere(g, root, mem, at, pool, queue, h, x, a);
      EntryIs(g, root, mem, at, pool, queue, h, x, a);
      TabKeys(mem, at);
      TablesAbove(g, at, TabOf(mem, at), 0, x, h);
      hide MemOk, Geom.Index, TabOf, Here;
      DescendReaches(g, root, mem, at, pool, queue, mem[a][g.Index(h, x)].addr, h - 1, x, Prev(a, g.Index(h, x)));
    }
  }

  lemma UnmapOk(g: Geom, root: nat, s: State, x: nat, k: nat)
    requires Inv(g, root, s) && Enabled(g, s, UnmapPages(x, k))
    ensures var s' := Step(g, root, s, UnmapPages(x, k));
      Inv(g, root, s') && Unmapped(g, TabOf(s.mem, s.at), TabOf(s'.mem, s'.at), x, g.Span(0, k))
  {
    RootHere(g, root, s.mem, s.at, s.pool, s.queue, x);
    DescendOk(g, root, s.mem, s.at, s.pool, s.queue, root, g.H, x, NoPrev);
    DescendReaches(g, root, s.mem, s.at, s.pool, s.queue, root, g.H, x, NoPrev);
    hide MemOk, ThreadOk, Geom.Index, TabOf, Trans, Clear, Geom.Span, AllThere, Descend, Unmapped;
    var f := Descend(g, s.mem, root, g.H, x, NoPrev);
    ClearOk(g, root, s, x, k, f.prev.addr, f.c);
  }

  // Unmapping a block

  lemma {:induction false} PageAtHere(g: Geom, root: nat, mem: Mem, at: Where, pool: seq<nat>, queue: seq<nat>, a: nat,
      h: nat, x: nat, stop: nat)
    requires g.Ok() && Here(g, at, h, x, a) && x < g.Limit() && stop <= h && Slot(g, stop, x) in at
    requires MemOk(g, root, mem, at, pool, queue)
    ensures Here(g, at, stop, x, PageAt(g, mem, a, h, x, stop))
    decreases h
  {
    if h > stop {
      KidHere(g, root, mem, at, pool, queue, h, x, a);
      EntryIs(g, root, mem, at, pool, queue, h, x, a);
      TabKeys(mem, at);
      TablesAbove(g, at, TabOf(mem, at), stop, x, h);
      hide MemOk, Geom.Index, TabOf, Here;
      PageAtHere(g, root, mem, at, pool, queue, mem[a][g.Index(h, x)].addr, h - 1, x, stop);
    }
  }

  /** The pages of tables that go may be queued. */
  lemma FreedApart(mem: Mem, at: Where, at': Where, pool: seq<nat>, queue: seq<nat>, freed: seq<nat>)
    requires Placed(mem, at) && Apart(at, pool, queue) && Distinct(freed) && F.Listed(at, at', freed)
    requires forall m :: m in at' ==> m in at && at'[m] == at[m]
    ensures Apart(at', pool, queue + freed)
  {
    var was, all := pool + queue, pool + (queue + freed);
    assert all == was + freed;
    forall a | a in freed
      ensures a !in pool && a !in queue && a !in was { var m :| m in at && m !in at' && at[m] == a; }
    DistinctBoth(was, freed);
  }

  /** A table for x' is under the entry for x at height h exactly if it is lower and x' lies in the block. */
  lemma UnderEntry(g: Geom, x: nat, h: nat, x': nat, u: nat)
    requires g.Ok() && h > 0 && g.Aligned(h, x)
    ensures Beneath(g, Slot(g, h, x), g.Index(h, x), Slot(g, u, x')) <==> u < h && x <= x' < x + g.Block(h)
  {
    var l, i := Slot(g, h, x), g.Index(h, x);
    KidSlot(g, h, x);
    hide Geom.Cell, Geom.Index, Geom.Aligned, Geom.Ok, Under;
    if u < h {
      UnderSlot(g, u, Kid(g, l, i), x');
      SameBlock(g, h, x, x');
      SlotRange(g, h, x, 1, x');
      assert g.Span(h, 1) == g.Block(h);
    } else {
      NotBeneath(g, l, i, Slot(g, u, x'));
    }
  }

  /** What cutting off does to memory. */
  lemma CutOffMem(g: Geom, root: nat, s: State, x: nat, h: nat, freed: seq<nat>)
    requires Inv(g, root, s) && BlockOk(g, s, x, h, freed)
    ensures var s' := CutOff(g, root, s, x, h, freed);
      && MemOk(g, root, s'.mem, s'.at, s'.pool, s'.queue) &&
        Unmapped(g, TabOf(s.mem, s.at), TabOf(s'.mem, s'.at), x, g.Block(h))
      && s'.threads == s.threads && s'.pool == s.pool && s'.queue == s.queue + freed
      && s'.at == Kept(g, s.at, Slot(g, h, x), g.Index(h, x))
    ensures var a := PageAt(g, s.mem, root, g.H, x, h);
      a in s.at.Values && forall b :: b in s.mem && b != a ==> CutOff(g, root, s, x, h, freed).mem[b] == s.mem[b]
  {
    RootHere(g, root, s.mem, s.at, s.pool, s.queue, x);
    PageAtHere(g, root, s.mem, s.at, s.pool, s.queue, root, g.H, x, h);
    var a := PageAt(g, s.mem, root, g.H, x, h);
    HereLive(g, s.at, h, x, a);
    IndexFits(g, root, s.mem, s.at, s.pool, s.queue, h, x, a);
    var s' := CutOff(g, root, s, x, h, freed);
    KeptPart(g, s.at, Slot(g, h, x), g.Index(h, x));
    MemParts(g, root, s.mem, s.at, s.pool, s.queue);
    FreedApart(s.mem, s.at, s'.at, s.pool, s.queue, freed);
    hide MemOk, Geom.Index, TabOf, Trans, Kept, Apart, AllThere, ThreadOk, Shape, Counted, PageAt, Here;
    CutStep(g, root, s.mem, s.at, s.pool, s.queue, h, x, a, s'.mem, s'.at, s'.queue);
    CutBlock(g, root, s.mem, s.at, s'.mem, s'.at, s.pool, s'.queue, h, x);
  }

  lemma ThreadStays(g: Geom, s: State, s': State, x: nat, h: nat, freed: seq<nat>, i: nat)
    requires BlockOk(g, s, x, h, freed) && i < |s.threads| && ThreadOk(g, s, i) && !WaitsUnder(g, s, x, h, i)
    requires s'.threads == s.threads && s'.pool == s.pool && s'.queue == s.queue + freed
    requires s'.at == Kept(g, s.at, Slot(g, h, x), g.Index(h, x))
    ensures ThreadOk(g, s', i)
  {
    var t := s.threads[i];
    if !t.Idle? {
      UnderEntry(g, x, h, t.req.x, t.h);
      hide Beneath, Geom.Index, AllThere, Slot, ReqOk, Geom.Aligned, Geom.Limit;
      assert Here(g, s'.at, t.h, t.req.x, t.a);
      assert forall a :: a in freed ==> a in s.at.Values;
      assert forall a :: a in s'.at.Values ==> a in s.at.Values;
    }
  }

  /** A thread that waits under the entry is left with a page that holds no table. */
  lemma ThreadLost(g: Geom, root: nat, s: State, x: nat, h: nat, freed: seq<nat>, i: nat)
    requires Inv(g, root, s) && BlockOk(g, s, x, h, freed) && i < |s.threads| && WaitsUnder(g, s, x, h, i)
    ensures s.threads[i].a !in Kept(g, s.at, Slot(g, h, x), g.Index(h, x)).Values
    ensures !ThreadOk(g, CutOff(g, root, s, x, h, freed), i)
  {
    var t := s.threads[i];
    assert ThreadOk(g, s, i);
    UnderEntry(g, x, h, t.req.x, t.h);
    CutOffMem(g, root, s, x, h, freed);
    MemParts(g, root, s.mem, s.at, s.pool, s.queue);
    hide Beneath, Geom.Index, AllThere, Shape, Counted, ReqOk, Geom.Aligned, CutOff;
  }

  /** Unmapping a block is safe if and only if nobody waits under its entry. */
  lemma UnmapBlockIff(g: Geom, root: nat, s: State, x: nat, h: nat, freed: seq<nat>)
    requires Inv(g, root, s) && BlockOk(g, s, x, h, freed)
    ensures Inv(g, root, CutOff(g, root, s, x, h, freed)) <==> NobodyUnder(g, s, x, h)
  {
    var s' := CutOff(g, root, s, x, h, freed);
    CutOffMem(g, root, s, x, h, freed);
    hide MemOk, ThreadOk, CutOff, BlockOk, Kept, TabOf, Trans, Geom.Index, WaitsUnder, Slot, Unmapped;
    if NobodyUnder(g, s, x, h) {
      forall i | 0 <= i < |s.threads| ensures ThreadOk(g, s', i) { ThreadStays(g, s, s', x, h, freed, i); }
    } else {
      var i :| 0 <= i < |s.threads| && WaitsUnder(g, s, x, h, i);
      ThreadLost(g, root, s, x, h, freed, i);
    }
  }

  /** And that is so if what mappers wait to map is not mapped already. */
  lemma NobodyUnderIf(g: Geom, s: State, x: nat, h: nat, freed: seq<nat>)
    requires BlockOk(g, s, x, h, freed)
    requires forall i :: 0 <= i < |s.threads| && !s.threads[i].Idle? ==>
      Trans(g, TabOf(s.mem, s.at), s.threads[i].req.x) == Fault
    ensures NobodyUnder(g, s, x, h)
  {
    hide Trans, TabOf, Kept;
  }

  // Runs

  lemma StepOk(g: Geom, root: nat, s: State, ev: Event)
    requires Inv(g, root, s) && Enabled(g, s, ev)
    ensures Inv(g, root, Step(g, root, s, ev))
  {
    match ev
    case MapPages(i, req) =>
      RootHere(g, root, s.mem, s.at, s.pool, s.queue, req.x);
      GoOk(g, root, s, i, req, root, g.H, NoPrev);
    case Alloc(i) => AllocOk(g, root, s, i);
    case InstallTable(i) => InstallOk(g, root, s, i);
    case UnmapPages(x, k) => UnmapOk(g, root, s, x, k);
    case UnmapBlock(x, h, freed) => UnmapBlockIff(g, root, s, x, h, freed);
    case Sync =>
      var s' := Step(g, root, s, ev);
      assert s.pool + s.queue + [] == s.pool + s.queue;
      hide ReqOk, Here;
      forall j | 0 <= j < |s'.threads| ensures ThreadOk(g, s', j) { assert ThreadOk(g, s, j); }
  }

  /** A new table with idle threads. */
  lemma StartOk(g: Geom, root: nat, pool: seq<nat>, n: nat)
    requires g.Ok() && Distinct(pool) && root !in pool
    ensures Inv(g, root, State(map[root := Zeros(g.top)], pool, [], seq(n, _ => Idle), map[Label(g.H, 0) := root]))
  {
    Fresh(g, root, pool);
  }

  /** A sequence of events, each possible when its turn comes. */
  ghost predicate Possible(g: Geom, root: nat, s: State, evs: seq<Event>)
    requires g.Ok()
    decreases |evs|
  {
    evs == [] || (Enabled(g, s, evs[0]) && Possible(g, root, Step(g, root, s, evs[0]), evs[1..]))
  }

  ghost function After(g: Geom, root: nat, s: State, evs: seq<Event>): State
    requires g.Ok() && Possible(g, root, s, evs)
    decreases |evs|
  {
    if evs == [] then s else After(g, root, Step(g, root, s, evs[0]), evs[1..])
  }

  /** In every run every count above a last-level table is the number of its entries in use, modulo 2^13. */
  lemma {:induction false} RunOk(g: Geom, root: nat, s: State, evs: seq<Event>)
    requires Inv(g, root, s) && Possible(g, root, s, evs)
    ensures Inv(g, root, After(g, root, s, evs))
    ensures Counted(g, TabOf(After(g, root, s, evs).mem, After(g, root, s, evs).at))
    decreases |evs|
  {
    if evs != [] {
      StepOk(g, root, s, evs[0]);
      RunOk(g, root, Step(g, root, s, evs[0]), evs[1..]);
    }
  }

  lemma HereLive(g: Geom, at: Where, h: nat, x: nat, a: nat)
    requires Here(g, at, h, x, a)
    ensures a in at.Values
  {
  }

  lemma GoWrites(g: Geom, root: nat, s: State, i: nat, req: Req, a: nat, h: nat, prev: Prev, b: nat)
    requires i < |s.threads| && ReqOk(g, req.x, req.k) && Here(g, s.at, h, req.x, a) && PrevOk(g, s.at, h, req.x, prev)
    requires MemOk(g, root, s.mem, s.at, s.pool, s.queue) && b in s.mem
    ensures b in Go(g, s, i, req, a, h, prev).mem
    ensures Go(g, s, i, req, a, h, prev).mem[b] != s.mem[b] ==> b in s.at.Values
  {
    DescendOk(g, root, s.mem, s.at, s.pool, s.queue, a, h, req.x, prev);
    hide MemOk, Here, ReqOk, Descend, WithLeaves, AllEmpty, Geom.Index;
    var f := Descend(g, s.mem, a, h, req.x, prev);
    if f.Reached? {
      HereLive(g, s.at, 0, req.x, f.c);
      if f.prev.Prev? && g.H > 0 { HereLive(g, s.at, 1, req.x, f.prev.addr); }
    }
  }

  /** Every page a step changes holds a linked table, or is the page the step links. */
  lemma WritesLinked(g: Geom, root: nat, s: State, ev: Event, b: nat)
    requires Inv(g, root, s) && Enabled(g, s, ev) && b in s.mem
    ensures b in Step(g, root, s, ev).mem
    ensures Step(g, root, s, ev).mem[b] != s.mem[b] ==> b in s.at.Values || (ev.InstallTable? && b == s.threads[ev.i].c)
  {
    match ev
    case MapPages(i, req) =>
      RootHere(g, root, s.mem, s.at, s.pool, s.queue, req.x);
      GoWrites(g, root, s, i, req, root, g.H, NoPrev, b);
    case Alloc(i) =>
    case InstallTable(i) => InstallWrites(g, root, s, i, b);
    case UnmapPages(x, k) =>
      RootHere(g, root, s.mem, s.at, s.pool, s.queue, x);
      DescendOk(g, root, s.mem, s.at, s.pool, s.queue, root, g.H, x, NoPrev);
      var f := Descend(g, s.mem, root, g.H, x, NoPrev);
      if f.Reached? && f.prev.Prev? {
        HereLive(g, s.at, 0, x, f.c);
        HereLive(g, s.at, 1, x, f.prev.addr);
      }
    case UnmapBlock(x, h, freed) => CutOffMem(g, root, s, x, h, freed);
    case Sync =>
  }

  lemma InstallWrites(g: Geom, root: nat, s: State, i: nat, b: nat)
    requires Inv(g, root, s) && i < |s.threads| && s.threads[i].Holding? && b in s.mem
    ensures b in Install(g, s, i).mem
    ensures Install(g, s, i).mem[b] != s.mem[b] ==> b in s.at.Values || b == s.threads[i].c
  {
    var Holding(req, h, a, c) := s.threads[i];
    assert ThreadOk(g, s, i);
    assert MemOk(g, root, s.mem, s.at, [c] + s.pool, s.queue) by { GivenApart(s.at, s.pool, s.queue, c); }
    hide MemOk, Here, PrevOk, ThreadOk, Go, OthersOk, ReqOk, Inv, Install;
    assert req.x < g.Limit() by { ReqParts(g, req.x, req.k); }
    KidHere(g, root, s.mem, s.at, s.pool, s.queue, h, req.x, a);
    if s.mem[a][g.Index(h, req.x)] == Empty {
      LinkWrites(g, root, s, i, b);
    } else {
      LateWrites(g, root, s, i, b);
    }
  }

  lemma LinkWrites(g: Geom, root: nat, s: State, i: nat, b: nat)
    requires Installing(g, root, s, i) && s.mem[s.threads[i].a][g.Index(s.threads[i].h, s.threads[i].req.x)] == Empty
    requires b in s.mem
    ensures b in Install(g, s, i).mem
    ensures Install(g, s, i).mem[b] != s.mem[b] ==> b in s.at.Values || b == s.threads[i].c
  {
    var Holding(req, h, a, c) := s.threads[i];
    assert g.Ok() by { ReqParts(g, req.x, req.k); }
    HereLive(g, s.at, h, req.x, a);
    hide MemOk, Here, PrevOk, ThreadOk, Go, OthersOk, ReqOk, Zeros, Geom.Index, Geom.Ok;
    var j := g.Index(h, req.x);
    var mem := s.mem[c := Zeros(g.n)][a := s.mem[a][j := Table(c, 0)]];
    var kid := Slot(g, h - 1, req.x);
    assert ([c] + s.pool)[1..] == s.pool;
    InstallStep(g, root, s.mem, s.at, [c] + s.pool, s.queue, h, req.x, a, mem);
    NextPrev(g, s.at[kid := c], h, req.x, a);
    GoWrites(g, root, s.(mem := mem, at := s.at[kid := c], threads := s.threads[i := Idle]), i, req, c, h - 1, Prev(a,
        j), b);
    NewLive(s.at, kid, c, b);
  }

  lemma LateWrites(g: Geom, root: nat, s: State, i: nat, b: nat)
    requires Installing(g, root, s, i) && s.mem[s.threads[i].a][g.Index(s.threads[i].h, s.threads[i].req.x)] != Empty
    requires b in s.mem
    ensures b in Install(g, s, i).mem
    ensures Install(g, s, i).mem[b] != s.mem[b] ==> b in s.at.Values || b == s.threads[i].c
  {
    hide MemOk, Here, PrevOk, ThreadOk, Go, OthersOk, ReqOk, Geom.Index;
    var Holding(req, h, a, c) := s.threads[i];
    assert req.x < g.Limit() by { ReqParts(g, req.x, req.k); }
    KidHere(g, root, s.mem, s.at, s.pool, s.queue, h, req.x, a);
    var e := s.mem[a][g.Index(h, req.x)];
    if e.Table? {
      NextPrev(g, s.at, h, req.x, a);
      GoWrites(g, root, s.(pool := [c] + s.pool, threads := s.threads[i := Idle]), i, req, e.addr, h - 1, Prev(a,
          g.Index(h, req.x)), b);
    }
  }

  lemma NewLive(at: Where, kid: Label, c: nat, b: nat)
    ensures b in at[kid := c].Values ==> b == c || b in at.Values
  {
    if b in at[kid := c].Values {
      var l :| l in at[kid := c] && at[kid := c][l] == b;
      assert l != kid ==> at[l] in at.Values;
    }
  }

  // ---------------------------------------------------------------------------------------------
  // What steps do to translations.

  lemma GoTrans(g: Geom, root: nat, s: State, i: nat, req: Req, a: nat, h: nat, prev: Prev)
    requires i < |s.threads| && ReqOk(g, req.x, req.k) && Here(g, s.at, h, req.x, a) && PrevOk(g, s.at, h, req.x, prev)
    requires MemOk(g, root, s.mem, s.at, s.pool, s.queue)
    ensures var s' := Go(g, s, i, req, a, h, prev);
      SameTrans(g, TabOf(s.mem, s.at), TabOf(s'.mem, s'.at)) || Done(g, TabOf(s.mem, s.at), TabOf(s'.mem, s'.at), req)
  {
    DescendOk(g, root, s.mem, s.at, s.pool, s.queue, a, h, req.x, prev);
    SameTransRefl(g, TabOf(s.mem, s.at));
    hide MemOk, Here, PrevOk, Descend, Write, TabOf, SameTrans, Done;
    var f := Descend(g, s.mem, a, h, req.x, prev);
    if f.Reached? { WriteOk(g, root, s.mem, s.at, s.pool, s.queue, req, f.c, f.prev); }
  }

  lemma InstallTrans(g: Geom, root: nat, s: State, i: nat)
    requires Inv(g, root, s) && i < |s.threads| && s.threads[i].Holding?
    ensures var s' := Install(g, s, i);
      SameTrans(g, TabOf(s.mem, s.at), TabOf(s'.mem, s'.at)) ||
        Done(g, TabOf(s.mem, s.at), TabOf(s'.mem, s'.at), s.threads[i].req)
  {
    var Holding(req, h, a, c) := s.threads[i];
    assert ThreadOk(g, s, i);
    assert MemOk(g, root, s.mem, s.at, [c] + s.pool, s.queue) by { GivenApart(s.at, s.pool, s.queue, c); }
    hide MemOk, Here, PrevOk, ThreadOk, Go, OthersOk, ReqOk, Inv, Install, TabOf, SameTrans, Done;
    assert req.x < g.Limit() by { ReqParts(g, req.x, req.k); }
    KidHere(g, root, s.mem, s.at, s.pool, s.queue, h, req.x, a);
    if s.mem[a][g.Index(h, req.x)] == Empty {
      LinkTrans(g, root, s, i);
    } else {
      LateTrans(g, root, s, i);
    }
  }

  lemma LinkTrans(g: Geom, root: nat, s: State, i: nat)
    requires Installing(g, root, s, i) && s.mem[s.threads[i].a][g.Index(s.threads[i].h, s.threads[i].req.x)] == Empty
    ensures var s' := Install(g, s, i);
      SameTrans(g, TabOf(s.mem, s.at), TabOf(s'.mem, s'.at)) ||
        Done(g, TabOf(s.mem, s.at), TabOf(s'.mem, s'.at), s.threads[i].req)
  {
    var Holding(req, h, a, c) := s.threads[i];
    assert g.Ok() by { ReqParts(g, req.x, req.k); }
    hide MemOk, Here, PrevOk, ThreadOk, Go, OthersOk, ReqOk, Zeros, Geom.Index, Geom.Ok, TabOf, SameTrans, Done;
    var j := g.Index(h, req.x);
    var mem := s.mem[c := Zeros(g.n)][a := s.mem[a][j := Table(c, 0)]];
    var kid := Slot(g, h - 1, req.x);
    assert ([c] + s.pool)[1..] == s.pool;
    InstallStep(g, root, s.mem, s.at, [c] + s.pool, s.queue, h, req.x, a, mem);
    NextPrev(g, s.at[kid := c], h, req.x, a);
    var s1 := s.(mem := mem, at := s.at[kid := c], threads := s.threads[i := Idle]);
    GoTrans(g, root, s1, i, req, c, h - 1, Prev(a, j));
    var s' := Install(g, s, i);
    DoneAfter(g, TabOf(s.mem, s.at), TabOf(s1.mem, s1.at), TabOf(s'.mem, s'.at), req);
  }

  lemma DoneAfter(g: Geom, t0: Tab, t1: Tab, t2: Tab, req: Req)
    requires g.Ok() && SameTrans(g, t0, t1)
    ensures SameTrans(g, t1, t2) ==> SameTrans(g, t0, t2)
    ensures Done(g, t1, t2, req) ==> Done(g, t0, t2, req)
  {
    hide Trans, Shown;
  }

  lemma LateTrans(g: Geom, root: nat, s: State, i: nat)
    requires Installing(g, root, s, i) && s.mem[s.threads[i].a][g.Index(s.threads[i].h, s.threads[i].req.x)] != Empty
    ensures var s' := Install(g, s, i);
      SameTrans(g, TabOf(s.mem, s.at), TabOf(s'.mem, s'.at)) ||
        Done(g, TabOf(s.mem, s.at), TabOf(s'.mem, s'.at), s.threads[i].req)
  {
    var Holding(req, h, a, c) := s.threads[i];
    assert g.Ok() && req.x < g.Limit() by { ReqParts(g, req.x, req.k); }
    SameTransRefl(g, TabOf(s.mem, s.at));
    hide MemOk, Here, PrevOk, ThreadOk, Go, OthersOk, ReqOk, Geom.Index, TabOf, SameTrans, Done;
    KidHere(g, root, s.mem, s.at, s.pool, s.queue, h, req.x, a);
    var e := s.mem[a][g.Index(h, req.x)];
    if e.Table? {
      NextPrev(g, s.at, h, req.x, a);
      GoTrans(g, root, s.(pool := [c] + s.pool, threads := s.threads[i := Idle]), i, req, e.addr, h - 1, Prev(a,
          g.Index(h, req.x)));
    }
  }

  /** What a step may do to translations: carry out its own request, or nothing. */
  ghost predicate Effect(g: Geom, s: State, ev: Event, t: Tab, t': Tab)
    requires g.Ok() && Enabled(g, s, ev)
  {
    match ev
    case MapPages(i, req) => SameTrans(g, t, t') || Done(g, t, t', req)
    case InstallTable(i) => SameTrans(g, t, t') || Done(g, t, t', s.threads[i].req)
    case UnmapPages(x, k) => Unmapped(g, t, t', x, g.Span(0, k))
    case UnmapBlock(x, h, _) => Unmapped(g, t, t', x, g.Block(h))
    case _ => SameTrans(g, t, t')
  }

  lemma StepTrans(g: Geom, root: nat, s: State, ev: Event)
    requires Inv(g, root, s) && Enabled(g, s, ev)
    ensures var s' := Step(g, root, s, ev); Effect(g, s, ev, TabOf(s.mem, s.at), TabOf(s'.mem, s'.at))
  {
    SameTransRefl(g, TabOf(s.mem, s.at));
    hide SameTrans, Done, Unmapped, TabOf, Go, Install, CutOff, Geom.Block, Geom.Span;
    match ev
    case MapPages(i, req) =>
      RootHere(g, root, s.mem, s.at, s.pool, s.queue, req.x);
      GoTrans(g, root, s, i, req, root, g.H, NoPrev);
    case InstallTable(i) => InstallTrans(g, root, s, i);
    case UnmapPages(x, k) => UnmapOk(g, root, s, x, k);
    case UnmapBlock(x, h, freed) => CutOffMem(g, root, s, x, h, freed);
    case _ =>
  }

  /** The request of the event is about address y. */
  ghost predicate Concerns(g: Geom, s: State, ev: Event, y: nat)
    requires g.Ok() && Enabled(g, s, ev)
  {
    match ev
    case MapPages(i, req) => req.x <= y < req.x + g.Span(0, req.k)
    case InstallTable(i) => s.threads[i].req.x <= y < s.threads[i].req.x + g.Span(0, s.threads[i].req.k)
    case UnmapPages(x, k) => x <= y < x + g.Span(0, k)
    case UnmapBlock(x, h, _) => x <= y < x + g.Block(h)
    case _ => false
  }

  lemma EffectElsewhere(g: Geom, s: State, ev: Event, t: Tab, t': Tab, y: nat)
    requires g.Ok() && Enabled(g, s, ev) && Effect(g, s, ev, t, t') && !Concerns(g, s, ev, y)
    ensures Trans(g, t', y) == Trans(g, t, y)
  {
    hide Trans, Enabled, Shown;
  }

  /** No event of the run is about y. */
  ghost predicate NoneConcerns(g: Geom, root: nat, s: State, evs: seq<Event>, y: nat)
    requires g.Ok() && Possible(g, root, s, evs)
    decreases |evs|
  {
    evs == [] || (!Concerns(g, s, evs[0], y) && NoneConcerns(g, root, Step(g, root, s, evs[0]), evs[1..], y))
  }

  /** In every run, an address that no request is about keeps its translation, however the threads interleave. */
  lemma {:induction false} RunTrans(g: Geom, root: nat, s: State, evs: seq<Event>, y: nat)
    requires Inv(g, root, s) && Possible(g, root, s, evs) && NoneConcerns(g, root, s, evs, y)
    ensures var s' := After(g, root, s, evs); Trans(g, TabOf(s'.mem, s'.at), y) == Trans(g, TabOf(s.mem, s.at), y)
    decreases |evs|
  {
    if evs != [] {
      var s1 := Step(g, root, s, evs[0]);
      StepOk(g, root, s, evs[0]);
      StepTrans(g, root, s, evs[0]);
      EffectElsewhere(g, s, evs[0], TabOf(s.mem, s.at), TabOf(s1.mem, s1.at), y);
      hide Inv, Enabled, Effect, Step, Trans, TabOf, Concerns;
      RunTrans(g, root, s1, evs[1..], y);
    }
  }
}
