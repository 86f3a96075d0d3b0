/**
 * The page table of the fast SMMU path: three levels for the hardware, and the last-level tables side by side in a flat
 * array for the driver. Entries are 64-bit words.
 */
module FastTable {
  import opened Arith

  /** Bytes per page, per last-level table and per middle-level table. */
  const PAGE: nat := 0x1000
  const PMD: nat := 0x20_0000
  const PUD: nat := 0x4000_0000
  const SPACE: nat := 0x1_0000_0000

  type Mem = map<nat, seq<nat>>

  /** Entries hold the page number in bits 47-12 and the type in bits 1-0; 3 is a table, or a page on the last level. */
  function AddrOf(w: nat): nat { w / PAGE % 0x10_0000_0000 * PAGE }
  function TypeOf(w: nat): nat { w % 4 }
  function TableWord(page: nat): nat { page * PAGE + 3 }

  predicate Zero(s: seq<nat>) { |s| == 512 && forall i :: 0 <= i < 512 ==> s[i] == 0 }

  function Zeros(): (s: seq<nat>) ensures Zero(s) { seq(512, _ => 0) }

  lemma TableWordBack(page: nat)
    requires page < 0x10_0000_0000
    ensures TypeOf(TableWord(page)) == 3 && AddrOf(TableWord(page)) / PAGE == page
  {
    DivUnique(page * PAGE + 3, PAGE, page);
    DivUnique(page, 0x10_0000_0000, 0);
    DivUnique(page * PAGE, PAGE, page);
    LowBits(page);
  }

  lemma LowBits(page: nat)
    ensures (page * PAGE + 3) % 4 == 3
  {
  }

  // ---------------------------------------------------------------------------------------------
  // The walk.

  /** The physical address a last-level entry gives for x, or 0. */
  function PhysOf(w: nat, x: nat): nat { if TypeOf(w) != 3 then 0 else AddrOf(w) + x % PAGE }

  /** av8l_fast_iova_to_phys */
  function Walk(mem: Mem, pgd: nat, x: nat): nat {
    if pgd !in mem || |mem[pgd]| != 512 then 0 else
    var e := mem[pgd][x / PUD % 512];
    if TypeOf(e) != 3 then 0 else
    var pud := AddrOf(e) / PAGE;
    if pud !in mem || |mem[pud]| != 512 then 0 else
    var f := mem[pud][x / PMD % 512];
    if TypeOf(f) != 3 then 0 else
    var pmd := AddrOf(f) / PAGE;
    if pmd !in mem || |mem[pmd]| != 512 then 0 else
    PhysOf(mem[pmd][x / PAGE % 512], x)
  }

  // ---------------------------------------------------------------------------------------------
  // The flat array.

  /** iopte_pmd_offset, for addresses from base on. */
  function FlatIndex(base: nat, x: nat): nat requires base <= x { (x - base / PMD * PMD) / PAGE }

  /** Entry k of the flat array. */
  function Flat(mem: Mem, pmds: seq<nat>, k: nat): nat {
    if k / 512 < |pmds| && pmds[k / 512] in mem && |mem[pmds[k / 512]]| == 512 then mem[pmds[k / 512]][k % 512] else 0
  }

  /** 2M block b hangs under the first table, at the page the flat array has for it. */
  ghost predicate Hung(mem: Mem, pgd: nat, pmds: seq<nat>, first: nat, b: nat) {
    && first <= b < first + |pmds| && pgd in mem && |mem[pgd]| == 512 && b < 2048
    && var e := mem[pgd][b / 512];
       && TypeOf(e) == 3 && AddrOf(e) / PAGE in mem && |mem[AddrOf(e) / PAGE]| == 512
       && var f := mem[AddrOf(e) / PAGE][b % 512];
          TypeOf(f) == 3 && AddrOf(f) / PAGE == pmds[b - first]
  }

  /** The flat index names the entry the walk reaches. */
  lemma FlatIsWalk(mem: Mem, pgd: nat, pmds: seq<nat>, base: nat, x: nat)
    requires base <= x < SPACE && Hung(mem, pgd, pmds, base / PMD, x / PMD)
    requires forall i :: 0 <= i < |pmds| ==> pmds[i] in mem && |mem[pmds[i]]| == 512
    ensures Walk(mem, pgd, x) == PhysOf(Flat(mem, pmds, FlatIndex(base, x)), x)
  {
    hide FlatIndex, TypeOf, AddrOf, PhysOf;
    WalkIndices(base, x);
  }

  /** The indices of the walk, and the two parts of the flat index. */
  lemma WalkIndices(base: nat, x: nat)
    requires base <= x < SPACE
    ensures x / PUD % 512 == x / PMD / 512 && x / PMD < 2048
    ensures FlatIndex(base, x) / 512 == x / PMD - base / PMD && FlatIndex(base, x) % 512 == x / PAGE % 512
  {
    var b, p := base / PMD, x / PAGE;
    assert x / PMD == p / 512 && x / PUD == p / 512 / 512 < 4;
    FlatFrom(b, x, p);
    Beyond(b, p);
  }

  lemma FlatFrom(b: nat, x: nat, p: nat)
    requires p == x / PAGE && b * PMD <= x
    ensures (x - b * PMD) / PAGE == p - b * 512
  {
  }

  lemma Beyond(b: nat, p: nat)
    requires b * 512 <= p
    ensures (p - b * 512) / 512 == p / 512 - b && (p - b * 512) % 512 == p % 512
  {
  }

  // ---------------------------------------------------------------------------------------------
  // Building the tables.

  datatype Ret = Ok | EINVAL | ENOMEM

  /** Pages in use so far: the first table, the middle tables by index, the last-level tables in order. */
  ghost predicate Apart(pgd: nat, puds: map<nat, nat>, pmds: seq<nat>) {
    && (forall i :: i in puds ==> puds[i] != pgd)
    && (forall i, j :: i in puds && j in puds && puds[i] == puds[j] ==> i == j)
    && (forall k :: 0 <= k < |pmds| ==> pmds[k] != pgd)
    && (forall i, k :: i in puds && 0 <= k < |pmds| ==> puds[i] != pmds[k])
    && (forall k, l :: 0 <= k < l < |pmds| ==> pmds[k] != pmds[l])
  }

  ghost predicate PagesIn(mem: Mem, pgd: nat, puds: map<nat, nat>, pmds: seq<nat>) {
    && pgd in mem && |mem[pgd]| == 512
    && (forall i :: i in puds ==> puds[i] in mem && |mem[puds[i]]| == 512)
    && (forall k :: 0 <= k < |pmds| ==> pmds[k] in mem && Zero(mem[pmds[k]]))
  }

  /** The first table points to the middle tables there are. */
  ghost predicate Puds(mem: Mem, pgd: nat, puds: map<nat, nat>) {
    forall i :: i in puds ==>
      i < 4 && pgd in mem && |mem[pgd]| == 512 && puds[i] < 0x10_0000_0000 && mem[pgd][i] == TableWord(puds[i])
  }

  /** ... and these to the last-level tables of blocks first up to next. */
  ghost predicate Pmds(mem: Mem, puds: map<nat, nat>, pmds: seq<nat>, first: nat) {
    forall k :: 0 <= k < |pmds| ==> Pmd(mem, puds, pmds, first, k)
  }

  ghost predicate Pmd(mem: Mem, puds: map<nat, nat>, pmds: seq<nat>, first: nat, k: nat)
    requires k < |pmds|
  {
    var b := first + k;
    b / 512 in puds && puds[b / 512] in mem && |mem[puds[b / 512]]| == 512 && pmds[k] < 0x10_0000_0000
    && mem[puds[b / 512]][b % 512] == TableWord(pmds[k])
  }

  ghost predicate Built(mem: Mem, pgd: nat, puds: map<nat, nat>, pmds: seq<nat>, first: nat) {
    Apart(pgd, puds, pmds) && PagesIn(mem, pgd, puds, pmds) && Puds(mem, pgd, puds) && Pmds(mem, puds, pmds, first)
  }

  lemma BuiltHung(mem: Mem, pgd: nat, puds: map<nat, nat>, pmds: seq<nat>, first: nat, b: nat)
    requires Built(mem, pgd, puds, pmds, first) && first <= b < first + |pmds| && b < 2048
    ensures Hung(mem, pgd, pmds, first, b)
  {
    assert Pmd(mem, puds, pmds, first, b - first);
    TableWordBack(puds[b / 512]);
    TableWordBack(pmds[b - first]);
  }

  function Least(a: nat, b: nat): nat { if a <= b then a else b }

  /** pud_next and pmd_next */
  function NextPud(x: nat, end: nat): nat { Least((x / PUD + 1) * PUD, end) }
  function NextPmd(x: nat, end: nat): nat { Least((x / PMD + 1) * PMD, end) }

  /** A page no table uses yet, of a size a table entry can name. */
  ghost predicate Unused(pgd: nat, puds: map<nat, nat>, pmds: seq<nat>, c: nat) {
    c < 0x10_0000_0000 && c != pgd && (forall i :: i in puds ==> puds[i] != c) && forall k :: 0 <= k < |pmds| ==>
      pmds[k] != c
  }

  lemma AddPud(mem: Mem, pgd: nat, puds: map<nat, nat>, first: nat, i: nat, c: nat)
    requires Built(mem, pgd, puds, [], first) && i < 4 && i !in puds && Unused(pgd, puds, [], c)
    ensures pgd in mem && i < |mem[pgd]| && c != pgd
    ensures Built(mem[c := Zeros()][pgd := mem[pgd][i := TableWord(c)]], pgd, puds[i := c], [], first)
  {
  }

  lemma AddPmd(mem: Mem, pgd: nat, puds: map<nat, nat>, pmds: seq<nat>, first: nat, c: nat)
    requires Built(mem, pgd, puds, pmds, first) && (first + |pmds|) / 512 in puds && Unused(pgd, puds, pmds, c)
    ensures var b := first + |pmds|;
      var pud := puds[b / 512];
      Built(mem[c := Zeros()][pud := mem[pud][b % 512 := TableWord(c)]], pgd, puds, pmds + [c], first)
  {
    var b := first + |pmds|;
    var pud := puds[b / 512];
    var mem' := mem[c := Zeros()][pud := mem[pud][b % 512 := TableWord(c)]];
    var pmds' := pmds + [c];
    forall k | 0 <= k < |pmds'| ensures Pmd(mem', puds, pmds', first, k) {
      if k < |pmds| {
        assert Pmd(mem, puds, pmds, first, k);
        assert pmds'[k] == pmds[k];
        var d := first + k;
        assert d / 512 == b / 512 ==> d % 512 != b % 512;
      }
    }
  }

  /** The tables hang together, and there is a last-level table for every address from base up to end. */
  ghost predicate TablesOk(mem: Mem, pgd: nat, puds: map<nat, nat>, pmds: seq<nat>, base: nat, end: nat) {
    && base < end <= SPACE && Puds(mem, pgd, puds)
    && (forall b: nat :: base / PMD <= b && b * PMD < end ==> Hung(mem, pgd, pmds, base / PMD, b) && b / 512 in puds)
    && (forall k :: 0 <= k < |pmds| ==> pmds[k] in mem && |mem[pmds[k]]| == 512 && pmds[k] != pgd)
    && (forall k, l :: 0 <= k < l < |pmds| ==> pmds[k] != pmds[l])
    && (forall k, i :: 0 <= k < |pmds| && i in puds ==> puds[i] != pmds[k])
  }

  class PageTable {
    var mem: Mem
    var pgd: nat
    var pmds: seq<nat>
    var base: nat
    var end: nat
    var puds: map<nat, nat>

    ghost predicate Valid()
      reads this
    {
      TablesOk(mem, pgd, puds, pmds, base, end)
    }

    /** What the table translates x to. */
    ghost function Trans(x: nat): nat reads this { Walk(mem, pgd, x) }

    constructor ()
      ensures mem == map[] && pmds == []
    {
      mem, pgd, pmds, base, end, puds := map[], 0, [], 0, 0, map[];
    }

    /** The first loop of av8l_fast_prepopulate_pgtables: a middle table for every 1G block. */
    method MakePuds(base: nat, end: nat, pool: seq<nat>, from: nat) returns (r: Ret, pg: nat)
      requires base < end <= SPACE && from <= |pool| && Built(mem, pgd, map[], [], base / PMD) && puds == map[]
      requires Supply(pool) && from > 0 && pool[from - 1] == pgd
      modifies this`mem, this`puds
      ensures from <= pg <= |pool| && r == (if |pool| < from + Blocks(base, end, PUD) then ENOMEM else Ok)
      ensures r == Ok ==> pg == from + Blocks(base, end, PUD)
      ensures r == Ok ==> Built(mem, pgd, puds, [], base / PMD) && forall i: nat :: base / PUD <= i && i * PUD < end ==>
        i in puds
      ensures forall i :: i in puds ==> puds[i] in pool[from..pg]
    {
      hide NextPud, Built, Supply;
      pg := from;
      var i: nat, pud: nat := base / PUD % 4, base;
      while pud < end
        invariant from <= pg <= |pool| && base <= pud <= end && Built(mem, pgd, puds, [], base / PMD)
        invariant pud < end ==> pud / PUD == i
        invariant pud == end ==> i * PUD >= end
        invariant i <= (end - 1) / PUD + 1 && pg == from + i - base / PUD
        invariant forall k: nat :: k in puds <==> base / PUD <= k < i
        invariant forall k :: k in puds ==> puds[k] in pool[from..pg]
        decreases end - pud
      {
        StepPud(pud, end);
        if pg == |pool| { return ENOMEM, pg; }
        var c := pool[pg];
        assert Unused(pgd, puds, [], c) by { NotYet(pool, from, pg, pgd, puds, []); }
        AddPud(mem, pgd, puds, base / PMD, i, c);
        assert pool[from..pg + 1] == pool[from..pg] + [c];
        mem := mem[c := Zeros()];
        var row: seq<nat> := mem[pgd][i := TableWord(c)];
        mem := mem[pgd := row];
        puds := puds[i := c];
        pg := pg + 1;
        i, pud := i + 1, NextPud(pud, end);
      }
      r := Ok;
    }

    /** The inner loop of the second one: a last-level table for every 2M block of the 1G block of pud. */
    method FillPud(base: nat, end: nat, pool: seq<nat>, from: nat, pg0: nat, i: nat, pud: nat) returns (r: Ret, pg: nat)
      requires base <= pud < end <= SPACE && 0 < from <= pg0 <= |pool| && Built(mem, pgd, puds, pmds, base / PMD)
      requires Supply(pool) && pool[from - 1] == pgd && i == pud / PUD && i in puds
      requires Reached(base / PMD + |pmds|, pud, end) && FromPool(pool, from, pg0, puds, pmds)
      modifies this`mem, this`pmds
      ensures pg0 <= pg <= |pool| && (r == Ok || r == ENOMEM) && pg - |pmds| == pg0 - |old(pmds)|
      ensures r == ENOMEM ==> pg == |pool| && base / PMD + |pmds| <= (end - 1) / PMD
      ensures r == Ok ==>
        && Built(mem, pgd, puds, pmds, base / PMD) && FromPool(pool, from, pg, puds, pmds)
        && Reached(base / PMD + |pmds|, NextPud(pud, end), end)
    {
      hide Built, Supply, FromPool, Reached, NextPud, NextPmd, Unused;
      pg := pg0;
      var first, j: nat, pmd: nat := base / PMD, pud / PMD % 512, pud;
      StepPud(pud, end);
      InBlock(pud, pud, end, first + |pmds|);
      var next := NextPud(pud, end);
      while pmd < next
        invariant pg0 <= pg <= |pool| && pmd <= next && Built(mem, pgd, puds, pmds, first)
        invariant FromPool(pool, from, pg, puds, pmds)
        invariant Reached(first + |pmds|, pmd, end) && pud <= pmd && pg - |pmds| == pg0 - |old(pmds)|
        invariant pmd < next ==> j == (first + |pmds|) % 512
        decreases next - pmd
      {
        if pg == |pool| { LastBlock(first + |pmds|, pmd, end); return ENOMEM, pg; }
        var c := pool[pg];
        InBlock(pud, pmd, end, first + |pmds|);
        BuiltPud(mem, pgd, puds, pmds, first, i);
        assert Unused(pgd, puds, pmds, c) by { NotYet(pool, from, pg, pgd, puds, pmds); }
        AddPmd(mem, pgd, puds, pmds, first, c);
        PoolMore(pool, from, pg, puds, pmds);
        assert c != puds[i] by { UnusedPud(pgd, puds, pmds, c, i); }
        StepPmd(pud, pmd, end, first + |pmds|);
        mem := mem[c := Zeros()];
        var row: seq<nat> := mem[puds[i]][j := TableWord(c)];
        mem := mem[puds[i] := row];
        pmds := pmds + [c];
        pg := pg + 1;
        j, pmd := j + 1, NextPmd(pmd, end);
      }
      r := Ok;
    }

    /** The second loop: the last-level tables, in the order of the blocks they serve. */
    method MakePmds(base: nat, end: nat, pool: seq<nat>, from: nat, pg0: nat) returns (r: Ret, pg: nat)
      requires base < end <= SPACE && 0 < from <= pg0 <= |pool| && Built(mem, pgd, puds, [], base / PMD) && pmds == []
      requires Supply(pool) && pool[from - 1] == pgd && FromPool(pool, from, pg0, puds, [])
      requires forall i: nat :: base / PUD <= i && i * PUD < end ==> i in puds
      modifies this`mem, this`pmds
      ensures pg0 <= pg <= |pool| && r == (if |pool| < pg0 + Blocks(base, end, PMD) then ENOMEM else Ok)
      ensures r == Ok ==> Built(mem, pgd, puds, pmds, base / PMD) && (base / PMD + |pmds|) * PMD >= end
    {
      hide Built, Supply, FromPool, NextPud;
      pg := pg0;
      var i: nat, pud: nat := base / PUD % 4, base;
      assert base / PUD % 4 == base / PUD;
      while pud < end
        invariant pg0 <= pg <= |pool| && base <= pud <= end && Built(mem, pgd, puds, pmds, base / PMD)
        invariant FromPool(pool, from, pg, puds, pmds)
        invariant Reached(base / PMD + |pmds|, pud, end) && pg == pg0 + |pmds|
        invariant pud < end ==> pud / PUD == i
        decreases end - pud
      {
        assert i * PUD <= pud && base / PUD <= i;
        r, pg := FillPud(base, end, pool, from, pg, i, pud);
        if r != Ok { return; }
        StepPud(pud, end);
        i, pud := i + 1, NextPud(pud, end);
      }
      r := Ok;
    }

    /** av8l_fast_prepopulate_pgtables. The pool stands for the page allocator; an empty one means no memory. */
    method Prepopulate(base: nat, end: nat, pool: seq<nat>) returns (r: Ret)
      requires base < end <= SPACE && Supply(pool)
      modifies this
      ensures r == if |pool| < 1 + Blocks(base, end, PUD) + Blocks(base, end, PMD) then ENOMEM else Ok
      ensures r == Ok ==> Valid() && this.base == base && this.end == end && forall x :: base <= x < end ==>
        Trans(x) == 0
    {
      hide Built, Supply, FromPool;
      if pool == [] { return ENOMEM; }
      pgd := pool[0];
      mem, puds, pmds := map[pgd := Zeros()], map[], [];
      StartBuilt(mem, pgd, pool, base / PMD);
      var pg;
      r, pg := MakePuds(base, end, pool, 1);
      if r != Ok { return; }
      assert FromPool(pool, 1, pg, puds, []) by { JustPuds(pool, 1, pg, puds); }
      r, pg := MakePmds(base, end, pool, 1, pg);
      if r != Ok { return; }
      this.base, this.end := base, end;
      BuiltValid(mem, pgd, puds, pmds, base, end);
    }

    /** av8l_fast_iova_to_phys */
    method IovaToPhys(x: nat) returns (phys: nat)
      requires Valid() && base <= x < end
      ensures phys == Trans(x) == PhysOf(Flat(mem, pmds, FlatIndex(base, x)), x)
    {
      HungThere(mem, pgd, puds, pmds, base, end, x);
      FlatIsWalk(mem, pgd, pmds, base, x);
      hide Flat, PhysOf, FlatIndex;
      phys := 0;
      var e := mem[pgd][x / PUD % 512];
      if TypeOf(e) == 3 {
        var f := mem[AddrOf(e) / PAGE][x / PMD % 512];
        if TypeOf(f) == 3 {
          phys := PhysOf(mem[AddrOf(f) / PAGE][x / PAGE % 512], x);
        }
      }
    }

    /** Write n words from entry k of the flat array on, each by `step` more than the one before. */
    method Fill(k: nat, n: nat, word: nat, step: nat)
      requires Valid() && (n > 0 ==> (k + n - 1) / 512 < |pmds|)
      modifies this`mem
      ensures Valid()
      ensures forall j: nat :: Flat(mem, pmds, j) == if k <= j < k + n then word + (j - k) * step
        else Flat(old(mem), pmds, j)
    {
      hide TablesOk, Flat, PutWord;
      var i, w := 0, word;
      while i < n
        invariant 0 <= i <= n && w == word + i * step && Valid()
        invariant forall j: nat :: Flat(mem, pmds, j) == if k <= j < k + i then word + (j - k) * step
          else Flat(old(mem), pmds, j)
      {
        assert (k + i) / 512 <= (k + n - 1) / 512;
        PutOk(mem, pgd, puds, pmds, base, end, k + i, w);
        mem := PutWord(mem, pmds, k + i, w);
        Distribute(i, 1, step);
        i, w := i + 1, w + step;
      }
    }

    /** av8l_fast_map. `prot` holds type and attribute bits. */
    method Map(iova: nat, paddr: nat, size: nat, prot: nat) returns (r: Ret)
      requires Valid() && ProtOk(prot) && (iova >= base ==> iova + size <= end)
      modifies this`mem
      ensures Valid() && (r == EINVAL <==> iova < base) && (r == Ok || r == EINVAL)
      ensures r == EINVAL ==> mem == old(mem)
      ensures r == Ok ==> forall x :: base <= x < end ==>
        Trans(x) == if InPages(iova, size, x) then MappedTo(paddr, x / PAGE - iova / PAGE) + x % PAGE else old(Trans(x))
    {
      if iova < base { return EINVAL; }
      var k, n := FlatIndex(base, iova), size / PAGE;
      var pa := paddr / PAGE % 0x10_0000_0000 * PAGE;
      RangeFits(mem, pgd, puds, pmds, base, end, iova, size);
      ghost var mem0 := mem;
      Fill(k, n, prot + pa, PAGE);
      hide TablesOk, Flat, FlatIndex, Walk, PhysOf, MappedTo, ProtOk;
      forall x | base <= x < end ensures Walk(mem, pgd, x) ==
        if InPages(iova, size, x) then MappedTo(paddr, x / PAGE - iova / PAGE) + x % PAGE else Walk(mem0, pgd, x)
      {
        FlatTrans(mem, pgd, puds, pmds, base, end, x);
        FlatTrans(mem0, pgd, puds, pmds, base, end, x);
        IndexDiff(base, iova, x);
        if InPages(iova, size, x) { WordPhys(prot, paddr, x / PAGE - iova / PAGE, x); }
      }
      r := Ok;
    }

    /** __av8l_fast_unmap. With `stale` the TLB is left alone, and with `marking` the entries are marked so. */
    method Unmap(iova: nat, size: nat, stale: bool, marking: bool) returns (unmapped: nat)
      requires Valid() && (iova >= base ==> iova + size <= end)
      modifies this`mem
      ensures Valid() && unmapped == if iova < base then 0 else size
      ensures iova < base ==> mem == old(mem)
      ensures iova >= base ==> forall x :: base <= x < end ==>
        Trans(x) == if InPages(iova, size, x) then 0 else old(Trans(x))
    {
      if iova < base { return 0; }
      var k, n := FlatIndex(base, iova), size / PAGE;
      var word: nat := if stale && marking then 0x0a0a_0a0a_0a0a_0a0a else 0;
      assert forall x: nat :: PhysOf(word, x) == 0;
      RangeFits(mem, pgd, puds, pmds, base, end, iova, size);
      ghost var mem0 := mem;
      Fill(k, n, word, 0);
      hide TablesOk, Flat, FlatIndex, Walk, PhysOf;
      forall x | base <= x < end ensures Walk(mem, pgd, x) == if InPages(iova, size, x) then 0 else Walk(mem0, pgd, x) {
        FlatTrans(mem, pgd, puds, pmds, base, end, x);
        FlatTrans(mem0, pgd, puds, pmds, base, end, x);
        IndexDiff(base, iova, x);
      }
      unmapped := size;
    }
  }

  /** Pages the allocator hands out one after the other: no two alike, each of a size an entry can name. */
  ghost predicate Supply(pool: seq<nat>) {
    (forall i :: 0 <= i < |pool| ==> pool[i] < 0x10_0000_0000) && forall i, j :: 0 <= i < j < |pool| ==>
      pool[i] != pool[j]
  }

  lemma NotYet(pool: seq<nat>, from: nat, pg: nat, pgd: nat, puds: map<nat, nat>, pmds: seq<nat>)
    requires Supply(pool) && 0 < from <= pg < |pool| && pool[from - 1] == pgd && FromPool(pool, from, pg, puds, pmds)
    ensures Unused(pgd, puds, pmds, pool[pg])
  {
    forall a | a in pool[from..pg] ensures a != pool[pg] {
      var i :| 0 <= i < pg - from && pool[from..pg][i] == a;
      assert pool[from + i] == a;
    }
  }

  /** The tables' pages come from this part of the pool. */
  ghost predicate FromPool(pool: seq<nat>, from: nat, pg: nat, puds: map<nat, nat>, pmds: seq<nat>) {
    from <= pg <= |pool| && (forall i :: i in puds ==> puds[i] in pool[from..pg]) && forall k :: 0 <= k < |pmds| ==>
      pmds[k] in pool[from..pg]
  }

  lemma JustPuds(pool: seq<nat>, from: nat, pg: nat, puds: map<nat, nat>)
    requires from <= pg <= |pool| && forall i :: i in puds ==> puds[i] in pool[from..pg]
    ensures FromPool(pool, from, pg, puds, [])
  {
  }

  lemma PoolMore(pool: seq<nat>, from: nat, pg: nat, puds: map<nat, nat>, pmds: seq<nat>)
    requires pg < |pool| && FromPool(pool, from, pg, puds, pmds)
    ensures FromPool(pool, from, pg + 1, puds, pmds + [pool[pg]])
  {
    assert pool[from..pg + 1] == pool[from..pg] + [pool[pg]];
  }

  lemma BuiltPud(mem: Mem, pgd: nat, puds: map<nat, nat>, pmds: seq<nat>, first: nat, i: nat)
    requires Built(mem, pgd, puds, pmds, first) && i in puds
    ensures puds[i] in mem && |mem[puds[i]]| == 512
  {
  }

  lemma UnusedPud(pgd: nat, puds: map<nat, nat>, pmds: seq<nat>, c: nat, i: nat)
    requires Unused(pgd, puds, pmds, c) && i in puds
    ensures c != puds[i]
  {
  }

  lemma StartBuilt(mem: Mem, pgd: nat, pool: seq<nat>, first: nat)
    requires Supply(pool) && pool != [] && pgd == pool[0] && mem == map[pgd := Zeros()]
    ensures Built(mem, pgd, map[], [], first)
  {
  }

  lemma BuiltValid(mem: Mem, pgd: nat, puds: map<nat, nat>, pmds: seq<nat>, base: nat, end: nat)
    requires Built(mem, pgd, puds, pmds, base / PMD) && base < end <= SPACE && (base / PMD + |pmds|) * PMD >= end
    ensures TablesOk(mem, pgd, puds, pmds, base, end) && forall x :: base <= x < end ==> Walk(mem, pgd, x) == 0
  {
    forall b: nat | base / PMD <= b && b * PMD < end ensures Hung(mem, pgd, pmds, base / PMD, b) && b / 512 in puds {
      assert b < 2048 && b < base / PMD + |pmds|;
      BuiltHung(mem, pgd, puds, pmds, base / PMD, b);
      assert Pmd(mem, puds, pmds, base / PMD, b - base / PMD);
    }
    forall x | base <= x < end ensures Walk(mem, pgd, x) == 0 {
      assert x / PMD * PMD < end;
      FlatIsWalk(mem, pgd, pmds, base, x);
      ZeroFlat(mem, pgd, puds, pmds, base / PMD, FlatIndex(base, x));
    }
  }

  lemma ZeroFlat(mem: Mem, pgd: nat, puds: map<nat, nat>, pmds: seq<nat>, first: nat, k: nat)
    requires Built(mem, pgd, puds, pmds, first)
    ensures Flat(mem, pmds, k) == 0
  {
  }

  /** The blocks of the given size that hold an address from base up to end. */
  function Blocks(base: nat, end: nat, size: nat): nat requires base < end && size > 0 {
    BlocksOrder(base, end - 1, size);
    (end - 1) / size - base / size + 1
  }

  lemma BlocksOrder(a: nat, b: nat, size: nat)
    requires a <= b && size > 0
    ensures a / size <= b / size
  {
    DivTimes(b, size);
    Distribute(b / size, 1, size);
    DivBelow(a, size, b / size + 1);
  }

  /** So many 2M blocks lie before x; all of them, at the end. */
  predicate Reached(nb: nat, x: nat, end: nat) {
    x <= end && (x < end ==> nb == x / PMD) && (x == end ==> nb == (end - 1) / PMD + 1)
  }

  lemma LastBlock(nb: nat, x: nat, end: nat)
    requires Reached(nb, x, end) && x < end
    ensures nb <= (end - 1) / PMD
  {
  }

  lemma InBlock(pud: nat, pmd: nat, end: nat, nb: nat)
    requires pud <= pmd < NextPud(pud, end) && Reached(nb, pmd, end)
    ensures nb / 512 == pud / PUD && nb == pmd / PMD && nb % 512 == pmd / PMD % 512
  {
    assert pmd / PUD == pud / PUD;
  }

  /** The next 2M block, within the 1G block or at its end. */
  lemma StepPmd(pud: nat, pmd: nat, end: nat, nb: nat)
    requires pud <= pmd < NextPud(pud, end) && Reached(nb, pmd, end)
    ensures var next, n := NextPud(pud, end), NextPmd(pmd, end);
      pmd < n <= next && Reached(nb + 1, n, end) && (n < next ==> (nb + 1) % 512 == nb % 512 + 1)
  {
    var n := NextPmd(pmd, end);
    assert (nb + 1) * PMD > pmd;
    InBlock(pud, pmd, end, nb);
    if n < NextPud(pud, end) {
      assert n == (nb + 1) * PMD;
      assert (nb + 1) / 512 == nb / 512;
    }
  }

  lemma StepPud(pud: nat, end: nat)
    requires pud < end
    ensures var n := NextPud(pud, end);
      pud < n <= end && (n < end ==> n / PUD == pud / PUD + 1) && (n == end ==> (pud / PUD + 1) * PUD >= end)
    ensures pud / PUD <= (end - 1) / PUD
  {
  }

  // ---------------------------------------------------------------------------------------------
  // Words in the flat array.

  /** Is x in the pages from iova's on that `size` bytes fill? */
  predicate InPages(iova: nat, size: nat, x: nat) { iova / PAGE <= x / PAGE < iova / PAGE + size / PAGE }

  /** Where the d-th page from paddr on is found again: 48 bits, without the offset in the page. */
  function MappedTo(paddr: nat, d: int): nat { (paddr / PAGE % 0x10_0000_0000 + d) % 0x10_0000_0000 * PAGE }

  /** The page is found where it was put, exactly if it was aligned and lies below 2^48. */
  lemma MappedBack(paddr: nat, d: nat)
    ensures MappedTo(paddr, d) == paddr + d * PAGE <==> paddr % PAGE == 0 && paddr + d * PAGE < 0x1_0000_0000_0000
  {
    var p := paddr / PAGE;
    assert paddr == p * PAGE + paddr % PAGE;
    var m := (p % 0x10_0000_0000 + d) % 0x10_0000_0000;
    assert m * PAGE < 0x1_0000_0000_0000;
    if paddr % PAGE == 0 && p + d < 0x10_0000_0000 {
      assert p % 0x10_0000_0000 == p;
    }
  }

  /** A page put at 2^48 is found at 0, and one put a byte past the start of a page is found at the start. */
  method Misplaced() returns (high: nat, odd: nat)
    ensures high == 0 && odd == PAGE
  {
    hide TablesOk, Walk;
    var t := new PageTable();
    var r := t.Prepopulate(0, PMD, [0, 1, 2]);
    r := t.Map(0, 0x1_0000_0000_0000, PAGE, 3);
    high := t.IovaToPhys(0);
    r := t.Map(0, PAGE + 1, PAGE, 3);
    odd := t.IovaToPhys(0);
  }

  /** Type 3, attributes below bit 12 or from bit 53 on. */
  predicate ProtOk(prot: nat) { prot % 4 == 3 && prot / PAGE % 0x200_0000_0000 == 0 }

  lemma WordPhys(prot: nat, paddr: nat, d: nat, x: nat)
    requires ProtOk(prot)
    ensures PhysOf(prot + paddr / PAGE % 0x10_0000_0000 * PAGE + d * PAGE, x) == MappedTo(paddr, d) + x % PAGE
  {
    var p := paddr / PAGE % 0x10_0000_0000;
    WordAddr(prot, p + d);
    assert prot + (p + d) * PAGE == prot + p * PAGE + d * PAGE;
  }

  lemma WordAddr(prot: nat, q: nat)
    requires ProtOk(prot)
    ensures AddrOf(prot + q * PAGE) == q % 0x10_0000_0000 * PAGE && TypeOf(prot + q * PAGE) == 3
  {
    var hi := prot / PAGE / 0x200_0000_0000;
    DivTimes(prot, PAGE);
    DivTimes(prot / PAGE, 0x200_0000_0000);
    DivUnique(prot + q * PAGE, PAGE, hi * 0x200_0000_0000 + q);
    DropHigh(hi, q);
    TypeKept(prot, q);
  }

  lemma DropHigh(hi: nat, q: nat)
    ensures (hi * 0x200_0000_0000 + q) % 0x10_0000_0000 == q % 0x10_0000_0000
  {
    DivTimes(q, 0x10_0000_0000);
    DivUnique(hi * 0x200_0000_0000 + q, 0x10_0000_0000, hi * 32 + q / 0x10_0000_0000);
  }

  lemma TypeKept(prot: nat, q: nat)
    ensures (prot + q * PAGE) % 4 == prot % 4
  {
  }

  function PutWord(mem: Mem, pmds: seq<nat>, k: nat, w: nat): Mem
    requires k / 512 < |pmds| && pmds[k / 512] in mem && |mem[pmds[k / 512]]| == 512
  {
    var row: seq<nat> := mem[pmds[k / 512]][k % 512 := w];
    mem[pmds[k / 512] := row]
  }

  /** One word changes one entry of the flat array and leaves the tables in place. */
  lemma PutOk(mem: Mem, pgd: nat, puds: map<nat, nat>, pmds: seq<nat>, base: nat, end: nat, k: nat, w: nat)
    requires TablesOk(mem, pgd, puds, pmds, base, end) && k / 512 < |pmds|
    ensures pmds[k / 512] in mem && |mem[pmds[k / 512]]| == 512
    ensures TablesOk(PutWord(mem, pmds, k, w), pgd, puds, pmds, base, end)
    ensures forall j: nat :: Flat(PutWord(mem, pmds, k, w), pmds, j) == if j == k then w else Flat(mem, pmds, j)
  {
    var mem' := PutWord(mem, pmds, k, w);
    forall b: nat | base / PMD <= b && b * PMD < end ensures Hung(mem', pgd, pmds, base / PMD, b) {
      assert Hung(mem, pgd, pmds, base / PMD, b) && b / 512 in puds;
      TableWordBack(puds[b / 512]);
    }
    forall j: nat ensures Flat(mem', pmds, j) == if j == k then w else Flat(mem, pmds, j) {
      assert j / 512 == k / 512 && j % 512 == k % 512 ==> j == k;
    }
  }

  lemma HungThere(mem: Mem, pgd: nat, puds: map<nat, nat>, pmds: seq<nat>, base: nat, end: nat, x: nat)
    requires TablesOk(mem, pgd, puds, pmds, base, end) && base <= x < end
    ensures Hung(mem, pgd, pmds, base / PMD, x / PMD)
  {
    assert base / PMD <= x / PMD && x / PMD * PMD < end;
  }

  lemma FlatTrans(mem: Mem, pgd: nat, puds: map<nat, nat>, pmds: seq<nat>, base: nat, end: nat, x: nat)
    requires TablesOk(mem, pgd, puds, pmds, base, end) && base <= x < end
    ensures Walk(mem, pgd, x) == PhysOf(Flat(mem, pmds, FlatIndex(base, x)), x)
  {
    HungThere(mem, pgd, puds, pmds, base, end, x);
    FlatIsWalk(mem, pgd, pmds, base, x);
  }

  /** Flat indices are as far apart as pages. */
  lemma IndexDiff(base: nat, iova: nat, x: nat)
    requires base <= iova && base <= x
    ensures FlatIndex(base, x) - FlatIndex(base, iova) == x / PAGE - iova / PAGE
  {
  }

  /** The pages of a range have their entries in the flat array. */
  lemma RangeFits(mem: Mem, pgd: nat, puds: map<nat, nat>, pmds: seq<nat>, base: nat, end: nat, iova: nat, size: nat)
    requires TablesOk(mem, pgd, puds, pmds, base, end) && base <= iova && iova + size <= end
    ensures size / PAGE > 0 ==> (FlatIndex(base, iova) + size / PAGE - 1) / 512 < |pmds|
  {
    if size / PAGE > 0 {
      var x := iova + (size / PAGE - 1) * PAGE;
      HungThere(mem, pgd, puds, pmds, base, end, x);
      IndexDiff(base, iova, x);
      IndexBlock(base, x);
    }
  }

  lemma IndexBlock(base: nat, x: nat)
    requires base <= x
    ensures FlatIndex(base, x) / 512 == x / PMD - base / PMD
  {
  }
}
