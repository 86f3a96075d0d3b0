/** The table of size classes: how big each class is, which ones are merged, and that every request fits. Sizes in
    bytes. */
module ZsClasses {
  import opened Arith
  import opened ZsLayout
  import opened ZsPool

  /** ZS_ALIGN and ZS_HANDLE_SIZE. */
  const ALIGN: nat := 8

  /** PAGE_SIZE, ZS_MIN_ALLOC_SIZE, ZS_SIZE_CLASS_DELTA, ZS_MAX_PAGES_PER_ZSPAGE and 1 << OBJ_INDEX_BITS. */
  datatype Limits = Limits(page: nat, least: nat, delta: nat, chain: nat, indices: nat) {
    predicate Ok() {
      && 0 < least <= page && 0 < delta && 0 < chain
      && page % ALIGN == 0 && least % ALIGN == 0 && delta % ALIGN == 0
      && chain * page / least < indices && chain * page / least + 1 < UINT / 2
    }

    /** ZS_SIZE_CLASSES */
    function Classes(): (n: nat)
      requires Ok()
      ensures n >= 1
    {
      (page - least + delta - 1) / delta + 1
    }

    /** The size class i is made for. */
    function SizeAt(i: nat): (size: nat)
      requires Ok()
      ensures least <= size <= page && size % ALIGN == 0
    {
      AlignedSum(least, i, delta);
      if least + i * delta > page then page else least + i * delta
    }

    /** get_size_class_index */
    function Index(size: nat): (i: nat)
      requires Ok()
      ensures i < Classes()
    {
      var i := if size > least then (size - least + delta - 1) / delta else 0;
      if i < Classes() - 1 then i else Classes() - 1
    }
  }

  /** The last class is made for whole pages. */
  lemma LastClass(l: Limits)
    requires l.Ok()
    ensures l.SizeAt(l.Classes() - 1) == l.page
  {
    DivTimes(l.page - l.least + l.delta - 1, l.delta);
  }

  lemma AlignedSum(a: nat, i: nat, d: nat)
    requires a % ALIGN == 0 && d % ALIGN == 0
    ensures (a + i * d) % ALIGN == 0
  {
    var x, y := a / ALIGN, d / ALIGN;
    assert i * d == i * y * ALIGN;
    assert a + i * d == (x + i * y) * ALIGN;
    DivUnique(a + i * d, ALIGN, x + i * y);
  }

  predicate PowerOfTwo(n: nat)
    requires n > 0
  {
    n == 1 || (n % 2 == 0 && PowerOfTwo(n / 2))
  }

  function Waste(l: Limits, size: nat, pages: nat): nat requires size > 0 { pages * l.page % size }

  /** `pages` is the chain length zs_create_pool settles on: 1 for powers of two, else the first with the least
      waste. */
  predicate BestChain(l: Limits, size: nat, pages: nat)
    requires size > 0
  {
    && 1 <= pages <= l.chain
    && (PowerOfTwo(size) ==> pages == 1)
    && (!PowerOfTwo(size) ==> forall i :: 1 <= i <= l.chain ==>
          Waste(l, size, pages) <= Waste(l, size, i) && (i < pages ==> Waste(l, size, pages) < Waste(l, size, i)))
  }

  lemma BestChainUnique(l: Limits, size: nat, a: nat, b: nat)
    requires size > 0 && BestChain(l, size, a) && BestChain(l, size, b)
    ensures a == b
  {
    hide Waste;
    assert Waste(l, size, a) <= Waste(l, size, b) && Waste(l, size, b) <= Waste(l, size, a);
  }

  /** calculate_zspage_chain_size */
  method ChainSize(l: Limits, size: nat) returns (pages: nat)
    requires 0 < size <= l.page < UINT / 2 && l.chain >= 1
    ensures BestChain(l, size, pages)
  {
    hide Waste;
    pages := 1;
    if PowerOfTwo(size) { return; }
    var i, least := 1, UINT / 2 - 1;
    while i <= l.chain
      invariant 1 <= i <= l.chain + 1 && (i == 1 || 1 <= pages < i)
      invariant least == if i == 1 then UINT / 2 - 1 else Waste(l, size, pages)
      invariant forall j :: 1 <= j < i ==>
        Waste(l, size, pages) <= Waste(l, size, j) && (j < pages ==> Waste(l, size, pages) < Waste(l, size, j))
    {
      var waste := Waste(l, size, i);
      assert waste < size by { WasteSmall(l, size, i); }
      if waste < least {
        least, pages := waste, i;
      }
      i := i + 1;
    }
  }

  lemma WasteSmall(l: Limits, size: nat, i: nat)
    requires size > 0
    ensures Waste(l, size, i) < size
  {
  }

  function Objects(l: Limits, size: nat, pages: nat): nat requires size > 0 { pages * l.page / size }

  /** The part of struct size_class that never changes. */
  datatype Class = Class(size: nat, index: nat, pages: nat, objs: nat) {
    predicate Huge() { pages == 1 && objs == 1 }
  }

  /** Entry i of the table: a class at least as big as asked, cut up as the best chain for i would be. */
  ghost predicate EntryOk(l: Limits, i: nat, c: Class)
    requires l.Ok()
  {
    && i <= c.index < l.Classes() && c.size == l.SizeAt(c.index) >= l.SizeAt(i)
    && BestChain(l, l.SizeAt(i), c.pages) && BestChain(l, c.size, c.pages)
    && c.objs == Objects(l, l.SizeAt(i), c.pages) == Objects(l, c.size, c.pages)
  }

  /** Entry i shares the class of entry i + 1 exactly if both would be cut up alike. */
  ghost predicate MergedOk(i: nat, c: Class, next: Class) {
    c == next || (c.index == i && (c.pages != next.pages || c.objs != next.objs))
  }

  ghost predicate TableOk(l: Limits, from: nat, t: seq<Class>)
    requires l.Ok() && from <= l.Classes()
  {
    && |t| == l.Classes() - from
    && (forall j :: 0 <= j < |t| ==> EntryOk(l, from + j, t[j]))
    && (forall j :: 0 <= j < |t| - 1 ==> MergedOk(from + j, t[j], t[j + 1]))
  }

  datatype Created = NoMemory | Table(classes: seq<Class>)

  /** The loop of zs_create_pool, from the biggest class down. `room(i)` says whether there is memory for class i. */
  method CreateClasses(l: Limits, room: nat -> bool) returns (r: Created)
    requires l.Ok() && l.page < UINT / 2
    ensures r.Table? ==> TableOk(l, 0, r.classes)
    ensures r.NoMemory? ==> exists i :: 0 <= i < l.Classes() && !room(i)
  {
    hide Limits.Classes, Limits.SizeAt, BestChain, EntryOk, MergedOk, Limits.Ok, Objects;
    var i := l.Classes();
    var t: seq<Class> := [];
    while i > 0
      invariant 0 <= i <= l.Classes() && TableOk(l, i, t)
      decreases i
    {
      i := i - 1;
      var size := l.SizeAt(i);
      assert 0 < size <= l.page && l.chain >= 1 by { SizeBounds(l, i); }
      var pages := ChainSize(l, size);
      var objs := Objects(l, size, pages);
      if t != [] && t[0].pages == pages && t[0].objs == objs {
        JoinOk(l, i, t[0]);
        TableNext(l, i, t, t[0]);
        t := [t[0]] + t;
      } else {
        if !room(i) { return NoMemory; }
        NewClassOk(l, i, pages, objs);
        if t != [] { OwnClass(i, Class(size, i, pages, objs), t[0]); }
        TableNext(l, i, t, Class(size, i, pages, objs));
        t := [Class(size, i, pages, objs)] + t;
      }
    }
    r := Table(t);
  }

  lemma OwnClass(i: nat, c: Class, next: Class)
    requires c.index == i && (c.pages != next.pages || c.objs != next.objs)
    ensures MergedOk(i, c, next)
  {
  }

  lemma SizeBounds(l: Limits, i: nat)
    requires l.Ok()
    ensures 0 < l.SizeAt(i) <= l.page && l.chain >= 1
  {
  }

  lemma NewClassOk(l: Limits, i: nat, pages: nat, objs: nat)
    requires l.Ok() && i < l.Classes() && BestChain(l, l.SizeAt(i), pages) && objs == Objects(l, l.SizeAt(i), pages)
    ensures EntryOk(l, i, Class(l.SizeAt(i), i, pages, objs))
  {
  }

  lemma SizesGrow(l: Limits, i: nat, j: nat)
    requires l.Ok() && i <= j
    ensures l.SizeAt(i) <= l.SizeAt(j)
  {
    MulMonotone(i, j, l.delta);
  }

  lemma JoinOk(l: Limits, i: nat, c: Class)
    requires l.Ok() && EntryOk(l, i + 1, c)
    requires BestChain(l, l.SizeAt(i), c.pages) && c.objs == Objects(l, l.SizeAt(i), c.pages)
    ensures EntryOk(l, i, c)
    ensures MergedOk(i, c, c)
  {
    hide BestChain, Limits.SizeAt;
    SizesGrow(l, i, i + 1);
  }

  lemma TableNext(l: Limits, i: nat, t: seq<Class>, c: Class)
    requires l.Ok() && i < l.Classes() && TableOk(l, i + 1, t) && EntryOk(l, i, c)
    requires t != [] ==> MergedOk(i, c, t[0])
    ensures TableOk(l, i, [c] + t)
  {
    hide Limits.Classes, EntryOk, MergedOk;
    var t' := [c] + t;
    forall j | 0 <= j < |t'| ensures EntryOk(l, i + j, t'[j]) {
      if j > 0 { assert t'[j] == t[j - 1] && EntryOk(l, i + 1 + (j - 1), t[j - 1]); }
    }
    forall j | 0 <= j < |t'| - 1 ensures MergedOk(i + j, t'[j], t'[j + 1]) {
      assert t'[j + 1] == t[j];
      if j > 0 { assert t'[j] == t[j - 1] && MergedOk(i + 1 + (j - 1), t[j - 1], t[j]); }
    }
  }

  // ---------------------------------------------------------------------------------------------
  // Every request fits.

  /** The index found for a size names a class made for at least that size, or the last class. */
  lemma IndexFits(l: Limits, size: nat)
    requires l.Ok()
    ensures size <= l.page ==> l.SizeAt(l.Index(size)) >= size
    ensures size > l.page ==> l.SizeAt(l.Index(size)) == l.page
  {
    if size > l.least {
      var i := (size - l.least + l.delta - 1) / l.delta;
      DivTimes(size - l.least + l.delta - 1, l.delta);
      LastClass(l);
      if size > l.page && i < l.Classes() - 1 {
        DivTimes(l.page - l.least + l.delta - 1, l.delta);
        MulMonotone(i + 1, l.Classes() - 1, l.delta);
      }
    }
  }

  /** The class for whole pages holds one object per page. */
  lemma PageClassHuge(l: Limits, i: nat, c: Class)
    requires l.Ok() && EntryOk(l, i, c) && l.SizeAt(i) == l.page
    ensures c.size == l.page && c.Huge()
  {
    DivUnique(1 * l.page, l.page, 1);
    assert Waste(l, l.page, 1) == 0;
    assert c.pages == 1;
  }

  /** zs_malloc adds the header to the size: the class it finds has room for both, or is huge and has room for the
      payload. */
  lemma RequestFits(l: Limits, t: seq<Class>, size: nat)
    requires l.Ok() && TableOk(l, 0, t) && 1 <= size <= l.page
    ensures var c := t[l.Index(size + ALIGN)];
      size + ALIGN <= c.size || (c.Huge() && size <= c.size)
  {
    hide BestChain, Limits.SizeAt;
    var i := l.Index(size + ALIGN);
    IndexFits(l, size + ALIGN);
    assert EntryOk(l, 0 + i, t[i]);
    if size + ALIGN > l.page { PageClassHuge(l, i, t[i]); }
  }

  datatype Selected = Invalid | NoSpace | Found(c: Class)

  /** The head of zs_malloc: reject sizes 0 and above a page, else find the class. */
  method SelectClass(l: Limits, t: seq<Class>, size: nat) returns (r: Selected)
    requires l.Ok() && TableOk(l, 0, t)
    ensures r.Invalid? <==> size == 0
    ensures r.NoSpace? <==> size > l.page
    ensures r.Found? ==> size + ALIGN <= r.c.size || (r.c.Huge() && size <= r.c.size)
  {
    if size == 0 {
      r := Invalid;
    } else if size > l.page {
      r := NoSpace;
    } else {
      RequestFits(l, t, size);
      r := Found(t[l.Index(size + ALIGN)]);
    }
  }

  /** The geometry of a class, in words. */
  function GeometryOf(l: Limits, c: Class): Geometry { Geometry(l.page / ALIGN, c.size / ALIGN, c.pages) }

  /** Every class of the table gives a sound configuration for its zspages. */
  lemma ClassConfig(l: Limits, i: nat, c: Class)
    requires l.Ok() && EntryOk(l, i, c)
    ensures Config(GeometryOf(l, c), l.indices).Ok()
    ensures GeometryOf(l, c).Objs() == c.objs && (GeometryOf(l, c).Huge() <==> c.Huge())
  {
    var g := GeometryOf(l, c);
    assert c.size % ALIGN == 0 && l.least <= c.size <= l.page && 1 <= c.pages <= l.chain;
    WordsBytes(c.pages, l.page, c.size);
    FewObjects(l, c.pages, c.size);
  }

  lemma WordsBytes(n: nat, page: nat, size: nat)
    requires page % ALIGN == 0 && size % ALIGN == 0 && size > 0
    ensures size / ALIGN > 0 && n * (page / ALIGN) / (size / ALIGN) == n * page / size
  {
    InWords(n, page / ALIGN, size / ALIGN);
  }

  lemma InWords(n: nat, p: nat, s: nat)
    requires s > 0
    ensures n * p / s == n * (p * ALIGN) / (s * ALIGN)
  {
    var q := n * (p * ALIGN) / (s * ALIGN);
    DivTimes(n * (p * ALIGN), s * ALIGN);
    Regroup(n, p, ALIGN);
    Regroup(q, s, ALIGN);
    DivUnique(n * p, s, q);
  }

  lemma FewObjects(l: Limits, pages: nat, size: nat)
    requires l.Ok() && pages <= l.chain && size >= l.least
    ensures pages * l.page / size <= l.chain * l.page / l.least
  {
    MulMonotone(pages, l.chain, l.page);
    DivMonotone(pages * l.page, l.chain * l.page, size, l.least);
  }

  lemma DivMonotone(a: nat, b: nat, c: nat, d: nat)
    requires a <= b && 0 < d <= c
    ensures a / c <= b / d
  {
    DivTimes(a, c);
    DivTimes(b, d);
    MulMonotone(d, c, a / c);
    if a / c > b / d { MulMonotone(b / d + 1, a / c, d); }
  }

  /** The eight bytes of a header never straddle two pages. */
  lemma HeaderInOnePage(l: Limits, i: nat, c: Class, idx: nat)
    requires l.Ok() && EntryOk(l, i, c)
    ensures idx * c.size % l.page + ALIGN <= l.page
  {
    AlignedSum(0, idx, c.size);
    AlignedRest(idx * c.size, l.page);
    AlignedBelow(idx * c.size % l.page, l.page);
  }

  lemma AlignedRest(pos: nat, page: nat)
    requires pos % ALIGN == 0 && page % ALIGN == 0 && page > 0
    ensures pos % page % ALIGN == 0
  {
    var q := pos / page;
    AlignedSum(0, q, page);
    assert pos == q * page + pos % page;
    AlignedDifference(pos, q * page);
  }

  lemma AlignedDifference(a: nat, b: nat)
    requires a % ALIGN == 0 && b % ALIGN == 0 && b <= a
    ensures (a - b) % ALIGN == 0
  {
  }

  lemma AlignedBelow(a: nat, b: nat)
    requires a % ALIGN == 0 && b % ALIGN == 0 && a < b
    ensures a + ALIGN <= b
  {
  }
}
