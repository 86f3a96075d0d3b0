/** What single updates of LPAE tables do to the shape, the counts and the translation. */
module LpaeOps {
  import opened Arith
  import opened LpaeLevels
  import opened LpaeAddr
  import opened LpaeTable

  /** t' translates [x, x + len) to pa onwards, and everything else as t does. */
  ghost predicate Mapped(g: Geom, t: Tab, t': Tab, x: nat, len: nat, pa: nat, prot: nat)
    requires g.Ok()
  {
    forall y: nat :: Trans(g, t', y) == if x <= y < x + len then Phys(pa + (y - x), prot) else Trans(g, t, y)
  }

  /** t' translates [x, x + len) as leaves of blocks of `step` bytes, made for pa onwards, show it, and everything else
      as t does. */
  ghost predicate Written(g: Geom, t: Tab, t': Tab, x: nat, len: nat, step: nat, pa: nat, prot: nat)
    requires g.Ok() && step > 0
  {
    forall y: nat :: Trans(g, t', y) == if x <= y < x + len then Phys(Shown(g.page, step, pa, y - x), prot)
      else Trans(g, t, y)
  }

  /** Written is mapped if and only if the addresses are aligned to their blocks and within reach. */
  lemma WrittenMapped(g: Geom, t: Tab, t': Tab, x: nat, h: nat, k: nat, pa: nat, prot: nat)
    requires g.Real() && h <= g.H && k > 0 && Written(g, t, t', x, g.Span(h, k), g.Block(h), pa, prot)
    ensures Mapped(g, t, t', x, g.Span(h, k), pa, prot) <==> Encodable(g, pa, g.Block(h), g.Span(h, k))
  {
    hide Trans, Shown, Geom.Span, Geom.Block, Encodable;
    ShownIff(g, h, k, pa);
    if Mapped(g, t, t', x, g.Span(h, k), pa, prot) {
      forall d: nat | d < g.Span(h, k) ensures Shown(g.page, g.Block(h), pa, d) == pa + d {
        assert Trans(g, t', x + d) == Phys(pa + d, prot);
        assert x + d - x == d;
      }
    }
  }

  /** Leaves are for addresses they can hold; if `flat`, blocks above the last level are for addresses aligned to them.
      */
  ghost predicate Straight(g: Geom, t: Tab, flat: bool) requires g.Ok() {
    forall l, i :: l in t && 0 <= i < |t[l]| ==> StraightPte(g, l.h, t[l][i], flat)
  }

  predicate StraightPte(g: Geom, h: nat, e: Pte, flat: bool) requires g.Ok() {
    e.Leaf? ==> Stored(g.page, e.pa) == e.pa && (flat && h > 0 ==> e.pa % g.Block(h) == 0)
  }

  /** t' does not translate [x, x + len), and everything else as t does. */
  ghost predicate Unmapped(g: Geom, t: Tab, t': Tab, x: nat, len: nat)
    requires g.Ok()
  {
    forall y: nat :: Trans(g, t', y) == if x <= y < x + len then Fault else Trans(g, t, y)
  }

  ghost predicate SameTrans(g: Geom, t: Tab, t': Tab)
    requires g.Ok()
  {
    forall y: nat :: Trans(g, t', y) == Trans(g, t, y)
  }

  /** Nothing, or everything, in [x, x + len) is translated. */
  ghost predicate AllFault(g: Geom, t: Tab, x: nat, len: nat)
    requires g.Ok()
  {
    forall y: nat :: x <= y < x + len ==> Trans(g, t, y) == Fault
  }

  ghost predicate AllThere(g: Geom, t: Tab, x: nat, len: nat)
    requires g.Ok()
  {
    forall y: nat :: x <= y < x + len ==> Trans(g, t, y) != Fault
  }

  // ---------------------------------------------------------------------------------------------
  // Entries of one table.

  /** __arm_lpae_init_pte: k leaves from entry i on. */
  function WithLeaves(page: nat, s: seq<Pte>, i: nat, k: nat, pa: nat, step: nat, prot: nat): seq<Pte>
    requires i + k <= |s|
  {
    seq(|s|, j requires 0 <= j < |s| => if i <= j < i + k then Leaf(Stored(page, pa + (j - i) * step), prot) else s[j])
  }

  /** __arm_lpae_set_pte with 0. */
  function Cleared(s: seq<Pte>, i: nat, k: nat): seq<Pte>
    requires i + k <= |s|
  {
    seq(|s|, j requires 0 <= j < |s| => if i <= j < i + k then Empty else s[j])
  }

  predicate AllEmpty(s: seq<Pte>, i: nat, k: nat) { i + k <= |s| && forall j :: i <= j < i + k ==> s[j] == Empty }
  predicate AllLeaf(s: seq<Pte>, i: nat, k: nat) { i + k <= |s| && forall j :: i <= j < i + k ==> s[j].Leaf? }

  // ---------------------------------------------------------------------------------------------
  // Shape.

  /** The same entries are table entries, for the same tables. */
  ghost predicate SameTables(s: seq<Pte>, s': seq<Pte>) {
    |s'| == |s| && forall i :: 0 <= i < |s| ==> s'[i].Table? == s[i].Table? && (s[i].Table? ==> s'[i].addr == s[i].addr)
  }

  lemma ShapeKeep(g: Geom, at: map<Label, nat>, t: Tab, t': Tab, l: Label)
    requires Shape(g, at, t) && SameBut(t, t', l) && SameTables(t[l], t'[l])
    ensures Shape(g, at, t')
  {
    hide Kid, Geom.Size;
    forall m | m in t' ensures LabelOk(g, t', m) { assert LabelOk(g, t, m); }
    forall m, i | m in t' && 0 <= i < |t'[m]| ensures CellOk(g, at, t', m, i) { assert CellOk(g, at, t, m, i); }
  }

  /** New leaves map their addresses and change nothing else. */
  lemma LeavesOk(g: Geom, at: map<Label, nat>, t: Tab, t': Tab, h: nat, x: nat, k: nat, pa: nat, prot: nat)
    requires Shape(g, at, t) && g.Aligned(h, x) && SameBut(t, t', Slot(g, h, x))
    requires AllEmpty(t[Slot(g, h, x)], g.Index(h, x), k)
    requires t'[Slot(g, h, x)] == WithLeaves(g.page, t[Slot(g, h, x)], g.Index(h, x), k, pa, g.Block(h), prot)
    ensures Shape(g, at, t') && AllFault(g, t, x, g.Span(h, k))
    ensures Written(g, t, t', x, g.Span(h, k), g.Block(h), pa, prot)
  {
    var l := Slot(g, h, x);
    assert l in t && l in t';
    hide Geom.Cell, Geom.Block, Geom.Span, Geom.Ok, Geom.Off, Geom.Aligned, Geom.Index, Shape, SameBut, Look, Trans,
         Stored, Or;
    ShapeKeep(g, at, t, t', l);
    var i := g.Index(h, x);
    TableFits(g, at, t, l);
    forall y: nat
      ensures Trans(g, t', y) == if x <= y < x + g.Span(h, k) then Phys(Shown(g.page, g.Block(h), pa, y - x), prot)
        else Trans(g, t, y)
      ensures x <= y < x + g.Span(h, k) ==> Trans(g, t, y) == Fault
    {
      OneTable(g, at, t, t', l, y);
      SlotRange(g, h, x, k, y);
      if x <= y < x + g.Span(h, k) { BlockAndRest(g, h, y - x, g.Index(h, y) - g.Index(h, x), y); }
    }
  }

  /** Distance from the start of a run, by block and offset. */
  lemma BlockAndRest(g: Geom, h: nat, d: nat, q: nat, y: nat)
    requires g.Ok() && d == q * g.Block(h) + g.Off(h, y)
    ensures d / g.Block(h) * g.Block(h) == q * g.Block(h) && d % g.Block(h) == g.Off(h, y)
  {
    DivUnique(d, g.Block(h), q);
  }

  lemma TableFits(g: Geom, at: map<Label, nat>, t: Tab, l: Label)
    requires Shape(g, at, t) && l in t
    ensures g.Ok() && |t[l]| <= g.n && |t[l]| == g.Size(l.h) && l.h <= g.H
  {
    assert LabelOk(g, t, l);
  }

  /** Clearing leaves unmaps their addresses and changes nothing else. */
  lemma ClearLeavesOk(g: Geom, at: map<Label, nat>, t: Tab, t': Tab, h: nat, x: nat, k: nat)
    requires Shape(g, at, t) && g.Aligned(h, x) && SameBut(t, t', Slot(g, h, x))
    requires AllLeaf(t[Slot(g, h, x)], g.Index(h, x), k)
    requires t'[Slot(g, h, x)] == Cleared(t[Slot(g, h, x)], g.Index(h, x), k)
    ensures Shape(g, at, t') && Unmapped(g, t, t', x, g.Span(h, k))
  {
    var l := Slot(g, h, x);
    assert l in t && l in t';
    hide Geom.Cell, Geom.Block, Geom.Span, Geom.Ok, Geom.Off, Geom.Aligned, Geom.Index, Shape, SameBut, Look, Trans;
    ShapeKeep(g, at, t, t', l);
    TableFits(g, at, t, l);
    forall y: nat ensures Trans(g, t', y) == if x <= y < x + g.Span(h, k) then Fault else Trans(g, t, y) {
      OneTable(g, at, t, t', l, y);
      SlotRange(g, h, x, k, y);
    }
  }

  /** A new count changes no translation. */
  lemma RecountOk(g: Geom, at: map<Label, nat>, t: Tab, t': Tab, l: Label, i: nat, cnt: nat)
    requires Shape(g, at, t) && SameBut(t, t', l) && i < |t[l]| && t[l][i].Table?
    requires t'[l] == t[l][i := Table(t[l][i].addr, cnt)]
    ensures Shape(g, at, t') && SameTrans(g, t, t')
  {
    assert l in t && l in t';
    hide Geom.Cell, Geom.Ok, Geom.Off, Geom.Index, Shape, SameBut, Look, Trans, Slot;
    ShapeKeep(g, at, t, t', l);
    TableFits(g, at, t, l);
    forall y: nat ensures Trans(g, t', y) == Trans(g, t, y) { OneTable(g, at, t, t', l, y); }
  }

  // ---------------------------------------------------------------------------------------------
  // Counts.

  lemma {:induction false} UsedMore(s: seq<Pte>, s': seq<Pte>, i: nat, k: nat)
    requires |s'| == |s| && i + k <= |s|
    requires forall j :: i <= j < i + k ==> s[j] == Empty && s'[j] != Empty
    requires forall j :: 0 <= j < |s| && !(i <= j < i + k) ==> s'[j].Empty? == s[j].Empty?
    ensures Used(s') == Used(s) + k
    decreases |s|
  {
    if s != [] {
      var last := |s| - 1;
      var k' := if i + k == |s| && k > 0 then k - 1 else k;
      UsedMore(s[..last], s'[..last], if i > last then last else i, k');
    }
  }

  lemma {:induction false} UsedNone(s: seq<Pte>)
    ensures Used(s) == 0 <==> forall j :: 0 <= j < |s| ==> s[j] == Empty
    decreases |s|
  {
    if s != [] {
      var last := |s| - 1;
      UsedNone(s[..last]);
      assert forall j :: 0 <= j < last ==> s[..last][j] == s[j];
    }
  }

  /** Counted everywhere but at entry i of p. */
  ghost predicate CountedBut(g: Geom, t: Tab, p: Label, i: nat) {
    forall m, j :: m in t && 0 <= j < |t[m]| && !(m == p && j == i) ==> CountOk(g, t, m, j)
  }

  /** Entries of a last-level table only matter to the count above it. */
  lemma CountLow(g: Geom, t: Tab, t': Tab, p: Label, i: nat)
    requires g.Ok() && Counted(g, t) && p.h == 1 && i < g.n && SameBut(t, t', Kid(g, p, i))
    requires forall m :: m in t ==> |t[m]| <= g.n
    ensures CountedBut(g, t', p, i)
  {
    hide Used, Kid;
    KidHeight(g, p, i);
    forall m, j | m in t' && 0 <= j < |t'[m]| && !(m == p && j == i) ensures CountOk(g, t', m, j) {
      if m.h == 1 {
        assert CountOk(g, t, m, j) && |t[m]| <= g.n;
        if Kid(g, p, i) == Kid(g, m, j) { KidsApart(g, p, i, m, j); }
      }
    }
  }

  /** Setting the right count settles the matter. */
  lemma CountFix(g: Geom, t: Tab, t': Tab, p: Label, i: nat, addr: nat)
    requires CountedBut(g, t, p, i) && SameBut(t, t', p) && p.h == 1 && i < |t[p]| && Kid(g, p, i) in t
    requires t'[p] == t[p][i := Table(addr, Used(t[Kid(g, p, i)]) % COUNTS)]
    ensures Counted(g, t')
  {
    hide Used, Kid;
    forall m, j | m in t' && 0 <= j < |t'[m]| ensures CountOk(g, t', m, j) {
      assert !(m == p && j == i) ==> CountOk(g, t, m, j);
      if m.h == 1 { KidHeight(g, m, j); }
    }
  }

  /** Leaves above the last level do not matter to the counts. */
  lemma CountHigh(g: Geom, t: Tab, t': Tab, l: Label)
    requires Counted(g, t) && SameBut(t, t', l) && l.h >= 1 && |t'[l]| == |t[l]|
    requires forall i :: 0 <= i < |t[l]| ==> t'[l][i].Table? ==> t'[l][i] == t[l][i]
    ensures Counted(g, t')
  {
    hide Used, Kid;
    forall m, j | m in t' && 0 <= j < |t'[m]| ensures CountOk(g, t', m, j) {
      assert CountOk(g, t, m, j);
      if m.h == 1 { KidHeight(g, m, j); }
    }
  }

  lemma KidHeight(g: Geom, l: Label, i: nat)
    requires l.h > 0
    ensures Kid(g, l, i).h == l.h - 1
  {
  }

  lemma KidsApart(g: Geom, l: Label, i: nat, m: Label, j: nat)
    requires l.h > 0 && m.h > 0 && i < g.n && j < g.n && Kid(g, l, i) == Kid(g, m, j)
    ensures l == m && i == j
  {
    Child(g.n, l.b, i);
    Child(g.n, m.b, j);
  }

  // ---------------------------------------------------------------------------------------------
  // A new table.

  /** t' is t with a new table s of leaves under entry i of l. */
  ghost predicate Installed(g: Geom, t: Tab, t': Tab, l: Label, i: nat, e: Pte, s: seq<Pte>) {
    && l in t && l.h > 0 && i < |t[l]| && !t[l][i].Table? && e.Table? && |s| == g.n
    && (forall j :: 0 <= j < |s| ==> !s[j].Table?)
    && t'.Keys == t.Keys + {Kid(g, l, i)} && t'[l] == t[l][i := e] && t'[Kid(g, l, i)] == s
    && (forall m :: m in t && m != l && m != Kid(g, l, i) ==> t'[m] == t[m])
  }

  lemma LabelThere(g: Geom, at: map<Label, nat>, t: Tab, m: Label)
    requires Shape(g, at, t)
    ensures m in t && m.h < g.H ==> Parent(g, m) in t
  {
    assert m in t ==> LabelOk(g, t, m);
  }

  lemma NotThere(g: Geom, at: map<Label, nat>, t: Tab, l: Label, i: nat)
    requires Shape(g, at, t) && l in t && l.h > 0 && i < |t[l]| && !t[l][i].Table?
    ensures Kid(g, l, i) !in t && i < g.n && l.h <= g.H
    ensures forall j :: l.h > 1 && 0 <= j < g.n ==> Kid(g, Kid(g, l, i), j) !in t
  {
    assert CellOk(g, at, t, l, i);
    assert LabelOk(g, t, l);
    hide Shape, Kid, Parent, Place;
    KidHeight(g, l, i);
    forall j | l.h > 1 && 0 <= j < g.n ensures Kid(g, Kid(g, l, i), j) !in t {
      var kid := Kid(g, l, i);
      KidParent(g, kid, j);
      LabelThere(g, at, t, Kid(g, kid, j));
    }
  }

  lemma InstalledShape(g: Geom, at: map<Label, nat>, t: Tab, t': Tab, l: Label, i: nat, e: Pte, s: seq<Pte>)
    requires Shape(g, at, t) && Installed(g, t, t', l, i, e, s)
    ensures Shape(g, at[Kid(g, l, i) := e.addr], t')
  {
    NotThere(g, at, t, l, i);
    hide LabelOk, CellOk, Kid;
    var at' := at[Kid(g, l, i) := e.addr];
    forall m | m in t' ensures LabelOk(g, t', m) { InstalledLabel(g, at, t, t', l, i, e, s, m); }
    forall m, j | m in t' && 0 <= j < |t'[m]| ensures CellOk(g, at', t', m, j) {
      InstalledCell(g, at, t, t', l, i, e, s, m, j);
    }
  }

  lemma InstalledLabel(g: Geom, at: map<Label, nat>, t: Tab, t': Tab, l: Label, i: nat, e: Pte, s: seq<Pte>, m: Label)
    requires Shape(g, at, t) && Installed(g, t, t', l, i, e, s) && m in t'
    ensures LabelOk(g, t', m)
  {
    NotThere(g, at, t, l, i);
    assert LabelOk(g, t, l);
    assert m in t ==> LabelOk(g, t, m);
    KidParent(g, l, i);
    hide Shape, Kid, Parent, Place;
  }

  lemma InstalledCell(g: Geom, at: map<Label, nat>, t: Tab, t': Tab, l: Label, i: nat, e: Pte, s: seq<Pte>, m: Label,
      j: nat)
    requires Shape(g, at, t) && Installed(g, t, t', l, i, e, s) && m in t' && j < |t'[m]|
    ensures CellOk(g, at[Kid(g, l, i) := e.addr], t', m, j)
  {
    NotThere(g, at, t, l, i);
    KidHeight(g, l, i);
    assert m in t ==> LabelOk(g, t, m);
    assert m in t && j < |t[m]| ==> CellOk(g, at, t, m, j);
    if m.h > 0 { KidHeight(g, m, j); }
    hide Kid, LabelOk;
    if m in t && m.h > 0 && Kid(g, m, j) == Kid(g, l, i) {
      assert j < g.n by { TableFits(g, at, t, m); }
      KidsApart(g, l, i, m, j);
    }
  }

  /** Exactly the addresses of entry i of l meet its table. */
  lemma MeetsKid(g: Geom, l: Label, i: nat, x: nat)
    requires g.Ok() && l.h > 0 && i < g.n
    ensures Slot(g, l.h - 1, x) == Kid(g, l, i) <==> Slot(g, l.h, x) == l && g.Index(l.h, x) == i
  {
    hide Geom.Cell, Geom.Index, Geom.Ok;
    CellUp(g, l.h, x);
    Child(g.n, l.b, i);
    Child(g.n, g.Cell(l.h + 1, x), g.Index(l.h, x));
  }

  lemma InstalledTrans(g: Geom, at: map<Label, nat>, t: Tab, t': Tab, l: Label, i: nat, e: Pte, s: seq<Pte>, x: nat)
    requires Shape(g, at, t) && Installed(g, t, t', l, i, e, s)
    ensures Slot(g, l.h, x) == l && g.Index(l.h, x) == i ==>
      && Trans(g, t, x) == Read(g, t, l.h, t[l][i], x)
      && Trans(g, t', x) == Read(g, t, l.h - 1, s[g.Index(l.h - 1, x)], x)
    ensures !(Slot(g, l.h, x) == l && g.Index(l.h, x) == i) ==> Trans(g, t', x) == Trans(g, t, x)
  {
    NotThere(g, at, t, l, i);
    hide Kid, Geom.Cell, Geom.Index, Geom.Ok, Shape, Look, Trans, Installed, Slot, Read;
    if Slot(g, l.h, x) == l && g.Index(l.h, x) == i {
      InstalledHere(g, at, t, t', l, i, e, s, x);
    } else {
      InstalledElse(g, at, t, t', l, i, e, s, x);
    }
  }

  lemma InstalledHere(g: Geom, at: map<Label, nat>, t: Tab, t': Tab, l: Label, i: nat, e: Pte, s: seq<Pte>, x: nat)
    requires Shape(g, at, t) && Installed(g, t, t', l, i, e, s) && Slot(g, l.h, x) == l && g.Index(l.h, x) == i
    ensures Trans(g, t, x) == Read(g, t, l.h, t[l][i], x)
    ensures Trans(g, t', x) == Read(g, t, l.h - 1, s[g.Index(l.h - 1, x)], x)
  {
    var kid := Kid(g, l, i);
    NotThere(g, at, t, l, i);
    InstalledShape(g, at, t, t', l, i, e, s);
    MeetsKid(g, l, i, x);
    KidHeight(g, l, i);
    assert kid in t' && t'[kid] == s && l in t && |s| == g.n;
    hide Kid, Geom.Cell, Geom.Index, Geom.Ok, Shape, Look, Geom.Off, Installed, Slot;
    LookDown(g, at, t, l.h, x);
    LookHere(g, t, l, x);
    LookDown(g, at[kid := e.addr], t', l.h - 1, x);
    LookHere(g, t', kid, x);
  }

  lemma InstalledElse(g: Geom, at: map<Label, nat>, t: Tab, t': Tab, l: Label, i: nat, e: Pte, s: seq<Pte>, x: nat)
    requires Shape(g, at, t) && Installed(g, t, t', l, i, e, s) && !(Slot(g, l.h, x) == l && g.Index(l.h, x) == i)
    ensures Trans(g, t', x) == Trans(g, t, x)
  {
    NotThere(g, at, t, l, i);
    MeetsKid(g, l, i, x);
    hide Kid, Geom.Cell, Geom.Index, Geom.Ok, Shape, Look, Installed, Entry;
    KidHeight(g, l, i);
    forall k | 0 <= k <= g.H ensures Entry(g, t, k, x) == Entry(g, t', k, x) {
      InstalledEntry(g, t, t', l, i, e, s, k, x);
    }
    LookSame(g, t, t', g.H, x);
  }

  lemma InstalledEntry(g: Geom, t: Tab, t': Tab, l: Label, i: nat, e: Pte, s: seq<Pte>, k: nat, x: nat)
    requires g.Ok() && l.h > 0 && Installed(g, t, t', l, i, e, s) && Kid(g, l, i) !in t
    requires !(Slot(g, l.h, x) == l && g.Index(l.h, x) == i) && Slot(g, l.h - 1, x) != Kid(g, l, i)
    ensures Entry(g, t, k, x) == Entry(g, t', k, x)
  {
    KidHeight(g, l, i);
    hide Kid, Geom.Cell, Geom.Index, Geom.Ok;
    assert Slot(g, k, x).h == k;
  }

  /** An empty table in place of an empty entry changes no translation. */
  lemma InstallEmptyOk(g: Geom, at: map<Label, nat>, t: Tab, t': Tab, l: Label, i: nat, e: Pte, s: seq<Pte>)
    requires Shape(g, at, t) && Installed(g, t, t', l, i, e, s) && t[l][i] == Empty && AllEmpty(s, 0, |s|)
    ensures Shape(g, at[Kid(g, l, i) := e.addr], t') && SameTrans(g, t, t')
  {
    InstalledShape(g, at, t, t', l, i, e, s);
    NotThere(g, at, t, l, i);
    hide Kid, Geom.Cell, Geom.Index, Geom.Ok, Shape, Look, Geom.Off, Trans, Slot;
    forall y: nat ensures Trans(g, t', y) == Trans(g, t, y) { InstalledTrans(g, at, t, t', l, i, e, s, y); }
  }

  lemma InstalledCounted(g: Geom, at: map<Label, nat>, t: Tab, t': Tab, l: Label, i: nat, e: Pte, s: seq<Pte>)
    requires Shape(g, at, t) && Installed(g, t, t', l, i, e, s) && Counted(g, t) && e.cnt == Used(s) % COUNTS
    ensures Counted(g, t')
  {
    NotThere(g, at, t, l, i);
    KidHeight(g, l, i);
    hide Kid, Used, Shape;
    forall m, j | m in t' && 0 <= j < |t'[m]| ensures CountOk(g, t', m, j) {
      assert m in t && j < |t[m]| ==> CountOk(g, t, m, j);
      if m.h == 1 {
        KidHeight(g, m, j);
        if m in t && Kid(g, m, j) == Kid(g, l, i) {
          TableFits(g, at, t, m);
          KidsApart(g, l, i, m, j);
        }
      }
    }
  }

  /** The table arm_lpae_split_blk_unmap builds: the block in smaller pieces, less k of them from u on. */
  function Pieces(g: Geom, pa: nat, prot: nat, step: nat, u: nat, k: nat): (s: seq<Pte>)
    ensures |s| == g.n
    ensures forall j :: 0 <= j < g.n ==>
      s[j] == if u <= j < u + k then Empty else Leaf(Stored(g.page, pa + j * step), prot)
  {
    seq(g.n, j requires 0 <= j < g.n => if u <= j < u + k then Empty else Leaf(Stored(g.page, pa + j * step), prot))
  }

  lemma OffDown(g: Geom, h: nat, x: nat)
    requires g.Ok() && h > 0
    ensures g.Off(h, x) == g.Index(h - 1, x) * g.Block(h - 1) + g.Off(h - 1, x)
  {
    PiecesOff(x, g.Block(h - 1), g.n);
  }

  lemma PiecesOff(x: nat, b: nat, n: nat)
    requires b > 0 && n > 0 && n * b > 0
    ensures x % (n * b) == x / b % n * b + x % b
  {
    var q := x / b;
    DivTimes(x, b);
    DivTimes(q, n);
    var r, i := q / n, q % n;
    assert q * b == (r * n + i) * b == r * n * b + i * b;
    Regroup(r, n, b);
    MulMonotone(i + 1, n, b);
    assert (i + 1) * b == i * b + b;
    DivUnique(x, n * b, r);
  }

  /** t' is t with the block of x at height h split, less k pieces from x on. */
  ghost predicate Split(g: Geom, t: Tab, t': Tab, h: nat, e: Pte, x: nat, k: nat) {
    && g.Ok() && h > 0 && (k > 0 ==> g.Aligned(h - 1, x)) && g.Index(h - 1, x) + k <= g.n
    && var l, i := Slot(g, h, x), g.Index(h, x);
       l in t && i < |t[l]| && t[l][i].Leaf?
       && Installed(g, t, t', l, i, e, Pieces(g, t[l][i].pa, t[l][i].prot, g.Block(h - 1), g.Index(h - 1, x), k))
  }

  /** Where y is found once the block of x at height h, a leaf for pa, has been split along x down to height m. */
  function Tracked(g: Geom, h: nat, m: nat, pa: nat, x: nat, y: nat): nat
    requires g.Ok()
    decreases h
  {
    if h <= m then Or(pa, g.Off(h, y))
    else
      var p := Stored(g.page, pa + g.Index(h - 1, y) * g.Block(h - 1));
      if g.Index(h - 1, y) == g.Index(h - 1, x) then Tracked(g, h - 1, m, p, x, y) else Or(p, g.Off(h - 1, y))
  }

  /** t' does not translate [x, x + len), the rest of the block of x at height h as split down to m, and all else as t.
      */
  ghost predicate Torn(g: Geom, t: Tab, t': Tab, x: nat, len: nat, h: nat, m: nat)
    requires g.Ok() && Entry(g, t, h, x).Leaf?
  {
    forall y: nat :: Trans(g, t', y) == if x <= y < x + len then Fault else TornTrans(g, t, x, h, m, y)
  }

  function TornTrans(g: Geom, t: Tab, x: nat, h: nat, m: nat, y: nat): Phys
    requires g.Ok() && Entry(g, t, h, x).Leaf?
  {
    var e := Entry(g, t, h, x);
    if g.Cell(h, y) == g.Cell(h, x) then Phys(Tracked(g, h, m, e.pa, x, y), e.prot) else Trans(g, t, y)
  }

  /** Splitting a block unmaps the pieces left out, and puts the others where they are made for. */
  lemma SplitOk(g: Geom, at: map<Label, nat>, t: Tab, t': Tab, h: nat, e: Pte, x: nat, k: nat)
    requires Shape(g, at, t) && Split(g, t, t', h, e, x, k)
    ensures Shape(g, at[Slot(g, h - 1, x) := e.addr], t') && Entry(g, t, h, x).Leaf?
    ensures Torn(g, t, t', x, g.Span(h - 1, k), h, h - 1)
  {
    var l, i := Slot(g, h, x), g.Index(h, x);
    InstalledShape(g, at, t, t', l, i, e, Pieces(g, t[l][i].pa, t[l][i].prot, g.Block(h - 1), g.Index(h - 1, x), k));
    KidSlot(g, h, x);
    TableFits(g, at, t, l);
    hide Geom.Block, Geom.Span, Geom.Ok, Shape, Trans, Split, TornTrans;
    forall y: nat
      ensures Trans(g, t', y) == if x <= y < x + g.Span(h - 1, k) then Fault else TornTrans(g, t, x, h, h - 1, y)
    {
      SplitTrans(g, at, t, t', h, e, x, k, y);
    }
  }

  lemma SplitTrans(g: Geom, at: map<Label, nat>, t: Tab, t': Tab, h: nat, e: Pte, x: nat, k: nat, y: nat)
    requires Shape(g, at, t) && Split(g, t, t', h, e, x, k) && h <= g.H && Entry(g, t, h, x).Leaf?
    ensures Trans(g, t', y) == if x <= y < x + g.Span(h - 1, k) then Fault else TornTrans(g, t, x, h, h - 1, y)
  {
    hide Geom.Cell, Geom.Block, Geom.Span, Geom.Ok, Geom.Off, Geom.Aligned, Geom.Index, Shape, Look, Trans, Installed,
         Kid, Pieces, Or, Stored, Tracked;
    var l, i := Slot(g, h, x), g.Index(h, x);
    var s := Pieces(g, t[l][i].pa, t[l][i].prot, g.Block(h - 1), g.Index(h - 1, x), k);
    TrackedOnce(g, h, t[l][i].pa, x, y);
    SameCell(g, h, x, y);
    InstalledTrans(g, at, t, t', l, i, e, s, y);
    if k > 0 { SlotRange(g, h - 1, x, k, y); } else { NoSpan(g, h - 1); }
    SameBlock(g, h, x, y);
  }

  lemma TrackedOnce(g: Geom, h: nat, pa: nat, x: nat, y: nat)
    requires g.Ok() && h > 0
    ensures Tracked(g, h, h - 1, pa, x, y) ==
      Or(Stored(g.page, pa + g.Index(h - 1, y) * g.Block(h - 1)), g.Off(h - 1, y))
  {
    hide Or, Stored, Geom.Block, Geom.Index, Geom.Off;
  }

  lemma SameCell(g: Geom, h: nat, x: nat, y: nat)
    requires g.Ok()
    ensures g.Cell(h, y) == g.Cell(h, x) <==> Slot(g, h, y) == Slot(g, h, x) && g.Index(h, y) == g.Index(h, x)
  {
    hide Geom.Cell, Geom.Index;
    CellUp(g, h, x);
    CellUp(g, h, y);
  }

  lemma PieceAligned(g: Geom, h: nat, pa: nat, j: nat)
    requires g.Real() && 0 < h <= g.H && pa % g.Block(h) == 0 && pa < Reach(g.page) && j < g.n
    ensures (pa + j * g.Block(h - 1)) % g.Block(h - 1) == 0 && pa + j * g.Block(h - 1) < Reach(g.page)
  {
    assert g.Ok() && g.Block(h) == g.n * g.Block(h - 1) && 0 < g.Block(h);
    hide Or, Stored, Geom.Block, Geom.Real, Geom.Ok;
    var B := g.Block(h - 1);
    BlockDivides(g, h - 1, h, pa);
    StepMod(pa, j, B);
    ShownAt(g, h, pa, 0);
    MulMonotone(j + 1, g.n, B);
    Distribute(j, 1, B);
  }

  lemma StepMod(a: nat, j: nat, b: nat)
    requires b > 0 && a % b == 0
    ensures (a + j * b) % b == 0
  {
    DivUnique(j * b, b, j);
    ModAdd(a, j * b, b);
  }

  lemma NoSpan(g: Geom, h: nat)
    requires g.Ok()
    ensures g.Span(h, 0) == 0
  {
  }

  /** The pieces of one block meet the same entry above. */
  lemma SameBlock(g: Geom, h: nat, x: nat, y: nat)
    requires g.Ok() && h > 0
    ensures Slot(g, h - 1, y) == Slot(g, h - 1, x) <==> Slot(g, h, y) == Slot(g, h, x) && g.Index(h, y) == g.Index(h, x)
  {
    KidSlot(g, h, x);
    MeetsKid(g, Slot(g, h, x), g.Index(h, x), y);
  }
}
