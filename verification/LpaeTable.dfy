/** Tables of an ARM LPAE page table by the place they cover, and what they translate. */
module LpaeTable {
  import opened Arith
  import opened LpaeLevels
  import opened LpaeAddr

  /** A table entry. A leaf says which address it is for; a table entry has its count in bits the hardware ignores. */
  datatype Pte = Empty | Leaf(pa: nat, prot: nat) | Table(addr: nat, cnt: nat)

  /** The table at height h that covers the b-th stretch of that height. */
  datatype Label = Label(h: nat, b: nat)

  type Tab = map<Label, seq<Pte>>

  datatype Phys = Fault | Phys(pa: nat, prot: nat)

  function Slot(g: Geom, h: nat, x: nat): Label requires g.Ok() { Label(h, g.Cell(h + 1, x)) }

  /** The label of the table under entry i of l. */
  function Kid(g: Geom, l: Label, i: nat): Label requires l.h > 0 { Label(l.h - 1, l.b * g.n + i) }

  /** The table above l, and the entry for l in it. */
  function Parent(g: Geom, l: Label): Label requires g.Ok() { Label(l.h + 1, l.b / g.n) }
  function Place(g: Geom, l: Label): nat requires g.Ok() { l.b % g.n }

  lemma KidParent(g: Geom, l: Label, i: nat)
    requires g.Ok() && l.h > 0 && i < g.n
    ensures Parent(g, Kid(g, l, i)) == l && Place(g, Kid(g, l, i)) == i && Kid(g, l, i).h == l.h - 1
  {
    Child(g.n, l.b, i);
  }

  /** The entry for x at height h, if its table is there. */
  function Entry(g: Geom, t: Tab, h: nat, x: nat): Pte
    requires g.Ok()
  {
    var l := Slot(g, h, x);
    if l in t && g.Index(h, x) < |t[l]| then t[l][g.Index(h, x)] else Empty
  }

  /** What x translates to, from height h down. */
  function Look(g: Geom, t: Tab, h: nat, x: nat): Phys
    requires g.Ok()
    decreases h
  {
    match Entry(g, t, h, x)
    case Empty => Fault
    case Leaf(pa, prot) => Phys(Or(pa, g.Off(h, x)), prot)
    case Table(_, _) => if h == 0 then Fault else Look(g, t, h - 1, x)
  }

  function Trans(g: Geom, t: Tab, x: nat): Phys requires g.Ok() { Look(g, t, g.H, x) }

  // ---------------------------------------------------------------------------------------------
  // Shape.

  ghost predicate LabelOk(g: Geom, t: Tab, l: Label)
    requires g.Ok() && l in t
  {
    && l.h <= g.H && |t[l]| == g.Size(l.h) && (l.h == g.H ==> l.b == 0)
    && (l.h < g.H ==> Parent(g, l) in t && Place(g, l) < g.Size(l.h + 1))
  }

  /** An entry is a table entry exactly if there is a table under it, and then names its address. */
  ghost predicate CellOk(g: Geom, at: map<Label, nat>, t: Tab, l: Label, i: nat)
    requires l in t && i < |t[l]|
  {
    && (t[l][i].Table? <==> l.h > 0 && Kid(g, l, i) in t)
    && (t[l][i].Table? ==> Kid(g, l, i) in at && t[l][i].addr == at[Kid(g, l, i)])
  }

  ghost predicate Shape(g: Geom, at: map<Label, nat>, t: Tab) {
    && g.Ok() && at.Keys == t.Keys && Label(g.H, 0) in t
    && (forall l :: l in t ==> LabelOk(g, t, l))
    && (forall l, i :: l in t && 0 <= i < |t[l]| ==> CellOk(g, at, t, l, i))
  }

  function Used(s: seq<Pte>): (k: nat)
    ensures k <= |s|
  {
    if s == [] then 0 else Used(s[..|s| - 1]) + if s[|s| - 1].Empty? then 0 else 1
  }

  /** Entries above a last-level table count its used entries, modulo 2^13. */
  ghost predicate CountOk(g: Geom, t: Tab, l: Label, i: nat)
    requires l in t && i < |t[l]|
  {
    l.h == 1 && t[l][i].Table? && Kid(g, l, i) in t ==> t[l][i].cnt == Used(t[Kid(g, l, i)]) % COUNTS
  }

  ghost predicate Counted(g: Geom, t: Tab) {
    forall l, i :: l in t && 0 <= i < |t[l]| ==> CountOk(g, t, l, i)
  }

  // ---------------------------------------------------------------------------------------------
  // Translation and single tables.

  /** The table under the entry for x is the table for x one level down. */
  lemma KidSlot(g: Geom, h: nat, x: nat)
    requires g.Ok() && h > 0
    ensures Kid(g, Slot(g, h, x), g.Index(h, x)) == Slot(g, h - 1, x)
  {
    hide Geom.Cell, Geom.Index, Geom.Ok;
    CellUp(g, h, x);
  }

  /** A table that is there is the one the walk meets. */
  lemma {:induction false} LookDown(g: Geom, at: map<Label, nat>, t: Tab, h: nat, x: nat)
    requires Shape(g, at, t) && h <= g.H && Slot(g, h, x) in t
    ensures Trans(g, t, x) == Look(g, t, h, x)
    decreases g.H - h
  {
    hide Geom.Cell, Geom.Ok, Geom.Off;
    if h < g.H {
      var l := Slot(g, h, x);
      assert LabelOk(g, t, l);
      CellUp(g, h + 1, x);
      var up := Slot(g, h + 1, x);
      assert up == Label(h + 1, l.b / g.n);
      KidSlot(g, h + 1, x);
      assert LabelOk(g, t, up) && g.Index(h + 1, x) == l.b % g.n;
      assert CellOk(g, at, t, up, g.Index(h + 1, x));
      LookDown(g, at, t, h + 1, x);
    }
  }

  /** Tables that agree with the ones on the way of x translate it alike. */
  lemma {:induction false} LookSame(g: Geom, t: Tab, t': Tab, h: nat, x: nat)
    requires g.Ok() && forall k :: 0 <= k <= h ==> Entry(g, t, k, x) == Entry(g, t', k, x)
    ensures Look(g, t, h, x) == Look(g, t', h, x)
    decreases h
  {
    hide Geom.Cell, Geom.Ok, Geom.Off, Entry, Geom.Index;
    assert Entry(g, t, h, x) == Entry(g, t', h, x);
    if h > 0 { LookSame(g, t, t', h - 1, x); }
  }

  lemma LookEmpty(g: Geom, t: Tab, h: nat, x: nat)
    requires g.Ok() && Entry(g, t, h, x) == Empty
    ensures Look(g, t, h, x) == Fault
  {
  }

  /** An entry read on its own: what it says of x, given the tables below. */
  function Read(g: Geom, t: Tab, h: nat, e: Pte, x: nat): Phys
    requires g.Ok()
  {
    match e
    case Empty => Fault
    case Leaf(pa, prot) => Phys(Or(pa, g.Off(h, x)), prot)
    case Table(_, _) => if h == 0 then Fault else Look(g, t, h - 1, x)
  }

  function EntryOf(s: seq<Pte>, i: nat): Pte { if i < |s| then s[i] else Empty }

  /** The tables differ at most at l. */
  ghost predicate SameBut(t: Tab, t': Tab, l: Label) {
    l in t && t'.Keys == t.Keys && forall m :: m in t && m != l ==> t'[m] == t[m]
  }

  lemma LookOther(g: Geom, t: Tab, t': Tab, l: Label, h: nat, x: nat)
    requires g.Ok() && SameBut(t, t', l) && (l.h > h || Slot(g, l.h, x) != l)
    ensures Look(g, t, h, x) == Look(g, t', h, x)
  {
    hide Look, Geom.Cell, Geom.Ok, Geom.Index;
    forall k | 0 <= k <= h ensures Entry(g, t, k, x) == Entry(g, t', k, x) {
      assert Slot(g, k, x).h == k;
    }
    LookSame(g, t, t', h, x);
  }

  lemma LookHere(g: Geom, t: Tab, l: Label, x: nat)
    requires g.Ok() && l in t && Slot(g, l.h, x) == l
    ensures Look(g, t, l.h, x) == Read(g, t, l.h, EntryOf(t[l], g.Index(l.h, x)), x)
  {
  }

  lemma ReadSame(g: Geom, t: Tab, t': Tab, l: Label, e: Pte, x: nat)
    requires g.Ok() && SameBut(t, t', l)
    ensures Read(g, t', l.h, e, x) == Read(g, t, l.h, e, x)
  {
    hide Look, Geom.Off;
    if l.h > 0 { LookOther(g, t, t', l, l.h - 1, x); }
  }

  /** Changing one table changes the translation of the addresses that meet it, and of no other. */
  lemma OneTable(g: Geom, at: map<Label, nat>, t: Tab, t': Tab, l: Label, x: nat)
    requires Shape(g, at, t) && Shape(g, at, t') && SameBut(t, t', l)
    ensures Slot(g, l.h, x) != l ==> Trans(g, t', x) == Trans(g, t, x)
    ensures Slot(g, l.h, x) == l ==> Trans(g, t, x) == Read(g, t, l.h, EntryOf(t[l], g.Index(l.h, x)), x)
    ensures Slot(g, l.h, x) == l ==> Trans(g, t', x) == Read(g, t, l.h, EntryOf(t'[l], g.Index(l.h, x)), x)
  {
    assert g.Ok() && l.h <= g.H && l in t' by { assert LabelOk(g, t, l); }
    hide Shape, Look, Read, Slot, Geom.Index, EntryOf, Geom.Ok, SameBut;
    if Slot(g, l.h, x) == l {
      LookDown(g, at, t, l.h, x);
      LookDown(g, at, t', l.h, x);
      LookHere(g, t, l, x);
      LookHere(g, t', l, x);
      ReadSame(g, t, t', l, EntryOf(t'[l], g.Index(l.h, x)), x);
    } else {
      LookOther(g, t, t', l, g.H, x);
    }
  }

  /** Addresses meet the same table as an aligned address x, among the entries from x's on, exactly if they lie in that
      range. */
  lemma SlotRange(g: Geom, h: nat, x: nat, k: nat, y: nat)
    requires g.Ok() && g.Aligned(h, x) && g.Index(h, x) + k <= g.n
    ensures x <= y < x + g.Span(h, k) <==>
      Slot(g, h, y) == Slot(g, h, x) && g.Index(h, x) <= g.Index(h, y) < g.Index(h, x) + k
    ensures x <= y < x + g.Span(h, k) ==> y - x == (g.Index(h, y) - g.Index(h, x)) * g.Block(h) + g.Off(h, y)
  {
    hide Geom.Cell, Geom.Block, Geom.Span, Geom.Ok, Geom.Off, Geom.Aligned, Geom.Index;
    CellRange(g, h, x, k, y);
    CellUp(g, h, x);
    CellUp(g, h, y);
    if x <= y < x + g.Span(h, k) {
      CellOffset(g, h, x, y);
      BlockOf(g.n, g.Cell(h + 1, x), g.Index(h, x), k, g.Cell(h, y));
    }
  }

  lemma BlockOf(n: nat, b: nat, i: nat, k: nat, q: nat)
    requires i + k <= n && b * n + i <= q < b * n + i + k
    ensures q / n == b && q % n == q - b * n
  {
    DivUnique(q, n, b);
  }

  /** j blocks on from an aligned address, within one table. */
  lemma StepSlot(g: Geom, h: nat, x: nat, j: nat)
    requires g.Ok() && g.Aligned(h, x) && g.Index(h, x) + j < g.n
    ensures Slot(g, h, x + g.Span(h, j)) == Slot(g, h, x) && g.Index(h, x + g.Span(h, j)) == g.Index(h, x) + j
    ensures g.Aligned(h, x + g.Span(h, j)) && g.Span(h, j + 1) == g.Span(h, j) + g.Block(h)
  {
    StepCell(g, h, x, j);
    hide Geom.Cell, Geom.Span, Geom.Block, Geom.Ok, Geom.Aligned;
    var y := x + g.Span(h, j);
    CellUp(g, h, x);
    CellUp(g, h, y);
    BlockOf(g.n, g.Cell(h + 1, x), g.Index(h, x), j + 1, g.Cell(h, y));
  }

  lemma StepCell(g: Geom, h: nat, x: nat, j: nat)
    requires g.Ok() && g.Aligned(h, x)
    ensures g.Aligned(h, x + g.Span(h, j)) && g.Cell(h, x + g.Span(h, j)) == g.Cell(h, x) + j
    ensures g.Span(h, j + 1) == g.Span(h, j) + g.Block(h)
  {
    var B := g.Block(h);
    DivTimes(x, B);
    var q := x / B;
    assert (q + j) * B == q * B + j * B;
    assert (j + 1) * B == j * B + B;
    DivUnique(x + j * B, B, q + j);
  }
}
