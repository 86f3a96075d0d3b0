/** Cutting a whole subtree off an LPAE table. */
module LpaeCut {
  import opened Arith
  import opened LpaeLevels
  import opened LpaeTable
  import opened LpaeOps

  /** The number of the stretch k levels up. */
  function Up(n: nat, b: nat, k: nat): nat
    requires n > 0
    decreases k
  {
    if k == 0 then b else Up(n, b / n, k - 1)
  }

  /** Is m the table l or one below it? */
  predicate Under(g: Geom, m: Label, l: Label) { g.n > 0 && m.h <= l.h && Up(g.n, m.b, l.h - m.h) == l.b }

  /** A table under entry j of m is under k exactly if m is, or if it is k itself. */
  lemma UnderKid(g: Geom, m: Label, j: nat, k: Label)
    requires g.Ok() && m.h > 0 && j < g.n
    ensures Under(g, Kid(g, m, j), k) <==> Kid(g, m, j) == k || Under(g, m, k)
  {
    Child(g.n, m.b, j);
    var kid := Kid(g, m, j);
    if kid.h < k.h { assert Up(g.n, kid.b, k.h - kid.h) == Up(g.n, kid.b / g.n, k.h - kid.h - 1); }
  }

  lemma UnderParent(g: Geom, m: Label, k: Label)
    requires g.Ok()
    ensures Under(g, m, k) <==> m == k || Under(g, Parent(g, m), k)
  {
  }

  lemma {:induction false} UpCell(g: Geom, j: nat, h: nat, x: nat)
    requires g.Ok() && j <= h
    ensures Up(g.n, g.Cell(j, x), h - j) == g.Cell(h, x)
    decreases h - j
  {
    hide Geom.Cell;
    if j < h {
      CellUp(g, j, x);
      UpCell(g, j + 1, h, x);
    }
  }

  /** The tables x meets below height h are those under the stretch of height h that holds it. */
  lemma UnderSlot(g: Geom, j: nat, k: Label, x: nat)
    requires g.Ok() && j <= k.h
    ensures Under(g, Slot(g, j, x), k) <==> Slot(g, k.h, x) == k
  {
    hide Geom.Cell;
    UpCell(g, j + 1, k.h + 1, x);
  }

  /** Is m under the table of entry i of l? */
  predicate Beneath(g: Geom, l: Label, i: nat, m: Label) { l.h > 0 && Under(g, m, Kid(g, l, i)) }

  /** t' is t with entry i of l cleared and everything under it gone. */
  ghost predicate Cut(g: Geom, t: Tab, t': Tab, l: Label, i: nat) {
    && l in t && i < |t[l]| && l in t' && t'[l] == t[l][i := Empty]
    && (forall m :: m in t' <==> m in t && !Beneath(g, l, i, m))
    && (forall m :: m in t' && m != l ==> t'[m] == t[m])
  }

  /** Nothing above or beside is beneath. */
  lemma NotBeneath(g: Geom, l: Label, i: nat, m: Label)
    requires m.h >= l.h
    ensures !Beneath(g, l, i, m)
  {
  }

  /** A table under an entry other than entry i of l goes exactly if the entry's own table goes. */
  lemma BeneathKid(g: Geom, l: Label, i: nat, m: Label, j: nat)
    requires g.Ok() && m.h > 0 && i < g.n && j < g.n
    ensures Beneath(g, l, i, Kid(g, m, j)) <==> Beneath(g, l, i, m) || (m == l && j == i)
  {
    hide Under, Kid;
    if l.h > 0 {
      UnderKid(g, m, j, Kid(g, l, i));
      if Kid(g, m, j) == Kid(g, l, i) { KidsApart(g, l, i, m, j); }
    }
  }

  lemma CutShape(g: Geom, at: map<Label, nat>, t: Tab, at': map<Label, nat>, t': Tab, l: Label, i: nat)
    requires Shape(g, at, t) && Cut(g, t, t', l, i)
    requires at'.Keys == t'.Keys && forall m :: m in at' ==> at'[m] == at[m]
    ensures Shape(g, at', t')
  {
    assert g.Ok() && l.h <= g.H && i < g.n by { assert LabelOk(g, t, l); }
    assert Label(g.H, 0) in t' by { NotBeneath(g, l, i, Label(g.H, 0)); }
    hide LabelOk, CellOk, Beneath;
    forall m | m in t' ensures LabelOk(g, t', m) { CutLabel(g, at, t, t', l, i, m); }
    forall m, j | m in t' && 0 <= j < |t'[m]| ensures CellOk(g, at', t', m, j) {
      CutCell(g, at, t, at', t', l, i, m, j);
    }
  }

  lemma CutLabel(g: Geom, at: map<Label, nat>, t: Tab, t': Tab, l: Label, i: nat, m: Label)
    requires Shape(g, at, t) && Cut(g, t, t', l, i) && m in t'
    ensures LabelOk(g, t', m)
  {
    assert LabelOk(g, t, m);
    hide Under, Shape, Kid, Parent, Place;
    if l.h > 0 && m.h < g.H { UnderParent(g, m, Kid(g, l, i)); }
  }

  lemma CutCell(g: Geom, at: map<Label, nat>, t: Tab, at': map<Label, nat>, t': Tab, l: Label, i: nat, m: Label, j: nat)
    requires Shape(g, at, t) && Cut(g, t, t', l, i) && m in t' && j < |t'[m]|
    requires at'.Keys == t'.Keys && forall m :: m in at' ==> at'[m] == at[m]
    ensures CellOk(g, at', t', m, j)
  {
    assert LabelOk(g, t, l) && LabelOk(g, t, m);
    assert CellOk(g, at, t, m, j);
    hide Beneath, LabelOk, Kid;
    if m.h > 0 { BeneathKid(g, l, i, m, j); }
  }

  lemma CutTrans(g: Geom, at: map<Label, nat>, t: Tab, t': Tab, l: Label, i: nat, x: nat)
    requires Shape(g, at, t) && Cut(g, t, t', l, i) && Shape(g, map m | m in at && m in t' :: at[m], t')
    ensures Trans(g, t', x) == if Slot(g, l.h, x) == l && g.Index(l.h, x) == i then Fault else Trans(g, t, x)
  {
    assert g.Ok() && l.h <= g.H && i < g.n by { assert LabelOk(g, t, l); }
    hide Geom.Cell, Geom.Index, Geom.Ok, Shape, Look, Geom.Off;
    if Slot(g, l.h, x) == l && g.Index(l.h, x) == i {
      LookDown(g, map m | m in at && m in t' :: at[m], t', l.h, x);
      LookHere(g, t', l, x);
    } else {
      forall k | 0 <= k <= g.H ensures Entry(g, t, k, x) == Entry(g, t', k, x) {
        EntryKept(g, t, t', l, i, k, x);
      }
      LookSame(g, t, t', g.H, x);
    }
  }

  lemma EntryKept(g: Geom, t: Tab, t': Tab, l: Label, i: nat, k: nat, x: nat)
    requires g.Ok() && i < g.n && Cut(g, t, t', l, i) && !(Slot(g, l.h, x) == l && g.Index(l.h, x) == i)
    ensures Entry(g, t, k, x) == Entry(g, t', k, x)
  {
    hide Under, Kid;
    if l.h > 0 {
      MeetsKid(g, l, i, x);
      KidHeight(g, l, i);
      if k < l.h { UnderSlot(g, k, Kid(g, l, i), x); } else { NotBeneath(g, l, i, Slot(g, k, x)); }
    }
  }

  lemma CutCounted(g: Geom, t: Tab, t': Tab, l: Label, i: nat)
    requires Cut(g, t, t', l, i) && Counted(g, t) && l.h > 0
    ensures Counted(g, t')
  {
    hide Used, Kid, Beneath;
    forall m, j | m in t' && 0 <= j < |t'[m]| ensures CountOk(g, t', m, j) {
      assert CountOk(g, t, m, j);
      if m.h == 1 { KidHeight(g, m, j); }
    }
  }

  /** Clearing the entry for x unmaps its block and changes nothing else. */
  lemma CutOk(g: Geom, at: map<Label, nat>, t: Tab, at': map<Label, nat>, t': Tab, h: nat, x: nat)
    requires Shape(g, at, t) && g.Aligned(h, x) && Cut(g, t, t', Slot(g, h, x), g.Index(h, x))
    requires at'.Keys == t'.Keys && forall m :: m in at' ==> at'[m] == at[m]
    ensures Shape(g, at', t') && Unmapped(g, t, t', x, g.Span(h, 1))
  {
    var l, i := Slot(g, h, x), g.Index(h, x);
    CutShape(g, at, t, at', t', l, i);
    var kept := map m | m in at && m in t' :: at[m];
    assert kept == at';
    hide Geom.Cell, Geom.Block, Geom.Span, Geom.Ok, Geom.Off, Geom.Aligned, Geom.Index, Shape, Look, Trans, Cut;
    forall y: nat ensures Trans(g, t', y) == if x <= y < x + g.Span(h, 1) then Fault else Trans(g, t, y) {
      CutTrans(g, at, t, t', l, i, y);
      SlotRange(g, h, x, 1, y);
    }
  }

  // ---------------------------------------------------------------------------------------------
  // Subtrees by entry.

  lemma {:induction false} UpStep(n: nat, b: nat, k: nat)
    requires n > 0
    ensures Up(n, b, k + 1) == Up(n, b, k) / n
    decreases k
  {
    if k > 0 { UpStep(n, b / n, k - 1); }
  }

  /** Is m under one of the first j entries of l? */
  predicate UnderSome(g: Geom, m: Label, l: Label, j: nat) {
    g.n > 0 && m.h < l.h && l.b * g.n <= Up(g.n, m.b, l.h - 1 - m.h) < l.b * g.n + j
  }

  lemma UnderNext(g: Geom, m: Label, l: Label, j: nat)
    requires g.Ok() && l.h > 0
    ensures UnderSome(g, m, l, j + 1) <==> UnderSome(g, m, l, j) || Under(g, m, Kid(g, l, j))
  {
  }

  /** The tables under l are l and those under its entries. */
  lemma UnderAll(g: Geom, m: Label, l: Label)
    requires g.Ok()
    ensures Under(g, m, l) <==> m == l || UnderSome(g, m, l, g.n)
    ensures !UnderSome(g, l, l, g.n)
  {
    if m.h < l.h {
      UpStep(g.n, m.b, l.h - 1 - m.h);
      var u := Up(g.n, m.b, l.h - 1 - m.h);
      DivTimes(u, g.n);
      if UnderSome(g, m, l, g.n) { DivUnique(u, g.n, l.b); }
    }
  }

  /** Under different entries there are different tables. */
  lemma UnderApart(g: Geom, m: Label, l: Label, j: nat)
    requires g.Ok() && l.h > 0
    ensures !(UnderSome(g, m, l, j) && Under(g, m, Kid(g, l, j)))
  {
  }

  /** If a table is there, so is every table above it up to l. */
  lemma {:induction false} AncestorThere(g: Geom, at: map<Label, nat>, m: Label, l: Label)
    requires g.Ok() && m in at && Under(g, m, l)
    requires forall k :: k in at && Under(g, k, l) && k.h < l.h ==> Parent(g, k) in at
    ensures l in at
    decreases l.h - m.h
  {
    hide Parent;
    UnderParent(g, m, l);
    if m != l {
      assert m.h < l.h by { UnderHeight(g, m, l); }
      assert Parent(g, m).h == m.h + 1 by { ParentHeight(g, m); }
      AncestorThere(g, at, Parent(g, m), l);
    }
  }

  lemma UnderHeight(g: Geom, m: Label, l: Label)
    requires Under(g, m, l) && m != l
    ensures m.h < l.h
  {
  }

  lemma ParentHeight(g: Geom, m: Label)
    requires g.Ok()
    ensures Parent(g, m).h == m.h + 1
  {
  }
}
