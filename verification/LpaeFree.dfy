/** Taking the tables of a whole subtree out of use. */
module LpaeFree {
  import opened LpaeLevels
  import opened LpaeTable
  import opened LpaeCut
  import opened LpaeMem

  /** The tables under l hang together: entries and tables agree, and each has its parent up to l. */
  ghost predicate Family(g: Geom, mem: Mem, at: Where, l: Label) {
    && g.Ok() && Placed(mem, at) && l in at
    && (forall m :: m in at && Under(g, m, l) ==> |mem[at[m]]| == g.n && (m.h < l.h ==> Parent(g, m) in at))
    && (forall m, j :: m in at && Under(g, m, l) && 0 <= j < g.n ==> FamilyCell(g, mem, at, m, j))
  }

  ghost predicate FamilyCell(g: Geom, mem: Mem, at: Where, m: Label, j: nat) {
    && m in at && at[m] in mem && j < |mem[at[m]]|
    && (mem[at[m]][j].Table? <==> m.h > 0 && Kid(g, m, j) in at)
    && (mem[at[m]][j].Table? ==> mem[at[m]][j].addr == at[Kid(g, m, j)])
  }

  /** Without the tables under l, and without those under its first j entries. */
  ghost function Without(g: Geom, at: Where, l: Label): Where { map m | m in at && !Under(g, m, l) :: at[m] }
  ghost function WithoutSome(g: Geom, at: Where, l: Label, j: nat): Where {
    map m | m in at && !UnderSome(g, m, l, j) :: at[m]
  }

  /** `added` lists the pages that `at` has and `at'` has not. */
  ghost predicate Listed(at: Where, at': Where, added: seq<nat>) {
    forall a :: a in added <==> exists m :: m in at && m !in at' && at[m] == a
  }

  lemma Start(g: Geom, at: Where, l: Label)
    ensures WithoutSome(g, at, l, 0) == at
  {
  }

  /** With an entry that has no table nothing more goes. */
  lemma NoKid(g: Geom, mem: Mem, at: Where, l: Label, j: nat)
    requires Family(g, mem, at, l) && l.h > 0 && j < g.n && Kid(g, l, j) !in at
    ensures WithoutSome(g, at, l, j + 1) == WithoutSome(g, at, l, j)
  {
    hide UnderSome, Under, Kid, FamilyCell, Parent;
    forall m | m in at ensures UnderSome(g, m, l, j + 1) <==> UnderSome(g, m, l, j) {
      UnderNext(g, m, l, j);
      if Under(g, m, Kid(g, l, j)) { NoneUnder(g, mem, at, l, j, m); }
    }
  }

  lemma NoneUnder(g: Geom, mem: Mem, at: Where, l: Label, j: nat, m: Label)
    requires Family(g, mem, at, l) && l.h > 0 && j < g.n && m in at && Under(g, m, Kid(g, l, j))
    ensures Kid(g, l, j) in at
  {
    hide UnderSome, Under, Kid, FamilyCell, Parent;
    forall k | k in at && Under(g, k, Kid(g, l, j)) && k.h < Kid(g, l, j).h ensures Parent(g, k) in at {
      UnderKids(g, k, l, j);
    }
    AncestorThere(g, at, m, Kid(g, l, j));
  }

  /** What is under an entry's table is under the table. */
  lemma UnderKids(g: Geom, m: Label, l: Label, j: nat)
    requires g.Ok() && l.h > 0 && j < g.n && Under(g, m, Kid(g, l, j))
    ensures Under(g, m, l) && m.h < l.h && UnderSome(g, m, l, g.n)
  {
    UnderNext(g, m, l, j);
    UnderAll(g, m, l);
  }

  /** The tables under an entry still hang together when those under the entries before are gone. */
  lemma KidFamily(g: Geom, mem: Mem, at: Where, l: Label, j: nat)
    requires Family(g, mem, at, l) && l.h > 0 && j < g.n && Kid(g, l, j) in at
    ensures Family(g, mem, WithoutSome(g, at, l, j), Kid(g, l, j))
  {
    assert forall m :: m in at ==> at[m] in mem;
    hide UnderSome, Under, Kid, FamilyCell, Parent, Placed;
    var at', k := WithoutSome(g, at, l, j), Kid(g, l, j);
    assert Placed(mem, at') by { StillPlaced(g, mem, at, l, j); }
    UnderSelf(g, k);
    forall m | m in at && Under(g, m, k)
      ensures m in at' && |mem[at[m]]| == g.n && (m.h < k.h ==> Parent(g, m) in at') {
      UnderKids(g, m, l, j);
      UnderApart(g, m, l, j);
      if m.h < k.h {
        ParentUnder(g, m, k);
        UnderApart(g, Parent(g, m), l, j);
      }
    }
    forall m, i | m in at' && Under(g, m, k) && 0 <= i < g.n ensures FamilyCell(g, mem, at', m, i) {
      UnderKids(g, m, l, j);
      assert FamilyCell(g, mem, at, m, i);
      KidCell(g, mem, at, at', l, j, m, i);
    }
  }

  lemma StillPlaced(g: Geom, mem: Mem, at: Where, l: Label, j: nat)
    requires Placed(mem, at)
    ensures Placed(mem, WithoutSome(g, at, l, j))
  {
  }

  lemma UnderSelf(g: Geom, l: Label)
    requires g.Ok()
    ensures Under(g, l, l)
  {
  }

  lemma ParentUnder(g: Geom, m: Label, k: Label)
    requires g.Ok() && Under(g, m, k) && m.h < k.h
    ensures Under(g, Parent(g, m), k)
  {
    UnderParent(g, m, k);
  }

  lemma KidCell(g: Geom, mem: Mem, at: Where, at': Where, l: Label, j: nat, m: Label, i: nat)
    requires g.Ok() && l.h > 0 && j < g.n && i < g.n && at' == WithoutSome(g, at, l, j) && m in at'
    requires Under(g, m, Kid(g, l, j)) && FamilyCell(g, mem, at, m, i)
    ensures FamilyCell(g, mem, at', m, i)
  {
    if m.h > 0 {
      UnderKid(g, m, i, Kid(g, l, j));
      UnderApart(g, Kid(g, m, i), l, j);
    }
  }

  /** Taking out the tables under one more entry. */
  lemma NextKid(g: Geom, at: Where, l: Label, j: nat)
    requires g.Ok() && l.h > 0
    ensures Without(g, WithoutSome(g, at, l, j), Kid(g, l, j)) == WithoutSome(g, at, l, j + 1)
  {
    hide UnderSome, Under, Kid;
    forall m ensures UnderSome(g, m, l, j + 1) <==> UnderSome(g, m, l, j) || Under(g, m, Kid(g, l, j)) {
      UnderNext(g, m, l, j);
    }
  }

  /** When all entries are done only the table itself is left. */
  lemma LastOne(g: Geom, at: Where, l: Label)
    requires g.Ok()
    ensures WithoutSome(g, at, l, g.n) - {l} == Without(g, at, l)
    ensures l in at ==> l in WithoutSome(g, at, l, g.n)
  {
    hide UnderSome, Under;
    forall m ensures Under(g, m, l) <==> m == l || UnderSome(g, m, l, g.n) { UnderAll(g, m, l); }
    UnderAll(g, l, l);
  }

  /** A last-level table has nothing under it. */
  lemma LastLevel(g: Geom, at: Where, l: Label)
    requires l.h == 0
    ensures WithoutSome(g, at, l, g.n) == at
  {
  }

  lemma ListedBoth(at: Where, at1: Where, at2: Where, a: seq<nat>, b: seq<nat>)
    requires Listed(at, at1, a) && Listed(at1, at2, b)
    requires at1.Keys <= at.Keys && at2.Keys <= at1.Keys && forall m :: m in at1 ==> at1[m] == at[m]
    ensures Listed(at, at2, a + b)
  {
    forall x ensures x in a + b <==> exists m :: m in at && m !in at2 && at[m] == x {
      if x in a {
        var m :| m in at && m !in at1 && at[m] == x;
        assert m !in at2;
      }
      if x in b {
        var m :| m in at1 && m !in at2 && at1[m] == x;
        assert m in at && at[m] == x;
      }
      if m :| m in at && m !in at2 && at[m] == x {
        assert m in at1 || x in a;
      }
    }
  }

  lemma ListedNone(at: Where)
    ensures Listed(at, at, [])
  {
  }

  lemma ListedOne(at: Where, l: Label)
    requires l in at
    ensures Listed(at, at - {l}, [at[l]])
  {
  }

  /** Queueing the page of a table that goes keeps pages apart. */
  lemma QueueApart(mem: Mem, at: Where, pool: seq<nat>, queue: seq<nat>, l: Label)
    requires Placed(mem, at) && Apart(at, pool, queue) && l in at
    ensures Apart(at - {l}, pool, queue + [at[l]])
  {
    var s, s' := pool + queue, pool + (queue + [at[l]]);
    assert s' == s + [at[l]];
    assert at[l] !in s;
  }

  /** Tables that go and are queued stay owned. */
  lemma FreedPages(at: Where, at': Where, pool: seq<nat>, queue: seq<nat>, queue': seq<nat>)
    requires queue <= queue' && Listed(at, at', queue'[|queue|..]) &&
      forall m :: m in at' ==> m in at && at'[m] == at[m]
    ensures SamePages(at, pool, queue, at', pool, queue')
  {
    var added := queue'[|queue|..];
    assert queue' == queue + added;
    forall a ensures Owned(at, pool, queue, a) <==> Owned(at', pool, queue', a) {
      if m :| m in at && at[m] == a {
        assert m in at' || a in added;
      }
      if a in added {
        var m :| m in at && m !in at' && at[m] == a;
      }
    }
  }

  /** A page taken from the pool for a new table stays owned. */
  lemma TakenPage(at: Where, pool: seq<nat>, queue: seq<nat>, kid: Label)
    requires kid !in at && pool != []
    ensures SamePages(at, pool, queue, at[kid := pool[0]], pool[1..], queue)
  {
    var at' := at[kid := pool[0]];
    forall a ensures Owned(at, pool, queue, a) <==> Owned(at', pool[1..], queue, a) {
      if a in pool {
        assert pool == [pool[0]] + pool[1..];
        if a == pool[0] { assert at'[kid] == a; }
      }
      if m :| m in at && at[m] == a { assert at'[m] == a; }
      if m :| m in at' && at'[m] == a { assert m == kid || at[m] == a; }
    }
  }

  lemma PagesTrans(at: Where, pool: seq<nat>, queue: seq<nat>, at1: Where, pool1: seq<nat>, queue1: seq<nat>,
      at2: Where, pool2: seq<nat>, queue2: seq<nat>)
    requires SamePages(at, pool, queue, at1, pool1, queue1) && SamePages(at1, pool1, queue1, at2, pool2, queue2)
    ensures SamePages(at, pool, queue, at2, pool2, queue2)
  {
    hide Owned;
  }
}
