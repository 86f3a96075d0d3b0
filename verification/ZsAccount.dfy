/** Fullness groups, lists and counters of a size class, as values. */
module ZsAccount {
  import opened Counting

  const GROUPS: nat := 12

  /** get_fullness_group */
  function FullnessGroup(inuse: nat, objs: nat): (group: nat)
    requires inuse <= objs && 0 < objs
    ensures group < GROUPS
    ensures group == 0 <==> inuse == 0
    ensures group == GROUPS - 1 <==> inuse == objs
  {
    if inuse == 0 then 0
    else if inuse == objs then GROUPS - 1
    else
      var ratio := 100 * inuse / objs;
      assert ratio < 100;
      ratio / 10 + 1
  }

  // ---------------------------------------------------------------------------------------------
  // Sums over zspages.

  ghost function Sum(m: map<nat, nat>, s: set<nat>): nat
    requires s <= m.Keys
  {
    if s == {} then 0 else var x :| x in s; m[x] + Sum(m, s - {x})
  }

  lemma {:induction false} SumRemove(m: map<nat, nat>, s: set<nat>, x: nat)
    requires s <= m.Keys && x in s
    ensures Sum(m, s) == m[x] + Sum(m, s - {x})
    decreases |s|
  {
    var y :| y in s && Sum(m, s) == m[y] + Sum(m, s - {y});
    if y != x {
      SumRemove(m, s - {y}, x);
      SumRemove(m, s - {x}, y);
      assert s - {y} - {x} == s - {x} - {y};
    }
  }

  lemma {:induction false} SumSame(m: map<nat, nat>, m': map<nat, nat>, s: set<nat>)
    requires s <= m.Keys && s <= m'.Keys && forall x :: x in s ==> m[x] == m'[x]
    ensures Sum(m, s) == Sum(m', s)
    decreases |s|
  {
    if s != {} {
      var x :| x in s;
      SumRemove(m, s, x);
      SumRemove(m', s, x);
      SumSame(m, m', s - {x});
    }
  }

  ghost function Total(m: map<nat, nat>): nat { Sum(m, m.Keys) }

  lemma TotalUpdate(m: map<nat, nat>, x: nat, v: nat)
    ensures Total(m[x := v]) == Total(m) - (if x in m then m[x] else 0) + v
  {
    var m' := m[x := v];
    SumRemove(m', m'.Keys, x);
    var rest := m'.Keys - {x};
    SumSame(m, m', rest);
    if x in m {
      SumRemove(m, m.Keys, x);
      assert m.Keys - {x} == rest;
    } else {
      assert m.Keys == rest;
    }
  }

  lemma TotalRemove(m: map<nat, nat>, x: nat)
    requires x in m
    ensures Total(m - {x}) == Total(m) - m[x]
  {
    SumRemove(m, m.Keys, x);
    var m' := m - {x};
    assert m'.Keys == m.Keys - {x};
    SumSame(m, m', m'.Keys);
  }

  // ---------------------------------------------------------------------------------------------
  // What zs_can_compact promises.

  /** Partly full zspages. */
  function Partial(m: map<nat, nat>, objs: nat): set<nat> { set z | z in m && 0 < m[z] < objs }

  lemma MulNext(a: nat, n: nat, n': nat)
    requires n' == n + 1
    ensures a * n' == a * n + a
  {
  }

  lemma {:induction false} AllFull(m: map<nat, nat>, objs: nat, s: set<nat>)
    requires s <= m.Keys && forall z :: z in s ==> m[z] == objs
    ensures Sum(m, s) == objs * |s|
    decreases |s|
  {
    if s != {} {
      var x :| x in s;
      SumRemove(m, s, x);
      AllFull(m, objs, s - {x});
      MulNext(objs, |s - {x}|, |s|);
    }
  }

  lemma {:induction false} SumAtMost(m: map<nat, nat>, objs: nat, s: set<nat>)
    requires s <= m.Keys && forall z :: z in s ==> m[z] <= objs
    ensures Sum(m, s) <= objs * |s|
    decreases |s|
  {
    if s != {} {
      var x :| x in s;
      SumRemove(m, s, x);
      SumAtMost(m, objs, s - {x});
      MulNext(objs, |s - {x}|, |s|);
    }
  }

  lemma OnePartial(m: map<nat, nat>, objs: nat, x: nat)
    requires x in m && forall z :: z in m && z != x ==> m[z] == objs
    ensures Total(m) == m[x] + objs * (|m| - 1)
  {
    var rest := m.Keys - {x};
    AllFull(m, objs, rest);
    SumRemove(m, m.Keys, x);
    assert |m.Keys| == |rest| + 1;
    assert |m.Keys| == |m|;
  }

  /** Without empty zspages, a whole zspage worth of waste means at least two partly full ones. */
  lemma TwoPartial(m: map<nat, nat>, objs: nat)
    requires objs > 0 && forall z :: z in m ==> 0 < m[z] <= objs
    requires objs * |m| - Total(m) >= objs
    ensures |Partial(m, objs)| >= 2
  {
    var p := Partial(m, objs);
    assert |m.Keys| == |m|;
    if |p| == 0 {
      forall z | z in m ensures m[z] == objs { assert z !in p; }
      AllFull(m, objs, m.Keys);
    } else if |p| == 1 {
      var x :| x in p;
      SingleSet(p, x);
      forall z | z in m && z != x ensures m[z] == objs { assert z !in p; }
      OnePartial(m, objs, x);
    }
  }

  lemma SingleSet(p: set<nat>, x: nat)
    requires |p| == 1 && x in p
    ensures p == {x}
  {
    assert |p - {x}| == 0;
  }

  // ---------------------------------------------------------------------------------------------
  // Lists and group counters.

  /** The fullness lists with the group each zspage believes to be in, the group counters, and the zspages
      that async_free_zspage has spliced out of the first list. */
  datatype Board = Board(lists: seq<seq<nat>>, fullness: map<nat, nat>, stat: seq<int>, spliced: seq<nat>)

  /** Everything the lists and counters promise about zspages with `m[z]` objects in use. Zspages in `held` are
      off the lists; for those in `stale` the group has not been brought up to date yet. */
  ghost predicate Placed(b: Board, m: map<nat, nat>, objs: nat, held: set<nat>, stale: set<nat>) {
    && objs > 0 && |b.lists| == GROUPS && |b.stat| == GROUPS
    && (forall z :: z in m ==> m[z] <= objs)
    && (forall g :: 0 <= g < GROUPS ==> Distinct(b.lists[g])) && Distinct(b.spliced)
    && (forall g, z :: 0 <= g < GROUPS && z in b.lists[g] ==> ListedOk(b, m, objs, held, stale, g, z))
    && (forall z :: z in b.spliced ==> z in m && z !in held && m[z] == 0)
    && (forall z :: z in m ==> z in held || z in b.spliced || Listed(b, z))
    && held <= m.Keys
    && (forall g :: 0 <= g < GROUPS ==> b.stat[g] == |b.lists[g]| + if g == 0 then |b.spliced| else 0)
  }

  predicate Listed(b: Board, z: nat)
    requires |b.lists| == GROUPS
  {
    z in b.fullness && b.fullness[z] < GROUPS && z in b.lists[b.fullness[z]]
  }

  predicate ListedOk(b: Board, m: map<nat, nat>, objs: nat, held: set<nat>, stale: set<nat>, g: nat, z: nat)
    requires objs > 0
  {
    && z in m && z in b.fullness && b.fullness[z] == g && z !in held && z !in b.spliced
    && (z !in stale ==> m[z] <= objs && g == FullnessGroup(m[z], objs))
  }

  function IndexIn(s: seq<nat>, z: nat): (i: nat)
    requires z in s
    ensures i < |s| && s[i] == z
  {
    if s[0] == z then 0 else 1 + IndexIn(s[1..], z)
  }

  /** list_del */
  function Without(s: seq<nat>, z: nat): (r: seq<nat>)
    requires z in s
    ensures |r| == |s| - 1
    ensures Distinct(s) ==> Distinct(r) && forall x :: x in r <==> x in s && x != z
  {
    var i := IndexIn(s, z);
    var r := s[..i] + s[i + 1..];
    assert s == s[..i] + [z] + s[i + 1..];
    assert Distinct(s) ==> Distinct(r) && forall x :: x in r <==> x in s && x != z by {
      if Distinct(s) { WithoutElements(s, i, r); }
    }
    r
  }

  lemma WithoutElements(s: seq<nat>, i: nat, r: seq<nat>)
    requires Distinct(s) && i < |s| && r == s[..i] + s[i + 1..]
    ensures Distinct(r) && forall x :: x in r <==> x in s && x != s[i]
  {
    forall x | x in s && x != s[i] ensures x in r {
      var k :| 0 <= k < |s| && s[k] == x;
      assert r[if k < i then k else k - 1] == x;
    }
  }

  /** insert_zspage */
  function Insert(b: Board, z: nat, g: nat): Board
    requires |b.lists| == GROUPS == |b.stat| && g < GROUPS
  {
    b.(lists := b.lists[g := [z] + b.lists[g]], fullness := b.fullness[z := g], stat := b.stat[g := b.stat[g] + 1])
  }

  /** remove_zspage */
  function Remove(b: Board, z: nat): Board
    requires |b.lists| == GROUPS == |b.stat| && Listed(b, z)
  {
    var g := b.fullness[z];
    b.(lists := b.lists[g := Without(b.lists[g], z)], stat := b.stat[g := b.stat[g] - 1])
  }

  lemma EnlistOk(b: Board, m: map<nat, nat>, objs: nat, held: set<nat>, stale: set<nat>, z: nat)
    requires Placed(b, m, objs, held, stale) && z in held && m[z] <= objs
    ensures Placed(Insert(b, z, FullnessGroup(m[z], objs)), m, objs, held - {z}, stale - {z})
  {
    hide FullnessGroup;
    var g := FullnessGroup(m[z], objs);
    var b' := Insert(b, z, g);
    forall h | 0 <= h < GROUPS ensures z !in b.lists[h] {
      assert z in b.lists[h] ==> ListedOk(b, m, objs, held, stale, h, z);
    }
    forall h, x | 0 <= h < GROUPS && x in b'.lists[h] ensures ListedOk(b', m, objs, held - {z}, stale - {z}, h, x) {
      if x != z { assert ListedOk(b, m, objs, held, stale, h, x); }
    }
    forall x | x in m ensures x in held - {z} || x in b'.spliced || Listed(b', x) {
      assert x in held || x in b.spliced || Listed(b, x);
    }
  }

  lemma UnlistOk(b: Board, m: map<nat, nat>, objs: nat, held: set<nat>, stale: set<nat>, z: nat)
    requires Placed(b, m, objs, held, stale) && z in m && Listed(b, z)
    ensures Placed(Remove(b, z), m, objs, held + {z}, stale)
  {
    hide FullnessGroup, Without;
    var g := b.fullness[z];
    var b' := Remove(b, z);
    assert ListedOk(b, m, objs, held, stale, g, z);
    forall h, x | 0 <= h < GROUPS && x in b'.lists[h] ensures ListedOk(b', m, objs, held + {z}, stale, h, x) {
      assert ListedOk(b, m, objs, held, stale, h, x);
    }
    forall x | x in m ensures x in held + {z} || x in b'.spliced || Listed(b', x) {
      assert x in held || x in b.spliced || Listed(b, x);
    }
  }

  /** The number of objects of one listed zspage changed: its group may be out of date now. */
  lemma TouchOk(b: Board, m: map<nat, nat>, objs: nat, held: set<nat>, z: nat, n: nat)
    requires Placed(b, m, objs, held, {}) && z in m && z !in b.spliced && n <= objs
    ensures Placed(b, m[z := n], objs, held, {z})
    ensures z in held ==> Placed(b, m[z := n], objs, held, {})
  {
    hide FullnessGroup;
    var m' := m[z := n];
    forall g, x | 0 <= g < GROUPS && x in b.lists[g]
      ensures ListedOk(b, m', objs, held, {z}, g, x)
      ensures z in held ==> ListedOk(b, m', objs, held, {}, g, x)
    {
      assert ListedOk(b, m, objs, held, {}, g, x);
    }
  }

  /** A new zspage, not on any list yet. */
  lemma AdoptOk(b: Board, m: map<nat, nat>, objs: nat, held: set<nat>, z: nat)
    requires Placed(b, m, objs, held, {}) && z !in m
    ensures Placed(b, m[z := 0], objs, held + {z}, {})
  {
    hide FullnessGroup;
    var m' := m[z := 0];
    forall g, x | 0 <= g < GROUPS && x in b.lists[g] ensures ListedOk(b, m', objs, held + {z}, {}, g, x) {
      assert ListedOk(b, m, objs, held, {}, g, x);
    }
  }

  /** A zspage that is off the lists disappears. */
  lemma DiscardOk(b: Board, m: map<nat, nat>, objs: nat, held: set<nat>, z: nat)
    requires Placed(b, m, objs, held, {}) && z in held
    ensures Placed(b, m - {z}, objs, held - {z}, {})
  {
    hide FullnessGroup;
    var m' := m - {z};
    forall g, x | 0 <= g < GROUPS && x in b.lists[g] ensures ListedOk(b, m', objs, held - {z}, {}, g, x) {
      assert ListedOk(b, m, objs, held, {}, g, x);
    }
  }

  /** list_splice_init of the list of empty zspages; the counter is not touched. */
  function Splice(b: Board): Board
    requires |b.lists| == GROUPS
  {
    b.(lists := b.lists[0 := []], spliced := b.lists[0] + b.spliced)
  }

  lemma SpliceOk(b: Board, m: map<nat, nat>, objs: nat, held: set<nat>)
    requires Placed(b, m, objs, held, {})
    ensures Placed(Splice(b), m, objs, held, {})
  {
    var b' := Splice(b);
    assert forall x :: x in b.lists[0] ==> ListedOk(b, m, objs, held, {}, 0, x);
    DistinctBoth(b.lists[0], b.spliced);
    forall g, x | 0 <= g < GROUPS && x in b'.lists[g] ensures ListedOk(b', m, objs, held, {}, g, x) {
      assert ListedOk(b, m, objs, held, {}, g, x);
    }
    forall x | x in m ensures x in held || x in b'.spliced || Listed(b', x) {
      assert x in held || x in b.spliced || Listed(b, x);
    }
  }

  /** Take the first spliced zspage and uncount it; it is then off all lists. */
  function Unsplice(b: Board): Board
    requires b.spliced != [] && |b.stat| == GROUPS
  {
    b.(spliced := b.spliced[1..], stat := b.stat[0 := b.stat[0] - 1])
  }

  lemma UnspliceOk(b: Board, m: map<nat, nat>, objs: nat, held: set<nat>)
    requires Placed(b, m, objs, held, {}) && b.spliced != []
    ensures Placed(Unsplice(b), m, objs, held + {b.spliced[0]}, {})
    ensures b.spliced[0] in m && m[b.spliced[0]] == 0
  {
    var z := b.spliced[0];
    var b' := Unsplice(b);
    assert b.spliced == [z] + b'.spliced;
    forall g, x | 0 <= g < GROUPS && x in b'.lists[g] ensures ListedOk(b', m, objs, held + {z}, {}, g, x) {
      assert ListedOk(b, m, objs, held, {}, g, x);
    }
    forall x | x in m ensures x in held + {z} || x in b'.spliced || Listed(b', x) {
      assert x in held || x in b.spliced || Listed(b, x);
    }
  }
}
