/** The books of a size class: lists and counters against the zspages there are, and what each operation does to
    them. */
module ZsBooks {
  import opened Arith
  import opened Counting
  import opened ZsLayout
  import opened ZsPage
  import opened ZsPool
  import opened ZsAccount

  /** Objects in use, by zspage. */
  function Inuse(zs: map<nat, Zspage>): map<nat, nat> { map z | z in zs :: zs[z].inuse }

  /** ZS_OBJS_ALLOCATED, ZS_OBJS_INUSE and pages_allocated. */
  datatype Counts = Counts(slots: int, inuse: int, pages: int)

  /** n zspages of a each. */
  function Times(a: nat, n: nat): nat { a * n }

  /** How many zspages there are. */
  function Number(zs: map<nat, Zspage>): nat { |zs| }

  lemma NumberPlus(zs: map<nat, Zspage>, zs': map<nat, Zspage>, z: nat)
    requires z !in zs && zs'.Keys == zs.Keys + {z}
    ensures Number(zs') == Number(zs) + 1
  {
    KeysSize(zs);
    KeysSize(zs');
  }

  lemma NumberSame(zs: map<nat, Zspage>, zs': map<nat, Zspage>)
    requires zs'.Keys == zs.Keys
    ensures Number(zs') == Number(zs)
  {
    KeysSize(zs);
    KeysSize(zs');
  }

  lemma KeysSize(zs: map<nat, Zspage>)
    ensures |zs| == |zs.Keys|
  {
  }

  lemma CountOne(a: nat, n: nat)
    ensures Times(a, n + 1) == Times(a, n) + a
  {
  }

  lemma TimesSum(a: nat, m: nat, n: nat)
    ensures Times(a, m + n) == Times(a, m) + Times(a, n)
  {
  }

  lemma TimesSame(a: nat, m: nat, n: nat)
    requires a > 0
    ensures Times(a, m) == Times(a, n) <==> m == n
  {
    if m < n { MulMonotone(m + 1, n, a); }
    if n < m { MulMonotone(n + 1, m, a); }
  }

  /** The counters agree with the zspages there are. */
  ghost predicate Counted(c: Config, zs: map<nat, Zspage>, n: Counts)
    requires c.Ok()
  {
    && n.inuse == Total(Inuse(zs))
    && n.slots == Times(c.g.Objs(), Number(zs))
    && n.pages == Times(c.g.npages, Number(zs))
  }

  /** A sound pool with books to match. Zspages in `held` are off the lists. */
  ghost predicate ClassOk(c: Config, p: Pool, fl: Lists, b: Board, n: Counts, held: set<nat>) {
    PoolOk(c, p, fl) && c.Ok() && Counted(c, p.zs, n) && Placed(b, Inuse(p.zs), c.g.Objs(), held, {})
  }

  lemma ClassParts(c: Config, p: Pool, fl: Lists, b: Board, n: Counts, held: set<nat>)
    requires ClassOk(c, p, fl, b, n, held)
    ensures PoolOk(c, p, fl) && c.Ok() && |b.lists| == GROUPS == |b.stat| && c.g.Objs() > 0
    ensures held <= p.zs.Keys && forall z :: z in p.zs ==> p.zs[z].inuse <= c.g.Objs()
  {
    forall z | z in p.zs ensures p.zs[z].inuse <= c.g.Objs() { assert Inuse(p.zs)[z] <= c.g.Objs(); }
  }

  /** `zs'` differs from `zs` at most at z. */
  predicate OnlyAt(zs: map<nat, Zspage>, zs': map<nat, Zspage>, z: nat) {
    z in zs' && zs'.Keys == zs.Keys + {z} && forall x :: x in zs && x != z ==> zs'[x] == zs[x]
  }

  lemma InuseUpdate(zs: map<nat, Zspage>, zs': map<nat, Zspage>, z: nat)
    requires OnlyAt(zs, zs', z)
    ensures Inuse(zs') == Inuse(zs)[z := zs'[z].inuse]
    ensures Number(zs') == if z in zs then Number(zs) else Number(zs) + 1
  {
    hide Number;
    if z in zs {
      assert zs.Keys + {z} == zs.Keys;
      NumberSame(zs, zs');
    } else {
      NumberPlus(zs, zs', z);
    }
  }

  /** fix_fullness_group on the board. */
  function Fix(b: Board, z: nat, g: nat): Board
    requires |b.lists| == GROUPS == |b.stat| && g < GROUPS && Listed(b, z)
  {
    if b.fullness[z] == g then b else Insert(Remove(b, z), z, g)
  }

  lemma FixOk(b: Board, m: map<nat, nat>, objs: nat, held: set<nat>, z: nat)
    requires Placed(b, m, objs, held, {z}) && z in m && Listed(b, z) && z !in held && m[z] <= objs
    ensures Placed(Fix(b, z, FullnessGroup(m[z], objs)), m, objs, held, {})
  {
    hide Placed, FullnessGroup, Insert, Remove;
    assert |b.lists| == GROUPS == |b.stat| && objs > 0 by { ListsShape(b, m, objs, held, {z}); }
    if b.fullness[z] == FullnessGroup(m[z], objs) {
      Settled(b, m, objs, held, z);
    } else {
      UnlistOk(b, m, objs, held, {z}, z);
      EnlistOk(Remove(b, z), m, objs, held + {z}, {z}, z);
      assert held + {z} - {z} == held && {z} - {z} == {};
    }
  }

  lemma ListsShape(b: Board, m: map<nat, nat>, objs: nat, held: set<nat>, stale: set<nat>)
    requires Placed(b, m, objs, held, stale)
    ensures |b.lists| == GROUPS == |b.stat| && objs > 0
  {
  }

  /** A zspage that is on the right list is not stale. */
  lemma Settled(b: Board, m: map<nat, nat>, objs: nat, held: set<nat>, z: nat)
    requires Placed(b, m, objs, held, {z}) && z in m && Listed(b, z) && b.fullness[z] == FullnessGroup(m[z], objs)
    ensures Placed(b, m, objs, held, {})
  {
    hide FullnessGroup;
    forall g, x | 0 <= g < GROUPS && x in b.lists[g] ensures ListedOk(b, m, objs, held, {}, g, x) {
      assert ListedOk(b, m, objs, held, {z}, g, x);
    }
  }

  lemma OnList(b: Board, m: map<nat, nat>, objs: nat, held: set<nat>, stale: set<nat>, z: nat)
    requires Placed(b, m, objs, held, stale) && z in m && z !in held && z !in b.spliced
    ensures Listed(b, z)
  {
  }

  /** One object more or less in a listed zspage. */
  lemma ChangeOk(c: Config, p: Pool, fl: Lists, b: Board, n: Counts, held: set<nat>, p': Pool, fl': Lists, z: nat)
    requires ClassOk(c, p, fl, b, n, held) && PoolOk(c, p', fl') && z in p.zs && OnlyAt(p.zs, p'.zs, z)
    requires z !in held && z !in b.spliced && p'.zs[z].inuse <= c.g.Objs()
    ensures |b.lists| == GROUPS == |b.stat| && Listed(b, z)
    ensures ClassOk(c, p', fl', Fix(b, z, FullnessGroup(p'.zs[z].inuse, c.g.Objs())),
                    n.(inuse := n.inuse + p'.zs[z].inuse - p.zs[z].inuse), held)
  {
    hide PoolOk, Placed, FullnessGroup, Fix, Times, Number, Listed, Total, Geometry.Objs;
    var m := Inuse(p.zs);
    ListsShape(b, m, c.g.Objs(), held, {});
    OnList(b, m, c.g.Objs(), held, {}, z);
    InuseUpdate(p.zs, p'.zs, z);
    TotalUpdate(m, z, p'.zs[z].inuse);
    TouchOk(b, m, c.g.Objs(), held, z, p'.zs[z].inuse);
    FixOk(b, Inuse(p'.zs), c.g.Objs(), held, z);
  }

  /** A new zspage with its first object. */
  lemma NewOk(c: Config, p: Pool, fl: Lists, b: Board, n: Counts, p': Pool, fl': Lists, z: nat)
    requires ClassOk(c, p, fl, b, n, {}) && PoolOk(c, p', fl') && z !in p.zs && OnlyAt(p.zs, p'.zs, z)
    requires p'.zs[z].inuse == 1
    ensures |b.lists| == GROUPS == |b.stat| && c.g.Objs() > 0
    ensures ClassOk(c, p', fl', Insert(b, z, FullnessGroup(1, c.g.Objs())),
                    Counts(n.slots + c.g.Objs(), n.inuse + 1, n.pages + c.g.npages), {})
  {
    hide PoolOk, Placed, FullnessGroup, Insert, Times, Number, Total, Geometry.Objs;
    var m: map<nat, nat> := Inuse(p.zs);
    var objs := c.g.Objs();
    ListsShape(b, m, objs, {}, {});
    InuseUpdate(p.zs, p'.zs, z);
    CountOne(objs, Number(p.zs));
    CountOne(c.g.npages, Number(p.zs));
    TotalUpdate(m, z, 1);
    AdoptOk(b, m, objs, {}, z);
    assert {} + {z} == {z} && {z} - {z} == {} && {} - {z} == {};
    var m0: map<nat, nat> := m[z := 0];
    assert m0[z := 1] == m[z := 1];
    HeldChange(b, m0, objs, {z}, z, 1);
    EnlistOk(b, m[z := 1], objs, {z}, {}, z);
  }

  lemma HeldChange(b: Board, m: map<nat, nat>, objs: nat, held: set<nat>, z: nat, v: nat)
    requires Placed(b, m, objs, held, {}) && z in held && v <= objs
    ensures Placed(b, m[z := v], objs, held, {})
  {
    TouchOk(b, m, objs, held, z, v);
  }

  /** Taking a zspage off its list, and putting one back. */
  lemma TakeOffOk(c: Config, p: Pool, fl: Lists, b: Board, n: Counts, held: set<nat>, z: nat)
    requires ClassOk(c, p, fl, b, n, held) && z in p.zs && z !in held && z !in b.spliced
    ensures |b.lists| == GROUPS == |b.stat| && Listed(b, z)
    ensures ClassOk(c, p, fl, Remove(b, z), n, held + {z})
  {
    hide PoolOk, Placed, Remove, Listed, Counted;
    ListsShape(b, Inuse(p.zs), c.g.Objs(), held, {});
    OnList(b, Inuse(p.zs), c.g.Objs(), held, {}, z);
    UnlistOk(b, Inuse(p.zs), c.g.Objs(), held, {}, z);
  }

  lemma PutBackOk(c: Config, p: Pool, fl: Lists, b: Board, n: Counts, held: set<nat>, z: nat)
    requires ClassOk(c, p, fl, b, n, held) && z in held
    ensures |b.lists| == GROUPS == |b.stat| && c.g.Objs() > 0 && z in p.zs && p.zs[z].inuse <= c.g.Objs()
    ensures ClassOk(c, p, fl, Insert(b, z, FullnessGroup(p.zs[z].inuse, c.g.Objs())), n, held - {z})
  {
    hide PoolOk, Placed, Insert, Counted, FullnessGroup;
    ClassParts(c, p, fl, b, n, held);
    EnlistOk(b, Inuse(p.zs), c.g.Objs(), held, {}, z);
    assert {} - {z} == {};
  }

  /** An empty zspage that is off the lists is freed. */
  lemma FreedOk(c: Config, p: Pool, fl: Lists, b: Board, n: Counts, held: set<nat>, p': Pool, fl': Lists, z: nat)
    requires ClassOk(c, p, fl, b, n, held) && z in held && z in p.zs && p.zs[z].inuse == 0
    requires PoolOk(c, p', fl') && p'.zs == p.zs - {z}
    ensures ClassOk(c, p', fl', b, Counts(n.slots - c.g.Objs(), n.inuse, n.pages - c.g.npages), held - {z})
  {
    hide PoolOk, Placed, Times, Number, Total, Geometry.Objs;
    var m := Inuse(p.zs);
    assert Inuse(p'.zs) == m - {z};
    TotalRemove(m, z);
    DiscardOk(b, m, c.g.Objs(), held, z);
    assert p.zs.Keys == p'.zs.Keys + {z};
    NumberPlus(p'.zs, p.zs, z);
    CountOne(c.g.Objs(), Number(p'.zs));
    CountOne(c.g.npages, Number(p'.zs));
  }

  /** list_splice_init in async_free_zspage, and taking one zspage off the spliced list. */
  lemma SplicedOk(c: Config, p: Pool, fl: Lists, b: Board, n: Counts, held: set<nat>)
    requires ClassOk(c, p, fl, b, n, held)
    ensures |b.lists| == GROUPS && ClassOk(c, p, fl, Splice(b), n, held)
  {
    SpliceOk(b, Inuse(p.zs), c.g.Objs(), held);
  }

  lemma UnsplicedOk(c: Config, p: Pool, fl: Lists, b: Board, n: Counts, held: set<nat>)
    requires ClassOk(c, p, fl, b, n, held) && b.spliced != []
    ensures |b.stat| == GROUPS && b.spliced[0] in p.zs && p.zs[b.spliced[0]].inuse == 0
    ensures ClassOk(c, p, fl, Unsplice(b), n, held + {b.spliced[0]})
  {
    UnspliceOk(b, Inuse(p.zs), c.g.Objs(), held);
  }

  /** Objects moved between two zspages that are both off the lists. */
  lemma MovedOk(c: Config, p: Pool, fl: Lists, b: Board, n: Counts, held: set<nat>, p': Pool, fl': Lists, s: nat,
      d: nat)
    requires ClassOk(c, p, fl, b, n, held) && PoolOk(c, p', fl') && s in held && d in held && s != d && s in p.zs
    requires d in p.zs
    requires p'.zs.Keys == p.zs.Keys && forall x :: x in p.zs && x != s && x != d ==> p'.zs[x] == p.zs[x]
    requires p'.zs[s].inuse + p'.zs[d].inuse == p.zs[s].inuse + p.zs[d].inuse
    requires p'.zs[s].inuse <= c.g.Objs() && p'.zs[d].inuse <= c.g.Objs()
    ensures ClassOk(c, p', fl', b, n, held)
  {
    hide PoolOk, Placed, Times, Number, Total, Geometry.Objs;
    var m := Inuse(p.zs);
    var m1 := m[s := p'.zs[s].inuse];
    assert Inuse(p'.zs) == m1[d := p'.zs[d].inuse];
    TotalUpdate(m, s, p'.zs[s].inuse);
    TotalUpdate(m1, d, p'.zs[d].inuse);
    HeldChange(b, m, c.g.Objs(), held, s, p'.zs[s].inuse);
    HeldChange(b, m1, c.g.Objs(), held, d, p'.zs[d].inuse);
    NumberSame(p.zs, p'.zs);
  }

  /** The head of a list is a zspage of that group. */
  lemma HeadOf(c: Config, p: Pool, fl: Lists, b: Board, n: Counts, held: set<nat>, g: nat)
    requires ClassOk(c, p, fl, b, n, held) && g < GROUPS && |b.lists| == GROUPS && b.lists[g] != []
    ensures c.g.Objs() > 0
    ensures var z := b.lists[g][0];
      z in p.zs && z !in held && z !in b.spliced && p.zs[z].inuse <= c.g.Objs() &&
        FullnessGroup(p.zs[z].inuse, c.g.Objs()) == g
  {
    hide FullnessGroup, PoolOk, Counted;
    assert ListedOk(b, Inuse(p.zs), c.g.Objs(), held, {}, g, b.lists[g][0]);
  }

  /** If the lists of partly full zspages are empty, every partly full zspage is held. */
  lemma NoneListed(c: Config, p: Pool, fl: Lists, b: Board, n: Counts, held: set<nat>)
    requires ClassOk(c, p, fl, b, n, held)
    requires |b.lists| == GROUPS && forall g :: 1 <= g < GROUPS - 1 ==> b.lists[g] == []
    ensures Partial(Inuse(p.zs), c.g.Objs()) <= held
  {
    hide PoolOk, Counted;
    var m: map<nat, nat> := Inuse(p.zs);
    var objs := c.g.Objs();
    forall z | z in m && 0 < m[z] < objs ensures z in held {
      assert z in held || z in b.spliced || Listed(b, z);
      assert Listed(b, z) ==> ListedOk(b, m, objs, held, {}, b.fullness[z], z);
    }
  }

  // ---------------------------------------------------------------------------------------------
  // zs_can_compact and what compaction achieves.

  /** zs_can_compact: pages that can be freed, from the counters alone. */
  function CanCompact(n: Counts, objs: nat, npages: nat): nat
    requires objs > 0
  {
    if n.slots <= n.inuse then 0 else Times((n.slots - n.inuse) / objs, npages)
  }

  ghost predicate NoEmpty(zs: map<nat, Zspage>) { forall z :: z in zs ==> zs[z].inuse > 0 }

  /** The counters never claim more objects in use than there are slots. */
  lemma NeverOverfull(c: Config, p: Pool, fl: Lists, b: Board, n: Counts, held: set<nat>)
    requires ClassOk(c, p, fl, b, n, held)
    ensures n.inuse <= n.slots
  {
    hide PoolOk;
    SumAtMost(Inuse(p.zs), c.g.Objs(), Inuse(p.zs).Keys);
    assert Inuse(p.zs).Keys == p.zs.Keys;
    KeysSize(p.zs);
  }

  /** If no partly full zspage is left on the lists and at most one is held, there is nothing to gain. */
  lemma NothingToGain(c: Config, p: Pool, fl: Lists, b: Board, n: Counts, held: set<nat>)
    requires ClassOk(c, p, fl, b, n, held) && |held| <= 1 && NoEmpty(p.zs)
    requires |b.lists| == GROUPS && forall g :: 1 <= g < GROUPS - 1 ==> b.lists[g] == []
    ensures c.g.Objs() > 0 && CanCompact(n, c.g.Objs(), c.g.npages) == 0
  {
    hide PoolOk, Placed, Geometry.Objs, Partial, Total;
    ClassParts(c, p, fl, b, n, held);
    NoneListed(c, p, fl, b, n, held);
    var m: map<nat, nat> := Inuse(p.zs);
    SubsetSize(Partial(m, c.g.Objs()), held);
    assert |m| == Number(p.zs) by { assert m.Keys == p.zs.Keys; KeysSize(p.zs); MapSize(m); }
    Gain(m, c.g.Objs(), n.slots, c.g.npages);
  }

  lemma MapSize(m: map<nat, nat>)
    ensures |m| == |m.Keys|
  {
  }

  lemma Gain(m: map<nat, nat>, objs: nat, slots: int, npages: nat)
    requires objs > 0 && (forall z :: z in m ==> 0 < m[z] <= objs) && |Partial(m, objs)| < 2
    requires slots == Times(objs, |m|)
    ensures slots <= Total(m) || (slots - Total(m)) / objs == 0
    ensures Times(0, npages) == 0
  {
    if slots - Total(m) >= objs { TwoPartial(m, objs); }
  }

  /** Whole zspages freed so far, when nothing more can be gained, are exactly what zs_can_compact announced. */
  lemma ExactGain(first: Counts, last: Counts, objs: nat, npages: nat, freed: nat)
    requires objs > 0 && last.inuse == first.inuse && last.slots == first.slots - Times(objs, freed)
    requires last.inuse <= last.slots && npages > 0 && CanCompact(last, objs, npages) == 0
    ensures CanCompact(first, objs, npages) == Times(npages, freed)
  {
    var waste := last.slots - last.inuse;
    if waste >= objs {
      DivTimes(waste, objs);
      assert waste / objs >= 1;
      MulAtLeast(waste / objs, npages);
    }
    assert first.slots - first.inuse == waste + freed * objs;
    if first.slots > first.inuse { DivUnique(first.slots - first.inuse, objs, freed); }
  }
}
