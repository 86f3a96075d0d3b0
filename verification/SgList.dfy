/**
 * A scatterlist laid out for the IOMMU in place: entries padded to granules and boundaries before mapping,
 * and restored if mapping failed.
 */
module SgList {
  import opened Arith

  /** offset and length of the buffer, and the DMA fields. */
  datatype Entry = Entry(offset: nat, length: nat, dma: nat, dmaLen: nat)

  /** DMA_MAPPING_ERROR, and the numbers an unsigned int and a size_t can hold. */
  const ERROR: nat := 0xFFFF_FFFF_FFFF_FFFF
  const INTS: nat := 0x1_0000_0000
  const SIZES: nat := 0x1_0000_0000_0000_0000

  /** Granule and boundary: seg is the boundary mask plus one. */
  datatype Limits = Limits(g: nat, seg: nat) {
    predicate Ok() { 2 <= g <= INTS && 0 < seg && seg % g == 0 }

    /** iova_offset */
    function Off(e: Entry): (o: nat)
      requires g > 0
      ensures o < g && o <= e.offset
    {
      OffSmall(e.offset, g); e.offset % g
    }

    /** iova_align of what the entry needs. */
    function Need(e: Entry): (n: nat)
      requires g > 0
      ensures n >= e.length + Off(e)
    {
      UpEnough(e.length + Off(e), g);
      (e.length + Off(e) + g - 1) / g * g
    }

    /** Bytes from t up to the next boundary. */
    function Gap(t: nat): nat requires seg > 0 { if t % seg == 0 then 0 else seg - t % seg }

    /** Padding before an entry laid out at t. For a need of 0 the comparison wraps around. */
    function Pad(t: nat, e: Entry): nat
      requires g > 0 && seg > 0
    {
      var s := if Need(e) == 0 then SIZES - 1 else Need(e) - 1;
      if Gap(t) > 0 && Gap(t) < s then Gap(t) else 0
    }

    /** Bytes laid out for the first i entries. */
    function Total(sg: seq<Entry>, i: nat): nat
      requires g > 0 && seg > 0 && i <= |sg|
      decreases i, 0
    {
      if i == 0 then 0 else Start(sg, i - 1) + Need(sg[i - 1])
    }

    /** Where entry i begins. */
    function Start(sg: seq<Entry>, i: nat): nat
      requires g > 0 && seg > 0 && i < |sg|
      decreases i, 1
    {
      Total(sg, i) + Pad(Total(sg, i), sg[i])
    }

    /** What entry i takes up when the first n are laid out: its need, and the padding before the next. */
    function Room(sg: seq<Entry>, i: nat, n: nat): nat
      requires g > 0 && seg > 0 && i < n <= |sg|
    {
      Need(sg[i]) + if i + 1 < n then Pad(Total(sg, i + 1), sg[i + 1]) else 0
    }

    /** An entry once it is laid out. */
    function Laid(sg: seq<Entry>, i: nat, n: nat): Entry
      requires g > 0 && seg > 0 && i < n <= |sg|
    {
      Entry(sg[i].offset - Off(sg[i]), Room(sg, i, n) % INTS, Off(sg[i]), sg[i].length)
    }
  }

  lemma OffSmall(x: nat, g: nat)
    requires g > 0
    ensures x % g <= x
  {
    DivTimes(x, g);
  }

  lemma UpEnough(x: nat, g: nat)
    requires g > 0
    ensures x <= (x + g - 1) / g * g < x + g && (x + g - 1) / g * g % g == 0
  {
    var q := (x + g - 1) / g;
    DivTimes(x + g - 1, g);
    DivUnique(q * g, g, q);
  }

  // ---------------------------------------------------------------------------------------------
  // The layout.

  lemma GapUp(l: Limits, t: nat)
    requires l.Ok()
    ensures (t + l.Gap(t)) % l.seg == 0 && l.Gap(t) < l.seg && (t % l.g == 0 ==> l.Gap(t) % l.g == 0)
  {
    DivTimes(t, l.seg);
    var q := t / l.seg;
    if t % l.seg != 0 {
      Distribute(q, 1, l.seg);
      DivUnique(t + l.Gap(t), l.seg, q + 1);
      if t % l.g == 0 { GapAligned(t, q + 1, l.seg, l.g); }
    }
  }

  lemma GapAligned(t: nat, q: nat, seg: nat, g: nat)
    requires g > 0 && seg > 0 && seg % g == 0 && t % g == 0 && t <= q * seg
    ensures (q * seg - t) % g == 0
  {
    DivTimes(seg, g);
    DivTimes(t, g);
    var a, b := seg / g, t / g;
    Regroup(q, a, g);
    if q * a < b { MulMonotone(q * a + 1, b, g); Distribute(q * a, 1, g); }
    Distribute(q * a - b, b, g);
    DivUnique(q * seg - t, g, q * a - b);
  }

  lemma PadWhole(l: Limits, t: nat, e: Entry)
    requires l.Ok() && t % l.g == 0
    ensures (t + l.Pad(t, e)) % l.g == 0 && l.Need(e) % l.g == 0
  {
    GapUp(l, t);
    UpEnough(e.length + l.Off(e), l.g);
    hide Limits.Need, Limits.Gap, Limits.Off;
    if l.Pad(t, e) > 0 { ModAdd(t, l.Gap(t), l.g); }
  }

  lemma TotalNext(l: Limits, sg: seq<Entry>, i: nat)
    requires l.Ok() && i < |sg|
    ensures l.Start(sg, i) == l.Total(sg, i) + l.Pad(l.Total(sg, i), sg[i])
    ensures l.Total(sg, i + 1) == l.Start(sg, i) + l.Need(sg[i])
  {
  }

  /** Everything is laid out in whole granules. */
  lemma {:induction false} WholeGranules(l: Limits, sg: seq<Entry>, i: nat)
    requires l.Ok() && i <= |sg|
    ensures l.Total(sg, i) % l.g == 0
    ensures i < |sg| ==> l.Start(sg, i) % l.g == 0 && l.Need(sg[i]) % l.g == 0
    decreases i
  {
    assert l.Total(sg, 0) == 0;
    hide Limits.Pad, Limits.Need, Limits.Total, Limits.Start;
    if i > 0 {
      WholeGranules(l, sg, i - 1);
      ModAdd(l.Start(sg, i - 1), l.Need(sg[i - 1]), l.g);
      TotalNext(l, sg, i - 1);
    }
    if i < |sg| {
      TotalNext(l, sg, i);
      PadWhole(l, l.Total(sg, i), sg[i]);
    }
  }

  predicate AtBoundary(x: nat, seg: nat) requires seg > 0 { x % seg == 0 }

  /** No address from a up to a + n, if any, lies across a boundary. */
  predicate Inside(a: nat, n: nat, seg: nat) requires seg > 0 { n == 0 || a % seg + n <= seg }

  lemma TwoGranules(a: nat, b: nat, g: nat)
    requires g >= 2 && a % g == 0 && b % g == 0 && a > b
    ensures a >= b + 2
  {
    DivTimes(a, g);
    DivTimes(b, g);
    if a / g <= b / g {
      MulMonotone(a / g, b / g, g);
    } else {
      MulMonotone(b / g + 1, a / g, g);
      Distribute(b / g, 1, g);
    }
  }

  /** No entry crosses a boundary, as long as none is longer than one. */
  lemma EntryInside(l: Limits, sg: seq<Entry>, i: nat)
    requires l.Ok() && i < |sg| && l.Need(sg[i]) <= l.seg
    ensures Inside(l.Start(sg, i), l.Need(sg[i]), l.seg)
  {
    var t, n := l.Total(sg, i), l.Need(sg[i]);
    WholeGranules(l, sg, i);
    GapUp(l, t);
    if n > l.Gap(t) > 0 { TwoGranules(n, l.Gap(t), l.g); }
  }

  // ---------------------------------------------------------------------------------------------
  // In place.

  /** The whole list is laid out. */
  ghost predicate AllLaid(l: Limits, sg: seq<Entry>, es: seq<Entry>) {
    l.Ok() && |es| == |sg| && forall k :: 0 <= k < |sg| ==> es[k] == l.Laid(sg, k, |sg|)
  }

  /** The first i entries are laid out, the others untouched. */
  ghost predicate LaidUpTo(l: Limits, sg: seq<Entry>, es: seq<Entry>, i: nat) {
    && l.Ok() && |es| == |sg| && i <= |sg|
    && (forall k :: 0 <= k < i ==> es[k] == l.Laid(sg, k, i)) && (forall k :: i <= k < |sg| ==> es[k] == sg[k])
  }

  /** Entry i laid out, and the padding before it added to the entry before. */
  function LayOne(l: Limits, es: seq<Entry>, i: nat, pad: nat): seq<Entry>
    requires l.Ok() && i < |es| && (pad > 0 ==> i > 0)
  {
    var fs := es[i := Entry(es[i].offset - l.Off(es[i]), l.Need(es[i]) % INTS, l.Off(es[i]), es[i].length)];
    if pad > 0 then fs[i - 1 := fs[i - 1].(length := (fs[i - 1].length + pad) % INTS)] else fs
  }

  lemma LayOneOk(l: Limits, sg: seq<Entry>, es: seq<Entry>, i: nat)
    requires LaidUpTo(l, sg, es, i) && i < |sg|
    ensures var pad := l.Pad(l.Total(sg, i), sg[i]);
      && es[i] == sg[i] && (pad > 0 ==> i > 0) && LaidUpTo(l, sg, LayOne(l, es, i, pad), i + 1)
      && l.Total(sg, i + 1) == l.Total(sg, i) + pad + l.Need(sg[i])
  {
    hide Limits.Off, Limits.Need, Limits.Pad, Limits.Total, Limits.Laid, Limits.Start, Limits.Room;
    FirstNoPad(l, sg);
    LaidNext(l, sg, i);
    if i > 0 { LaidMore(l, sg, i); }
  }

  /** qcom_iommu_dma_prepare_map_sg */
  method Prepare(a: array<Entry>, l: Limits) returns (total: nat)
    requires l.Ok() && forall k :: 0 <= k < a.Length ==> a[k].length < INTS
    modifies a
    ensures total == l.Total(old(a[..]), a.Length)
    ensures AllLaid(l, old(a[..]), a[..])
  {
    hide Limits.Off, Limits.Need, Limits.Pad, Limits.Total, Limits.Ok, LaidUpTo, LayOne, AllLaid;
    ghost var sg := a[..];
    var i := 0;
    total := 0;
    LaidStart(l, sg);
    while i < a.Length
      invariant 0 <= i <= a.Length && total == l.Total(sg, i) && LaidUpTo(l, sg, a[..], i)
    {
      LayOneOk(l, sg, a[..], i);
      var e := a[i];
      var pad := l.Pad(total, e);
      WriteLayout(a, l, i, pad);
      total := total + pad + l.Need(e);
      i := i + 1;
    }
    LaidEnd(l, sg, a[..]);
  }

  /** The writes of one turn. */
  method WriteLayout(a: array<Entry>, l: Limits, i: nat, pad: nat)
    requires l.Ok() && i < a.Length && (pad > 0 ==> i > 0)
    modifies a
    ensures a[..] == LayOne(l, old(a[..]), i, pad)
  {
    hide Limits.Off, Limits.Need;
    var e := a[i];
    a[i] := Entry(e.offset - l.Off(e), l.Need(e) % INTS, l.Off(e), e.length);
    if pad > 0 {
      a[i - 1] := a[i - 1].(length := (a[i - 1].length + pad) % INTS);
    }
  }

  lemma LaidStart(l: Limits, sg: seq<Entry>)
    requires l.Ok()
    ensures l.g > 0 && l.seg > 0 && LaidUpTo(l, sg, sg, 0) && l.Total(sg, 0) == 0
  {
  }

  lemma LaidEnd(l: Limits, sg: seq<Entry>, es: seq<Entry>)
    requires LaidUpTo(l, sg, es, |sg|)
    ensures AllLaid(l, sg, es)
  {
  }

  lemma FirstNoPad(l: Limits, sg: seq<Entry>)
    requires l.Ok() && sg != []
    ensures l.Total(sg, 0) == 0 && l.Pad(0, sg[0]) == 0
  {
  }

  lemma LaidMore(l: Limits, sg: seq<Entry>, i: nat)
    requires l.Ok() && 0 < i < |sg|
    ensures l.Laid(sg, i - 1, i + 1) ==
      l.Laid(sg, i - 1, i).(length := (l.Laid(sg, i - 1, i).length + l.Pad(l.Total(sg, i), sg[i])) % INTS)
  {
    ModTwice(l.Need(sg[i - 1]), l.Pad(l.Total(sg, i), sg[i]));
  }

  lemma ModTwice(a: nat, b: nat)
    ensures (a % INTS + b) % INTS == (a + b) % INTS
  {
  }

  lemma LaidNext(l: Limits, sg: seq<Entry>, i: nat)
    requires l.Ok() && i < |sg|
    ensures l.Laid(sg, i, i + 1) == Entry(sg[i].offset - l.Off(sg[i]), l.Need(sg[i]) % INTS, l.Off(sg[i]), sg[i].length)
    ensures forall k :: 0 <= k < i - 1 ==> l.Laid(sg, k, i + 1) == l.Laid(sg, k, i)
    ensures i > 0 && l.Pad(l.Total(sg, i), sg[i]) == 0 ==> l.Laid(sg, i - 1, i + 1) == l.Laid(sg, i - 1, i)
    ensures l.Total(sg, i + 1) == l.Total(sg, i) + l.Pad(l.Total(sg, i), sg[i]) + l.Need(sg[i])
  {
  }

  /** The padding that entry k gets for the sake of the next. */
  function PadAfter(l: Limits, sg: seq<Entry>, k: nat): nat
    requires l.Ok() && k < |sg|
  {
    if k + 1 < |sg| then l.Pad(l.Total(sg, k + 1), sg[k + 1]) else 0
  }

  /** An empty entry comes back empty exactly if it begins a granule and is not padded, whole multiples of 2^32
      aside. */
  lemma EmptyRoom(l: Limits, sg: seq<Entry>, k: nat)
    requires l.Ok() && k < |sg| && sg[k].length == 0
    ensures l.Room(sg, k, |sg|) % INTS == 0 <==>
      (if l.Off(sg[k]) == 0 then PadAfter(l, sg, k) else l.g + PadAfter(l, sg, k)) % INTS == 0
  {
    NeedOfOff(l.Off(sg[k]), l.g);
  }

  lemma NeedOfOff(x: nat, g: nat)
    requires x < g
    ensures (x + g - 1) / g * g == if x == 0 then 0 else g
  {
    DivUnique(x + g - 1, g, if x == 0 then 0 else 1);
  }

  /** Such an entry: it begins within a granule, so it is given one. */
  lemma EmptyExample()
    ensures var l, sg := Limits(4096, 65536), [Entry(100, 0, 0, 0)]; l.Ok() && l.Room(sg, 0, 1) == 4096
  {
    var l := Limits(4096, 65536);
    assert l.Need(Entry(100, 0, 0, 0)) == 4096;
  }

  /** One that begins within a granule and comes back empty: the padding makes its room 2^32. */
  lemma EmptyAgain()
    ensures var l := Limits(4096, 0x2_0000_0000);
      var sg := [Entry(0, 0xFFFF_F000, 0, 0), Entry(0, 4096, 0, 0), Entry(100, 0, 0, 0), Entry(0, 0, 0, 0)];
      l.Ok() && l.Off(sg[2]) > 0 && l.Room(sg, 2, 4) % INTS == 0
  {
    var l := Limits(4096, 0x2_0000_0000);
    var sg := [Entry(0, 0xFFFF_F000, 0, 0), Entry(0, 4096, 0, 0), Entry(100, 0, 0, 0), Entry(0, 0, 0, 0)];
    assert l.Total(sg, 1) == 0xFFFF_F000;
    assert l.Total(sg, 2) == 0x1_0000_0000;
    assert l.Total(sg, 3) == 0x1_0000_1000;
    assert l.Room(sg, 2, 4) == 0x1_0000_0000;
  }

  /** qcom_iommu_dma_invalidate_sg restores a laid out list, but for empty entries that did not begin a granule. */
  method Invalidate(a: array<Entry>, ghost l: Limits, ghost sg: seq<Entry>)
    requires l.Ok() && |sg| == a.Length && l.g < ERROR && AllLaid(l, sg, a[..])
    modifies a
    ensures forall k :: 0 <= k < a.Length ==> a[k].offset == sg[k].offset && a[k].dma == ERROR && a[k].dmaLen == 0
    ensures forall k :: 0 <= k < a.Length ==>
      a[k].length == if sg[k].length > 0 then sg[k].length else l.Room(sg, k, a.Length) % INTS
  {
    var i := 0;
    while i < a.Length
      invariant 0 <= i <= a.Length
      invariant forall k :: 0 <= k < i ==> a[k].offset == sg[k].offset && a[k].dma == ERROR && a[k].dmaLen == 0
      invariant forall k :: 0 <= k < i ==>
        a[k].length == if sg[k].length > 0 then sg[k].length else l.Room(sg, k, a.Length) % INTS
      invariant forall k :: i <= k < a.Length ==> a[k] == l.Laid(sg, k, a.Length)
    {
      var e := a[i];
      if e.dma != ERROR { e := e.(offset := e.offset + e.dma); }
      if e.dmaLen > 0 { e := e.(length := e.dmaLen); }
      a[i] := e.(dma := ERROR, dmaLen := 0);
      i := i + 1;
    }
  }
}
